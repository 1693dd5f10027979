/** skills.json: its reader, and how a form is rendered into it (internal/app/bundle.go:153-182 and 602-633). */
module BundleSkills {
  import opened Common
  import opened Strings
  import opened BundleFiles

  const BUNDLE := "bundle"
  const CATALOG := "catalog"

  // ---- reading ----

  predicate EntryFits(e: SkillEntry) {
    && Trim(e.name) != ""
    && (e.source == BUNDLE || e.source == CATALOG)
    && (e.source == CATALOG ==> e.id != "")
  }

  /** Every entry is complete, no name is listed twice, and no catalog skill is. */
  predicate EntriesFit(entries: seq<SkillEntry>) {
    && (forall i | 0 <= i < |entries| :: EntryFits(entries[i]))
    && (forall i, j | 0 <= i < j < |entries| :: !Clash(entries[i], entries[j]))
  }

  predicate Clash(a: SkillEntry, b: SkillEntry) {
    a.name == b.name || (a.source == CATALOG && b.source == CATALOG && a.id == b.id)
  }

  function Read(file: File<seq<SkillEntry>>): Option<seq<SkillEntry>> {
    if file.Holds? && EntriesFit(file.doc) then Some(file.doc) else None
  }

  predicate FitUpTo(doc: seq<SkillEntry>, n: nat)
    requires n <= |doc|
  {
    && (forall i | 0 <= i < n :: EntryFits(doc[i]))
    && (forall i, j | 0 <= i < j < n :: !Clash(doc[i], doc[j]))
  }

  /** The two sets hold the names and the catalog ids of the first `n` entries. */
  ghost predicate Noted(doc: seq<SkillEntry>, n: nat, names: set<string>, ids: set<string>)
    requires n <= |doc|
  {
    && (forall name :: name in names <==> exists k | 0 <= k < n :: doc[k].name == name)
    && (forall id :: id in ids <==> exists k | 0 <= k < n :: doc[k].source == CATALOG && doc[k].id == id)
  }

  lemma ClashFound(doc: seq<SkillEntry>, n: nat, names: set<string>, ids: set<string>)
    requires n < |doc| && Noted(doc, n, names, ids)
    requires doc[n].name in names || (doc[n].source == CATALOG && doc[n].id in ids)
    ensures !EntriesFit(doc)
  {
  }

  lemma NoClash(doc: seq<SkillEntry>, n: nat, names: set<string>, ids: set<string>)
    requires n < |doc| && Noted(doc, n, names, ids)
    requires doc[n].name !in names && (doc[n].source == CATALOG ==> doc[n].id !in ids)
    ensures forall k | 0 <= k < n :: !Clash(doc[k], doc[n])
    ensures Noted(doc, n + 1, names + {doc[n].name}, if doc[n].source == CATALOG then ids + {doc[n].id} else ids)
  {
  }

  /** `parseSkillsJSON`: it accepts exactly the lists that fit. */
  method ParseSkills(file: File<seq<SkillEntry>>) returns (entries: Option<seq<SkillEntry>>)
    ensures entries == Read(file)
  {
    if !file.Holds? {
      return None;
    }
    var doc := file.doc;
    var names: set<string>, ids: set<string> := {}, {};
    for i := 0 to |doc|
      invariant FitUpTo(doc, i) && Noted(doc, i, names, ids)
    {
      var e := doc[i];
      if !EntryFits(e) {
        return None;
      }
      if e.name in names || (e.source == CATALOG && e.id in ids) {
        ClashFound(doc, i, names, ids);
        return None;
      }
      NoClash(doc, i, names, ids);
      names := names + {e.name};
      if e.source == CATALOG {
        ids := ids + {e.id};
      }
    }
    entries := Some(doc);
  }

  /** The catalog skill ids, in the order of the file. */
  function CatalogIds(entries: seq<SkillEntry>): seq<string> {
    if entries == [] then [] else
      CatalogIds(entries[..|entries| - 1]) +
      if entries[|entries| - 1].source == CATALOG then [entries[|entries| - 1].id] else []
  }

  /** The names of the bundle's own skills that the file lists. */
  function BundleNames(entries: seq<SkillEntry>): seq<string> {
    if entries == [] then [] else
      BundleNames(entries[..|entries| - 1]) +
      if entries[|entries| - 1].source == CATALOG then [] else [entries[|entries| - 1].name]
  }

  lemma {:induction false} CatalogIdsFacts(entries: seq<SkillEntry>)
    ensures forall id :: id in CatalogIds(entries) <==> exists k | 0 <= k < |entries| ::
        entries[k].source == CATALOG && entries[k].id == id
    ensures EntriesFit(entries) ==> Distinct(CatalogIds(entries))
  {
    if entries != [] {
      var front, last := entries[..|entries| - 1], entries[|entries| - 1];
      CatalogIdsFacts(front);
      assert forall k | 0 <= k < |front| :: front[k] == entries[k];
      if EntriesFit(entries) {
        assert forall k | 0 <= k < |front| :: !Clash(entries[k], last);
        assert EntriesFit(front);
        if last.source == CATALOG {
          DistinctAppend(CatalogIds(front), last.id);
        }
      }
    }
  }

  lemma {:induction false} BundleNamesFacts(entries: seq<SkillEntry>)
    ensures forall name :: name in BundleNames(entries) <==> exists k | 0 <= k < |entries| ::
        entries[k].source != CATALOG && entries[k].name == name
    ensures EntriesFit(entries) ==> Distinct(BundleNames(entries))
  {
    if entries != [] {
      var front, last := entries[..|entries| - 1], entries[|entries| - 1];
      BundleNamesFacts(front);
      assert forall k | 0 <= k < |front| :: front[k] == entries[k];
      if EntriesFit(entries) {
        assert forall k | 0 <= k < |front| :: !Clash(entries[k], last);
        assert EntriesFit(front);
        if last.source != CATALOG {
          DistinctAppend(BundleNames(front), last.name);
        }
      }
    }
  }

  // ---- rendering ----

  /** What stays of the previous entries: bundle skills that are there, and catalog skills the form still has. */
  function Kept(prev: seq<SkillEntry>, dirs: set<string>, wanted: set<string>,
                names: map<string, string>): seq<SkillEntry> {
    if prev == [] then [] else
      var e := prev[|prev| - 1];
      Kept(prev[..|prev| - 1], dirs, wanted, names) +
      if e.source == BUNDLE && e.name in dirs then [e]
      else if e.source == CATALOG && e.id in wanted then [SkillEntry(OrDefault(At(names, e.id), e.name), CATALOG, e.id)]
      else []
  }

  /** Entries for the form's skills that the previous file did not have. */
  function Added(ids: seq<string>, have: set<string>, names: map<string, string>): seq<SkillEntry> {
    if ids == [] then [] else
      var id := ids[|ids| - 1];
      Added(ids[..|ids| - 1], have, names) +
      if id in have then [] else [SkillEntry(OrDefault(At(names, id), id), CATALOG, id)]
  }

  function AsSet(items: seq<string>): set<string> {
    set x | x in items
  }

  /** The entries of the rendered file. */
  function Rendered(prev: seq<SkillEntry>, dirs: set<string>, ids: seq<string>,
                    names: map<string, string>): seq<SkillEntry> {
    var kept := Kept(prev, dirs, AsSet(ids), names);
    kept + Added(ids, AsSet(CatalogIds(kept)), names)
  }

  /** What a file that cannot be read leaves: nothing. */
  function Previous(file: File<seq<SkillEntry>>): seq<SkillEntry> {
    var prev := Read(file);
    if prev.Some? then prev.value else []
  }

  lemma KeptMore(prev: seq<SkillEntry>, i: nat, dirs: set<string>, wanted: set<string>, names: map<string, string>)
    requires i < |prev|
    ensures Kept(prev[..i + 1], dirs, wanted, names) == Kept(prev[..i], dirs, wanted, names) +
              if prev[i].source == BUNDLE && prev[i].name in dirs then [prev[i]]
              else if prev[i].source == CATALOG && prev[i].id in wanted
              then [SkillEntry(OrDefault(At(names, prev[i].id), prev[i].name), CATALOG, prev[i].id)]
              else []
  {
    assert prev[..i + 1][..i] == prev[..i];
  }

  lemma CatalogIdsMore(entries: seq<SkillEntry>, e: SkillEntry)
    ensures AsSet(CatalogIds(entries + [e])) ==
            AsSet(CatalogIds(entries)) + if e.source == CATALOG then {e.id} else {}
  {
    assert (entries + [e])[..|entries|] == entries;
  }

  method KeepSkills(prev: seq<SkillEntry>, dirs: set<string>, wanted: set<string>, names: map<string, string>)
    returns (entries: seq<SkillEntry>, have: set<string>)
    ensures entries == Kept(prev, dirs, wanted, names) && have == AsSet(CatalogIds(entries))
  {
    entries, have := [], {};
    for i := 0 to |prev|
      invariant entries == Kept(prev[..i], dirs, wanted, names) && have == AsSet(CatalogIds(entries))
    {
      var e := prev[i];
      KeptMore(prev, i, dirs, wanted, names);
      CatalogIdsMore(entries, e);
      CatalogIdsMore(entries, SkillEntry(OrDefault(At(names, e.id), e.name), CATALOG, e.id));
      if e.source == BUNDLE && e.name in dirs {
        entries := entries + [e];
      } else if e.source == CATALOG && e.id in wanted {
        have := have + {e.id};
        entries := entries + [SkillEntry(OrDefault(At(names, e.id), e.name), CATALOG, e.id)];
      }
    }
    assert prev[..|prev|] == prev;
  }

  method AddSkills(ids: seq<string>, have: set<string>, names: map<string, string>) returns (entries: seq<SkillEntry>)
    ensures entries == Added(ids, have, names)
  {
    entries := [];
    for i := 0 to |ids|
      invariant entries == Added(ids[..i], have, names)
    {
      assert ids[..i + 1][..i] == ids[..i];
      if ids[i] !in have {
        entries := entries + [SkillEntry(OrDefault(At(names, ids[i]), ids[i]), CATALOG, ids[i])];
      }
    }
    assert ids[..|ids|] == ids;
  }

  method Collect(ids: seq<string>) returns (wanted: set<string>)
    ensures wanted == AsSet(ids)
  {
    wanted := {};
    for i := 0 to |ids|
      invariant wanted == AsSet(ids[..i])
    {
      wanted := wanted + {ids[i]};
      assert ids[..i + 1] == ids[..i] + [ids[i]];
    }
    assert ids[..|ids|] == ids;
  }

  /** The part of `renderBundle` that writes skills.json. */
  method RenderSkills(file: File<seq<SkillEntry>>, dirs: set<string>, ids: seq<string>, names: map<string, string>)
    returns (entries: seq<SkillEntry>)
    ensures entries == Rendered(Previous(file), dirs, ids, names)
  {
    var wanted := Collect(ids);
    var read := ParseSkills(file);
    var kept, have := KeepSkills(if read.Some? then read.value else [], dirs, wanted, names);
    var added := AddSkills(ids, have, names);
    entries := kept + added;
  }

  // ---- what rendering gives ----

  /** The entry is one that a second rendering leaves as it is. */
  predicate Settled(e: SkillEntry, dirs: set<string>, wanted: set<string>, names: map<string, string>) {
    || (e.source == BUNDLE && e.name in dirs)
    || (e.source == CATALOG && e.id in wanted && e.name == OrDefault(At(names, e.id), e.name))
  }

  lemma {:induction false} KeptFacts(prev: seq<SkillEntry>, dirs: set<string>, wanted: set<string>,
                                     names: map<string, string>)
    ensures forall e | e in Kept(prev, dirs, wanted, names) :: Settled(e, dirs, wanted, names)
    ensures (forall e | e in prev :: Settled(e, dirs, wanted, names)) ==> Kept(prev, dirs, wanted, names) == prev
  {
    if prev != [] {
      var front, last := prev[..|prev| - 1], prev[|prev| - 1];
      assert prev == front + [last] && last in prev;
      KeptFacts(front, dirs, wanted, names);
    }
  }

  lemma {:induction false} AddedFacts(ids: seq<string>, have: set<string>, names: map<string, string>)
    ensures forall e | e in Added(ids, have, names) ::
        e.source == CATALOG && e.id in ids && e.name == OrDefault(At(names, e.id), e.name)
    ensures forall id | id in ids && id !in have :: exists e ::
        e in Added(ids, have, names) && e.source == CATALOG && e.id == id
    ensures AsSet(ids) <= have ==> Added(ids, have, names) == []
  {
    if ids != [] {
      var front, last := ids[..|ids| - 1], ids[|ids| - 1];
      assert ids == front + [last];
      AddedFacts(front, have, names);
      assert AsSet(front) <= AsSet(ids) && last in AsSet(ids);
      if last !in have {
        assert SkillEntry(OrDefault(At(names, last), last), CATALOG, last) in Added(ids, have, names);
      }
    }
  }

  /** Only bundle skills that are there and skills of the form are rendered, and every skill of the form is. */
  lemma RenderedFacts(prev: seq<SkillEntry>, dirs: set<string>, ids: seq<string>, names: map<string, string>)
    ensures forall e | e in Rendered(prev, dirs, ids, names) :: Settled(e, dirs, AsSet(ids), names)
    ensures AsSet(CatalogIds(Rendered(prev, dirs, ids, names))) == AsSet(ids)
  {
    var kept := Kept(prev, dirs, AsSet(ids), names);
    var have := AsSet(CatalogIds(kept));
    var added := Added(ids, have, names);
    var all := kept + added;
    KeptFacts(prev, dirs, AsSet(ids), names);
    AddedFacts(ids, have, names);
    CatalogIdsFacts(kept);
    CatalogIdsFacts(all);
    forall id ensures id in CatalogIds(all) <==> id in ids {
      if id in CatalogIds(all) {
        var k :| 0 <= k < |all| && all[k].source == CATALOG && all[k].id == id;
        assert Settled(all[k], dirs, AsSet(ids), names);
      }
      if id in ids {
        if id in have {
          var k :| 0 <= k < |kept| && kept[k].source == CATALOG && kept[k].id == id;
          assert all[k] == kept[k];
        } else {
          var e :| e in added && e.source == CATALOG && e.id == id;
          assert e in all;
        }
      }
    }
  }

  /** A rendered list that can be read back is rendered again as it is. */
  lemma RenderingSettles(prev: seq<SkillEntry>, dirs: set<string>, ids: seq<string>, names: map<string, string>)
    ensures var all := Rendered(prev, dirs, ids, names); Rendered(all, dirs, ids, names) == all
  {
    var all := Rendered(prev, dirs, ids, names);
    RenderedFacts(prev, dirs, ids, names);
    KeptFacts(all, dirs, AsSet(ids), names);
    AddedFacts(ids, AsSet(CatalogIds(all)), names);
    assert Kept(all, dirs, AsSet(ids), names) == all;
  }

  // ---- when a rendered list can be read back, on what the caller has ----

  /** The name the previous file had for a catalog skill; empty when it had none. */
  function PreviousName(prev: seq<SkillEntry>, id: string): string {
    if prev == [] then ""
    else if prev[|prev| - 1].source == CATALOG && prev[|prev| - 1].id == id then prev[|prev| - 1].name
    else PreviousName(prev[..|prev| - 1], id)
  }

  /** The name a catalog skill of the form gets: the catalog's, else the previous file's, else its id. */
  function Resolved(prev: seq<SkillEntry>, names: map<string, string>, id: string): string {
    OrDefault(At(names, id), OrDefault(PreviousName(prev, id), id))
  }

  /** A bundle entry of the previous file whose directory is there. */
  predicate IsThere(e: SkillEntry, dirs: set<string>) {
    e.source == BUNDLE && e.name in dirs
  }

  /** The names of the form's skills are not blank, differ, and none is that of a bundle entry that is there. */
  predicate NamesFit(prev: seq<SkillEntry>, dirs: set<string>, ids: seq<string>, names: map<string, string>) {
    && (forall id | id in ids :: id != "" && Trim(Resolved(prev, names, id)) != "")
    && (forall i, j | 0 <= i < j < |ids| :: Resolved(prev, names, ids[i]) != Resolved(prev, names, ids[j]))
    && (forall e, id | e in prev && IsThere(e, dirs) && id in ids :: Resolved(prev, names, id) != e.name)
  }

  lemma {:induction false} PreviousNameFacts(prev: seq<SkillEntry>, id: string)
    requires EntriesFit(prev)
    ensures forall e | e in prev && e.source == CATALOG && e.id == id :: e.name == PreviousName(prev, id)
    ensures (forall e | e in prev && e.source == CATALOG :: e.id != id) ==> PreviousName(prev, id) == ""
  {
    if prev != [] {
      var front, last := prev[..|prev| - 1], prev[|prev| - 1];
      assert prev == front + [last];
      FrontFits(prev);
      PreviousNameFacts(front, id);
      assert NoneClashes(front, last);
    }
  }

  predicate NoneClashes(entries: seq<SkillEntry>, last: SkillEntry) {
    forall e | e in entries :: !Clash(e, last)
  }

  lemma FrontFits(prev: seq<SkillEntry>)
    requires EntriesFit(prev) && prev != []
    ensures EntriesFit(prev[..|prev| - 1]) && NoneClashes(prev[..|prev| - 1], prev[|prev| - 1])
  {
    var front := prev[..|prev| - 1];
    assert forall k | 0 <= k < |front| :: front[k] == prev[k];
    forall e | e in front ensures !Clash(e, prev[|prev| - 1]) {
      var k :| 0 <= k < |front| && front[k] == e;
      assert !Clash(prev[k], prev[|prev| - 1]);
    }
  }

  /** Two catalog entries differ in their ids, two others in their names. */
  predicate Apart(a: SkillEntry, b: SkillEntry) {
    if a.source == CATALOG then b.source == CATALOG ==> a.id != b.id else b.source != CATALOG ==> a.name != b.name
  }

  predicate AllApart(entries: seq<SkillEntry>) {
    forall i, j | 0 <= i < j < |entries| :: Apart(entries[i], entries[j])
  }

  /** Where a kept entry comes from. */
  predicate KeptFrom(e: SkillEntry, p: SkillEntry, dirs: set<string>, wanted: set<string>, names: map<string, string>) {
    if e.source != CATALOG then e == p && IsThere(e, dirs)
    else p.source == CATALOG && p.id == e.id && e.id in wanted && e.name == OrDefault(At(names, e.id), p.name)
  }

  lemma {:induction false} KeptOrigins(prev: seq<SkillEntry>, dirs: set<string>, wanted: set<string>,
                                       names: map<string, string>)
    requires EntriesFit(prev)
    ensures forall e | e in Kept(prev, dirs, wanted, names) :: exists p | p in prev ::
        KeptFrom(e, p, dirs, wanted, names)
    ensures AllApart(Kept(prev, dirs, wanted, names))
    ensures forall p | p in prev && IsThere(p, dirs) :: p in Kept(prev, dirs, wanted, names)
  {
    if prev != [] {
      var front, last := prev[..|prev| - 1], prev[|prev| - 1];
      assert prev == front + [last] && last in prev;
      FrontFits(prev);
      KeptOrigins(front, dirs, wanted, names);
      var before, all := Kept(front, dirs, wanted, names), Kept(prev, dirs, wanted, names);
      forall e | e in before ensures exists p | p in prev :: KeptFrom(e, p, dirs, wanted, names) {
        var p :| p in front && KeptFrom(e, p, dirs, wanted, names);
        assert p in prev;
      }
      if |all| > |before| {
        assert KeptFrom(all[|before|], last, dirs, wanted, names);
        forall i | 0 <= i < |before| ensures Apart(before[i], all[|before|]) {
          assert before[i] in before;
          var p :| p in front && KeptFrom(before[i], p, dirs, wanted, names);
          assert !Clash(p, last);
        }
      }
    }
  }

  lemma {:induction false} AddedOrigins(ids: seq<string>, have: set<string>, names: map<string, string>)
    requires Distinct(ids)
    ensures forall e | e in Added(ids, have, names) ::
              e.source == CATALOG && e.id in ids && e.id !in have && e.name == OrDefault(At(names, e.id), e.id)
    ensures AllApart(Added(ids, have, names))
  {
    if ids != [] {
      var front, last := ids[..|ids| - 1], ids[|ids| - 1];
      assert ids == front + [last] && last !in front;
      AddedOrigins(front, have, names);
      var before := Added(front, have, names);
      assert forall i | 0 <= i < |before| :: before[i] in before;
    }
  }

  lemma KeptIds(prev: seq<SkillEntry>, dirs: set<string>, wanted: set<string>, names: map<string, string>, id: string)
    requires EntriesFit(prev) && id in wanted && id !in CatalogIds(Kept(prev, dirs, wanted, names))
    ensures PreviousName(prev, id) == ""
  {
    PreviousNameFacts(prev, id);
    CatalogIdsFacts(Kept(prev, dirs, wanted, names));
    forall p | p in prev && p.source == CATALOG ensures p.id != id {
      if p.id in wanted {
        KeptCatalog(prev, dirs, wanted, names, p);
      }
    }
  }

  lemma {:induction false} KeptCatalog(prev: seq<SkillEntry>, dirs: set<string>, wanted: set<string>,
                                       names: map<string, string>, p: SkillEntry)
    requires p in prev && p.source == CATALOG && p.id in wanted
    ensures exists e :: e in Kept(prev, dirs, wanted, names) && e.source == CATALOG && e.id == p.id
  {
    var front, last := prev[..|prev| - 1], prev[|prev| - 1];
    assert prev == front + [last];
    if p == last {
      assert SkillEntry(OrDefault(At(names, p.id), p.name), CATALOG, p.id) in Kept(prev, dirs, wanted, names);
    } else {
      KeptCatalog(front, dirs, wanted, names, p);
      var e :| e in Kept(front, dirs, wanted, names) && e.source == CATALOG && e.id == p.id;
      assert e in Kept(prev, dirs, wanted, names);
    }
  }

  /**
   * Every rendered entry is a bundle entry that is there, or a skill of the form under its resolved name; no two
   * collide in kind.
   */
  lemma RenderedOrigins(prev: seq<SkillEntry>, dirs: set<string>, ids: seq<string>, names: map<string, string>)
    requires EntriesFit(prev) && Distinct(ids)
    ensures var all := Rendered(prev, dirs, ids, names);
      && AllApart(all)
      && (forall e | e in all ::
            if e.source == CATALOG then e.id in ids && e.name == Resolved(prev, names, e.id)
                else e in prev && IsThere(e, dirs))
      && (forall p | p in prev && IsThere(p, dirs) :: p in all)
  {
    var kept := Kept(prev, dirs, AsSet(ids), names);
    var have := AsSet(CatalogIds(kept));
    var added := Added(ids, have, names);
    KeptOrigins(prev, dirs, AsSet(ids), names);
    AddedOrigins(ids, have, names);
    CatalogIdsFacts(kept);
    forall e | e in kept
      ensures if e.source == CATALOG then e.id in ids && e.name == Resolved(prev, names, e.id)
          else e in prev && IsThere(e, dirs)
    {
      var p :| p in prev && KeptFrom(e, p, dirs, AsSet(ids), names);
      PreviousNameFacts(prev, e.id);
      NamedEntry(prev, p);
    }
    forall e | e in added ensures e.name == Resolved(prev, names, e.id) {
      KeptIds(prev, dirs, AsSet(ids), names, e.id);
    }
    forall i, j | 0 <= i < |kept| && 0 <= j < |added| ensures Apart(kept[i], added[j]) {
      assert added[j] in added;
    }
  }

  lemma NamedEntry(prev: seq<SkillEntry>, p: SkillEntry)
    requires EntriesFit(prev) && p in prev
    ensures p.name != "" && EntryFits(p)
  {
    var k :| 0 <= k < |prev| && prev[k] == p;
    assert EntryFits(prev[k]);
    assert Trim("") == "";
  }

  /** The entry of a skill of the form. */
  lemma FormEntry(prev: seq<SkillEntry>, dirs: set<string>, ids: seq<string>, names: map<string, string>, id: string)
      returns (k: nat)
    requires EntriesFit(prev) && Distinct(ids) && id in ids
    ensures var all := Rendered(prev, dirs, ids, names);
      k < |all| && all[k] == SkillEntry(Resolved(prev, names, id), CATALOG, id)
  {
    var all := Rendered(prev, dirs, ids, names);
    RenderedFacts(prev, dirs, ids, names);
    RenderedOrigins(prev, dirs, ids, names);
    CatalogIdsFacts(all);
    assert id in AsSet(CatalogIds(all));
    k :| 0 <= k < |all| && all[k].source == CATALOG && all[k].id == id;
    assert all[k] in all;
  }

  /** Fitting names make a rendered list readable. */
  lemma FittingNamesFit(prev: seq<SkillEntry>, dirs: set<string>, ids: seq<string>, names: map<string, string>)
    requires EntriesFit(prev) && Distinct(ids) && NamesFit(prev, dirs, ids, names)
    ensures EntriesFit(Rendered(prev, dirs, ids, names))
  {
    var all := Rendered(prev, dirs, ids, names);
    RenderedOrigins(prev, dirs, ids, names);
    forall i | 0 <= i < |all| ensures EntryFits(all[i]) {
      assert all[i] in all;
      if all[i].source != CATALOG {
        NamedEntry(prev, all[i]);
      }
    }
    forall i, j | 0 <= i < j < |all| ensures !Clash(all[i], all[j]) {
      assert all[i] in all && all[j] in all && Apart(all[i], all[j]);
      if all[i].source == CATALOG && all[j].source == CATALOG {
        var m :| 0 <= m < |ids| && ids[m] == all[i].id;
        var n :| 0 <= n < |ids| && ids[n] == all[j].id;
        assert m != n;
      }
    }
  }

  /** A readable rendered list has fitting names. */
  lemma ReadableNamesFit(prev: seq<SkillEntry>, dirs: set<string>, ids: seq<string>, names: map<string, string>)
    requires EntriesFit(prev) && Distinct(ids) && EntriesFit(Rendered(prev, dirs, ids, names))
    ensures NamesFit(prev, dirs, ids, names)
  {
    var all := Rendered(prev, dirs, ids, names);
    forall id | id in ids ensures id != "" && Trim(Resolved(prev, names, id)) != "" {
      var k := FormEntry(prev, dirs, ids, names, id);
      assert EntryFits(all[k]);
    }
    forall i, j | 0 <= i < j < |ids| ensures Resolved(prev, names, ids[i]) != Resolved(prev, names, ids[j]) {
      FormNamesDiffer(prev, dirs, ids, names, i, j);
    }
    forall e, id | e in prev && IsThere(e, dirs) && id in ids ensures Resolved(prev, names, id) != e.name {
      BundleNameIsFree(prev, dirs, ids, names, e, id);
    }
  }

  lemma FormNamesDiffer(prev: seq<SkillEntry>, dirs: set<string>, ids: seq<string>, names: map<string, string>, i: nat,
                        j: nat)
    requires EntriesFit(prev) && Distinct(ids) && EntriesFit(Rendered(prev, dirs, ids, names)) && i < j < |ids|
    ensures Resolved(prev, names, ids[i]) != Resolved(prev, names, ids[j])
  {
    var k := FormEntry(prev, dirs, ids, names, ids[i]);
    var m := FormEntry(prev, dirs, ids, names, ids[j]);
    NoClashAt(Rendered(prev, dirs, ids, names), k, m);
  }

  lemma BundleNameIsFree(prev: seq<SkillEntry>, dirs: set<string>, ids: seq<string>, names: map<string, string>,
                         e: SkillEntry, id: string)
    requires EntriesFit(prev) && Distinct(ids) && EntriesFit(Rendered(prev, dirs, ids, names))
    requires e in prev && IsThere(e, dirs) && id in ids
    ensures Resolved(prev, names, id) != e.name
  {
    var all := Rendered(prev, dirs, ids, names);
    RenderedOrigins(prev, dirs, ids, names);
    var k: nat :| k < |all| && all[k] == e;
    var m := FormEntry(prev, dirs, ids, names, id);
    NoClashAt(all, k, m);
  }

  lemma NoClashAt(entries: seq<SkillEntry>, k: nat, m: nat)
    requires EntriesFit(entries) && k < |entries| && m < |entries| && k != m
    ensures entries[k].name != entries[m].name
  {
    assert k < m ==> !Clash(entries[k], entries[m]);
    assert m < k ==> !Clash(entries[m], entries[k]);
  }

  /** A rendered list can be read back if and only if the names of the form's skills fit. */
  lemma ReadableExactly(prev: seq<SkillEntry>, dirs: set<string>, ids: seq<string>, names: map<string, string>)
    requires EntriesFit(prev) && Distinct(ids)
    ensures EntriesFit(Rendered(prev, dirs, ids, names)) <==> NamesFit(prev, dirs, ids, names)
  {
    if NamesFit(prev, dirs, ids, names) {
      FittingNamesFit(prev, dirs, ids, names);
    } else if EntriesFit(Rendered(prev, dirs, ids, names)) {
      ReadableNamesFit(prev, dirs, ids, names);
    }
  }

  // ---- when the previous file leaves no trace ----

  /** The previous file's catalog ids that the form still has. */
  function StillWanted(prev: seq<SkillEntry>, wanted: set<string>): seq<string> {
    if prev == [] then [] else
      StillWanted(prev[..|prev| - 1], wanted) +
      if prev[|prev| - 1].source == CATALOG && prev[|prev| - 1].id in wanted then [prev[|prev| - 1].id] else []
  }

  /**
   * The form's skills would be listed as they are without the previous file: same order, same names, and no bundle
   * entry.
   */
  predicate NoTrace(prev: seq<SkillEntry>, dirs: set<string>, ids: seq<string>, names: map<string, string>) {
    && (forall e | e in prev :: !IsThere(e, dirs))
    && StillWanted(prev, AsSet(ids)) <= ids
    && (forall id | id in StillWanted(prev, AsSet(ids)) :: Resolved(prev, names, id) == OrDefault(At(names, id), id))
  }

  function Entry(names: map<string, string>, id: string): SkillEntry {
    SkillEntry(OrDefault(At(names, id), id), CATALOG, id)
  }

  lemma {:induction false} AddedAfter(first: seq<string>, rest: seq<string>, names: map<string, string>)
    requires Distinct(first + rest)
    ensures Added(first + rest, {}, names) == Added(first, {}, names) + Added(first + rest, AsSet(first), names)
  {
    if rest == [] {
      assert first + rest == first;
      AddedFacts(first, AsSet(first), names);
    } else {
      var front, last := rest[..|rest| - 1], rest[|rest| - 1];
      var all := first + rest;
      assert all == (first + front) + [last] && all[..|all| - 1] == first + front;
      assert last !in first by {
        assert forall i | 0 <= i < |first| :: all[i] == first[i];
      }
      AddedAfter(first, front, names);
    }
  }

  lemma {:induction false} AddedToNothing(ids: seq<string>, names: map<string, string>)
    ensures |Added(ids, {}, names)| == |ids| && CatalogIds(Added(ids, {}, names)) == ids
    ensures forall i | 0 <= i < |ids| :: Added(ids, {}, names)[i] == Entry(names, ids[i])
  {
    if ids != [] {
      var front, last := ids[..|ids| - 1], ids[|ids| - 1];
      assert ids == front + [last];
      AddedToNothing(front, names);
      assert (Added(front, {}, names) + [Entry(names, last)])[..|front|] == Added(front, {}, names);
    }
  }

  lemma {:induction false} CatalogIdsJoin(a: seq<SkillEntry>, b: seq<SkillEntry>)
    ensures CatalogIds(a + b) == CatalogIds(a) + CatalogIds(b)
  {
    if b == [] {
      assert a + b == a;
    } else {
      CatalogIdsJoin(a, b[..|b| - 1]);
      assert (a + b)[..|a + b| - 1] == a + b[..|b| - 1];
    }
  }

  lemma {:induction false} KeptIdsAreStillWanted(prev: seq<SkillEntry>, dirs: set<string>, wanted: set<string>,
                                                 names: map<string, string>)
    ensures CatalogIds(Kept(prev, dirs, wanted, names)) == StillWanted(prev, wanted)
  {
    if prev != [] {
      var front, last := prev[..|prev| - 1], prev[|prev| - 1];
      KeptIdsAreStillWanted(front, dirs, wanted, names);
      CatalogIdsJoin(Kept(front, dirs, wanted, names),
          Kept(prev, dirs, wanted, names)[|Kept(front, dirs, wanted, names)|..]);
      assert Kept(prev, dirs, wanted, names) ==
             Kept(front, dirs, wanted, names) + Kept(prev, dirs, wanted, names)[|Kept(front, dirs, wanted, names)|..];
    }
  }

  lemma {:induction false} AllCatalog(entries: seq<SkillEntry>)
    requires forall e | e in entries :: e.source == CATALOG
    ensures |CatalogIds(entries)| == |entries|
    ensures forall i | 0 <= i < |entries| :: entries[i].id == CatalogIds(entries)[i]
  {
    if entries != [] {
      var front := entries[..|entries| - 1];
      assert entries == front + [entries[|entries| - 1]] && entries[|entries| - 1] in entries;
      assert forall e | e in front :: e in entries;
      AllCatalog(front);
    }
  }

  lemma KeptWithoutTrace(prev: seq<SkillEntry>, dirs: set<string>, ids: seq<string>, names: map<string, string>)
    requires EntriesFit(prev) && Distinct(ids) && NoTrace(prev, dirs, ids, names)
    ensures Kept(prev, dirs, AsSet(ids), names) == Added(StillWanted(prev, AsSet(ids)), {}, names)
  {
    var first := StillWanted(prev, AsSet(ids));
    var kept := Kept(prev, dirs, AsSet(ids), names);
    KeptIdsAreStillWanted(prev, dirs, AsSet(ids), names);
    RenderedOrigins(prev, dirs, ids, names);
    forall e | e in kept ensures e.source == CATALOG && e.name == Resolved(prev, names, e.id) {
      assert e in Rendered(prev, dirs, ids, names);
    }
    AllCatalog(kept);
    AddedToNothing(first, names);
    forall i | 0 <= i < |kept| ensures kept[i] == Entry(names, first[i]) {
      assert kept[i] in kept && first[i] in first;
    }
  }

  lemma NoTraceIsEnough(prev: seq<SkillEntry>, dirs: set<string>, ids: seq<string>, names: map<string, string>)
    requires EntriesFit(prev) && Distinct(ids) && NoTrace(prev, dirs, ids, names)
    ensures Rendered(prev, dirs, ids, names) == Rendered([], dirs, ids, names)
  {
    var first := StillWanted(prev, AsSet(ids));
    KeptWithoutTrace(prev, dirs, ids, names);
    KeptIdsAreStillWanted(prev, dirs, AsSet(ids), names);
    assert ids == first + ids[|first|..];
    AddedAfter(first, ids[|first|..], names);
    assert Kept([], dirs, AsSet(ids), names) == [] && AsSet(CatalogIds([])) == {};
  }

  lemma NoTraceIsNeeded(prev: seq<SkillEntry>, dirs: set<string>, ids: seq<string>, names: map<string, string>)
    requires EntriesFit(prev) && Distinct(ids) && Rendered(prev, dirs, ids, names) == Rendered([], dirs, ids, names)
    ensures NoTrace(prev, dirs, ids, names)
  {
    var all := Rendered(prev, dirs, ids, names);
    var kept := Kept(prev, dirs, AsSet(ids), names);
    var first := StillWanted(prev, AsSet(ids));
    assert Kept([], dirs, AsSet(ids), names) == [] && AsSet(CatalogIds([])) == {};
    assert all == Added(ids, {}, names);
    AddedToNothing(ids, names);
    AddedOrigins(ids, {}, names);
    RenderedOrigins(prev, dirs, ids, names);
    forall e | e in prev ensures !IsThere(e, dirs) {
      assert IsThere(e, dirs) ==> e in all;
    }
    KeptIdsAreStillWanted(prev, dirs, AsSet(ids), names);
    CatalogIdsJoin(kept, Added(ids, AsSet(CatalogIds(kept)), names));
    assert first <= ids;
    forall id | id in first ensures Resolved(prev, names, id) == OrDefault(At(names, id), id) {
      var k := FormEntry(prev, dirs, ids, names, id);
      assert all[k] == Entry(names, ids[k]);
    }
  }

  /** A rendered list is what would be rendered over no previous file if and only if that file leaves no trace in it. */
  lemma AsNewExactly(prev: seq<SkillEntry>, dirs: set<string>, ids: seq<string>, names: map<string, string>)
    requires EntriesFit(prev) && Distinct(ids)
    ensures Rendered(prev, dirs, ids, names) == Rendered([], dirs, ids, names) <==> NoTrace(prev, dirs, ids, names)
  {
    if NoTrace(prev, dirs, ids, names) {
      NoTraceIsEnough(prev, dirs, ids, names);
    } else if Rendered(prev, dirs, ids, names) == Rendered([], dirs, ids, names) {
      NoTraceIsNeeded(prev, dirs, ids, names);
    }
  }

  // ---- the rendered list, entry by entry ----

  /** The entry lists the catalog skill under the catalog's name, or under `other` when the catalog has none. */
  predicate ListsSkill(e: SkillEntry, id: string, names: map<string, string>, other: string) {
    && e.source == "catalog" && e.id == id
    && e.name == if id in names && names[id] != "" then names[id] else other
  }

  /** What stays of the previous list, in its order. */
  predicate Stays(kept: seq<SkillEntry>, prev: seq<SkillEntry>, dirs: set<string>, ids: seq<string>,
                  names: map<string, string>) {
    if prev == [] then kept == [] else
      var front, last := prev[..|prev| - 1], prev[|prev| - 1];
      if last.source == "bundle" && last.name in dirs then
        kept != [] && kept[|kept| - 1] == last && Stays(kept[..|kept| - 1], front, dirs, ids, names)
      else if last.source == "catalog" && last.id in ids then
        kept != [] && ListsSkill(kept[|kept| - 1], last.id, names, last.name)
        && Stays(kept[..|kept| - 1], front, dirs, ids, names)
      else Stays(kept, front, dirs, ids, names)
  }

  /** The skills of the form that are not listed yet, in the form's order. */
  predicate Comes(added: seq<SkillEntry>, ids: seq<string>, listed: seq<SkillEntry>, names: map<string, string>) {
    if ids == [] then added == [] else
      var front, last := ids[..|ids| - 1], ids[|ids| - 1];
      if exists k | 0 <= k < |listed| :: listed[k].source == "catalog" && listed[k].id == last
      then Comes(added, front, listed, names)
      else added != [] && ListsSkill(added[|added| - 1], last, names, last)
           && Comes(added[..|added| - 1], front, listed, names)
  }

  lemma {:induction false} KeptStays(prev: seq<SkillEntry>, dirs: set<string>, ids: seq<string>,
                                     names: map<string, string>)
    ensures Stays(Kept(prev, dirs, AsSet(ids), names), prev, dirs, ids, names)
  {
    if prev != [] {
      var front := prev[..|prev| - 1];
      KeptStays(front, dirs, ids, names);
      var kept := Kept(front, dirs, AsSet(ids), names);
      assert kept + [] == kept;
      assert forall e: SkillEntry :: (kept + [e])[..|kept|] == kept;
    }
  }

  lemma {:induction false} AddedComes(ids: seq<string>, listed: seq<SkillEntry>, names: map<string, string>)
    ensures Comes(Added(ids, AsSet(CatalogIds(listed)), names), ids, listed, names)
  {
    CatalogIdsFacts(listed);
    if ids != [] {
      var front := ids[..|ids| - 1];
      AddedComes(front, listed, names);
      var added := Added(front, AsSet(CatalogIds(listed)), names);
      assert added + [] == added;
      assert forall e: SkillEntry :: (added + [e])[..|added|] == added;
    }
  }

  /** The rendered list is what stays of the previous one, then what comes with the form. */
  lemma RenderedInOrder(prev: seq<SkillEntry>, dirs: set<string>, ids: seq<string>, names: map<string, string>)
    ensures exists kept, added :: Rendered(prev, dirs, ids, names) == kept + added
              && Stays(kept, prev, dirs, ids, names) && Comes(added, ids, kept, names)
  {
    var kept := Kept(prev, dirs, AsSet(ids), names);
    KeptStays(prev, dirs, ids, names);
    AddedComes(ids, kept, names);
    assert Rendered(prev, dirs, ids, names) == kept + Added(ids, AsSet(CatalogIds(kept)), names);
  }

  /** The file lists something that no reader accepts: an entry is incomplete, or lists what an earlier one lists. */
  predicate Defective(doc: seq<SkillEntry>, i: nat)
    requires i < |doc|
  {
    || Trim(doc[i].name) == "" || doc[i].source !in {"bundle", "catalog"}
        || (doc[i].source == "catalog" && doc[i].id == "")
    || exists k | 0 <= k < i ::
         doc[k].name == doc[i].name || (doc[k].source == "catalog" == doc[i].source && doc[k].id == doc[i].id)
  }

  lemma RefusedExactly(file: File<seq<SkillEntry>>)
    ensures Read(file).None? <==> !file.Holds? || exists i | 0 <= i < |file.doc| :: Defective(file.doc, i)
  {
    if file.Holds? {
      var doc := file.doc;
      if EntriesFit(doc) {
        assert forall i | 0 <= i < |doc| :: EntryFits(doc[i]);
        assert forall k, i | 0 <= k < i < |doc| :: !Clash(doc[k], doc[i]);
      } else if i :| 0 <= i < |doc| && !EntryFits(doc[i]) {
        assert Defective(doc, i);
      } else {
        var k, i :| 0 <= k < i < |doc| && Clash(doc[k], doc[i]);
        assert Defective(doc, i);
      }
    }
  }
}
