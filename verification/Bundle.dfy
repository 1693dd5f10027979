/**
 * The expert form and its bundle (internal/app/bundle.go): `renderBundle` writes the files of a form over those of an
 * earlier version, and `deriveBundle` reads them back for the worker.
 */
module Bundle {
  import opened Common
  import opened Strings
  import opened BundleFiles
  import Skills = BundleSkills
  import Mcp = BundleServers

  const SCHEMA := "orbit.agent/v1"

  datatype Form = Form(
    name: string, description: string, instructions: string, soul: string, model: string, skillIds: seq<string>,
    connectorIds: seq<string>)

  /** What a saved form is: texts are trimmed, there are instructions, and no skill or connector is listed twice. */
  predicate Validated(form: Form) {
    && Trimmed(form.description) && Trimmed(form.instructions) && Trimmed(form.soul) && form.instructions != ""
    && Distinct(form.skillIds) && Distinct(form.connectorIds)
  }

  /** The tenant's connectors by id. */
  predicate ById(connectors: Mcp.Connectors) {
    forall id | id in connectors :: id != "" && connectors[id].id == id
  }

  /** Why an entry of mcp.json is not loaded. */
  datatype Reason = StdioServer | NoConnector

  datatype Unbound = Unbound(name: string, reason: Reason)

  datatype Derived = Derived(
    instructions: string, soul: string, catalogSkills: seq<string>, bundleSkills: seq<string>,
        connectorIds: seq<string>,
    unbound: seq<Unbound>)

  datatype Problem =
    | BundleUnfit | AgentsRequired | AgentInvalid | SkillsInvalid | SkillMissing | ServersInvalid | LiteralSecret

  datatype Outcome = Read(d: Derived) | Refused(problem: Problem)

  // ---- deriving ----

  /** `checkAgentJSON`. */
  predicate AgentFits(file: File<map<string, Json>>) {
    match file
    case Garbled => false
    case Holds(fields) =>
      "schema" in fields && !fields["schema"].JNull? ==> fields["schema"].JString? && fields["schema"].s in {"", SCHEMA}
    case _ => true
  }

  function ReasonOf(server: Mcp.Server): Reason {
    if Mcp.Str(server.obj, "command") != "" then StdioServer else NoConnector
  }

  function Reasons(servers: seq<Mcp.Server>): seq<Unbound> {
    seq(|servers|, i requires 0 <= i < |servers| => Unbound(servers[i].name, ReasonOf(servers[i])))
  }

  function Except(names: seq<string>, listed: set<string>): seq<string> {
    if names == [] then [] else
      Except(names[..|names| - 1], listed) + if names[|names| - 1] in listed then [] else [names[|names| - 1]]
  }

  /** The skills that skills.json lists, then the directories it does not list. */
  function LoadOrder(entries: seq<SkillEntry>, dirs: seq<string>): seq<string> {
    Skills.BundleNames(entries) + Except(dirs, Skills.AsSet(Skills.BundleNames(entries)))
  }

  function EntriesOf(file: File<seq<SkillEntry>>): Option<seq<SkillEntry>> {
    if file.Absent? then Some([]) else Skills.Read(file)
  }

  function ServersOf(file: File<Servers>): Option<seq<Mcp.Server>> {
    if file.Absent? then Some([]) else Mcp.Read(file)
  }

  /**
   * `deriveBundle`. `fits` is the check of paths and sizes, `secret` the search for a literal credential; neither is
   * part of this model.
   */
  ghost function Derive(b: Bundle, fits: Bundle -> bool, secret: map<string, Json> -> bool): Outcome {
    if !fits(b) then Refused(BundleUnfit)
    else if Trim(TextOf(b.agents)) == "" then Refused(AgentsRequired)
    else if !AgentFits(b.agent) then Refused(AgentInvalid)
    else if EntriesOf(b.skills).None? then Refused(SkillsInvalid)
    else if exists name | name in Skills.BundleNames(EntriesOf(b.skills).value) :: name !in SkillsOf(b)
        then Refused(SkillMissing)
    else if ServersOf(b.servers).None? then Refused(ServersInvalid)
    else if exists server | server in ServersOf(b.servers).value :: secret(server.obj) then Refused(LiteralSecret)
    else
      var entries, servers := EntriesOf(b.skills).value, ServersOf(b.servers).value;
      Read(Derived(
        Trim(TextOf(b.agents)), Trim(TextOf(b.soul)), Skills.CatalogIds(entries), LoadOrder(entries, SkillsOf(b)),
        Mcp.BoundIds(servers), Reasons(Mcp.UnboundOf(servers))))
  }

  /** The part that reads skills.json; None when a listed bundle skill has no directory. */
  method DeriveSkills(entries: seq<SkillEntry>, names: seq<string>) returns (lists: Option<(seq<string>, seq<string>)>)
    ensures lists.None? <==> exists name | name in Skills.BundleNames(entries) :: name !in names
    ensures lists.Some? ==> lists.value == (Skills.CatalogIds(entries), LoadOrder(entries, names))
  {
    var catalog: seq<string>, load: seq<string>, listed: set<string> := [], [], {};
    for i := 0 to |entries|
      invariant catalog == Skills.CatalogIds(entries[..i]) && load == Skills.BundleNames(entries[..i])
      invariant listed == Skills.AsSet(load) && forall name | name in load :: name in names
    {
      assert entries[..i + 1][..i] == entries[..i];
      var e := entries[i];
      if e.source == Skills.CATALOG {
        catalog := catalog + [e.id];
      } else {
        if e.name !in names {
          Skills.BundleNamesFacts(entries);
          assert e.name in Skills.BundleNames(entries);
          return None;
        }
        listed := listed + {e.name};
        load := load + [e.name];
      }
    }
    assert entries[..|entries|] == entries;
    ghost var fromFile := load;
    for i := 0 to |names|
      invariant load == fromFile + Except(names[..i], listed)
    {
      assert names[..i + 1][..i] == names[..i];
      if names[i] !in listed {
        load := load + [names[i]];
      }
    }
    assert names[..|names|] == names;
    lists := Some((catalog, load));
  }

  /** `checkNoLiteralSecrets`. */
  method HasSecret(servers: seq<Mcp.Server>, secret: map<string, Json> -> bool) returns (found: bool)
    ensures found <==> exists server | server in servers :: secret(server.obj)
  {
    for i := 0 to |servers|
      invariant forall k | 0 <= k < i :: !secret(servers[k].obj)
    {
      if secret(servers[i].obj) {
        return true;
      }
    }
    found := false;
  }

  /** The part that reads mcp.json. */
  method DeriveServers(servers: seq<Mcp.Server>) returns (ids: seq<string>, unbound: seq<Unbound>)
    ensures ids == Mcp.BoundIds(servers) && unbound == Reasons(Mcp.UnboundOf(servers))
  {
    ids, unbound := [], [];
    for i := 0 to |servers|
      invariant ids == Mcp.BoundIds(servers[..i]) && unbound == Reasons(Mcp.UnboundOf(servers[..i]))
    {
      assert servers[..i + 1] == servers[..i] + [servers[i]];
      FilterLast(Mcp.IsBound, servers[..i], servers[i]);
      FilterLast(Mcp.IsUnbound, servers[..i], servers[i]);
      var id := Mcp.ConnectorId(servers[i]);
      if id != "" {
        ids := ids + [id];
      } else {
        unbound := unbound + [Unbound(servers[i].name, ReasonOf(servers[i]))];
      }
    }
    assert servers[..|servers|] == servers;
  }

  method DeriveBundle(b: Bundle, fits: Bundle -> bool, secret: map<string, Json> -> bool) returns (outcome: Outcome)
    ensures outcome == Derive(b, fits, secret)
  {
    if !fits(b) {
      return Refused(BundleUnfit);
    }
    var instructions := Trim(TextOf(b.agents));
    if instructions == "" {
      return Refused(AgentsRequired);
    }
    if !AgentFits(b.agent) {
      return Refused(AgentInvalid);
    }
    var names := BundleSkillNames(b);
    var entries := Some([]);
    if !b.skills.Absent? {
      entries := Skills.ParseSkills(b.skills);
    }
    if entries.None? {
      return Refused(SkillsInvalid);
    }
    var skills := DeriveSkills(entries.value, names);
    if skills.None? {
      return Refused(SkillMissing);
    }
    var servers := Some([]);
    if !b.servers.Absent? {
      servers := Mcp.ParseServers(b.servers);
    }
    if servers.None? {
      return Refused(ServersInvalid);
    }
    var found := HasSecret(servers.value, secret);
    if found {
      return Refused(LiteralSecret);
    }
    var ids, unbound := DeriveServers(servers.value);
    outcome := Read(Derived(instructions, Trim(TextOf(b.soul)), skills.value.0, skills.value.1, ids, unbound));
  }

  // ---- rendering ----

  /** `bundleDescription`. */
  function Description(file: File<map<string, Json>>): string {
    if file.Holds? && "description" in file.doc && file.doc["description"].JString?
        then Trim(file.doc["description"].s) else ""
  }

  function Agent(form: Form, base: File<map<string, Json>>): map<string, Json> {
    var description := OrDefault(form.description, Description(base));
    var agent := map["schema" := JString(SCHEMA), "name" := JString(form.name)];
    var described := if description == "" then agent else agent["description" := JString(description)];
    if form.model == "" then described else described["model" := JString(form.model)]
  }

  function SkillsFile(entries: seq<SkillEntry>): File<seq<SkillEntry>> {
    if entries == [] then Absent else Holds(entries)
  }

  function ServersFile(servers: seq<Mcp.Server>): File<Servers> {
    if servers == [] then Absent else Holds(Listed(Mcp.AsEntries(servers)))
  }

  ghost function Entries(form: Form, base: Bundle, names: map<string, string>): seq<SkillEntry> {
    Skills.Rendered(Skills.Previous(base.skills), Skills.AsSet(SkillsOf(base)), form.skillIds, names)
  }

  function McpEntries(form: Form, base: Bundle, connectors: Mcp.Connectors): seq<Mcp.Server> {
    Mcp.Rendered(Mcp.Previous(base.servers), form.connectorIds, connectors)
  }

  /** `renderBundle`: the files the form owns are replaced, all others stay. */
  ghost function Render(form: Form, base: Bundle, connectors: Mcp.Connectors, names: map<string, string>): Bundle {
    Bundle(
      Some(form.instructions), if form.soul == "" then None else Some(form.soul), Holds(Agent(form, base.agent)),
      SkillsFile(Entries(form, base, names)), ServersFile(McpEntries(form, base, connectors)), base.others)
  }

  method RenderAgent(form: Form, base: File<map<string, Json>>) returns (agent: map<string, Json>)
    ensures agent == Agent(form, base)
  {
    var description := form.description;
    if description == "" {
      description := Description(base);
    }
    agent := map["schema" := JString(SCHEMA), "name" := JString(form.name)];
    if description != "" {
      agent := agent["description" := JString(description)];
    }
    if form.model != "" {
      agent := agent["model" := JString(form.model)];
    }
  }

  method RenderBundle(form: Form, base: Bundle, connectors: Mcp.Connectors, names: map<string, string>)
      returns (out: Bundle)
    ensures out == Render(form, base, connectors, names)
  {
    out := base.(agents := Some(form.instructions));
    out := out.(soul := if form.soul != "" then Some(form.soul) else None);
    var agent := RenderAgent(form, base.agent);
    out := out.(agent := Holds(agent));
    var dirs := BundleSkillNames(out);
    var entries := Skills.RenderSkills(base.skills, Skills.AsSet(dirs), form.skillIds, names);
    out := out.(skills := SkillsFile(entries));
    var servers := Mcp.RenderServers(base.servers, form.connectorIds, connectors);
    out := out.(servers := ServersFile(servers));
  }

  // ---- the servers of a rendered bundle ----

  /** The last entry of the form's connectors. */
  function LastBound(ids: seq<string>, connectors: Mcp.Connectors, before: map<string, string>,
                     taken: set<string>): Mcp.Server
    requires ids != [] && ids[|ids| - 1] in connectors
  {
    var id := ids[|ids| - 1];
    var front := Mcp.Bound(ids[..|ids| - 1], connectors, before, taken);
    Mcp.Server(Mcp.Fresh(Mcp.Stem(id, connectors[id], before), taken + Mcp.Names(front)),
        Mcp.ConnectorFields(connectors[id]))
  }

  lemma LastBoundFacts(ids: seq<string>, connectors: Mcp.Connectors, before: map<string, string>, taken: set<string>)
    requires ById(connectors) && ids != [] && ids[|ids| - 1] in connectors
    ensures var last := LastBound(ids, connectors, before, taken);
      && Mcp.Bound(ids, connectors, before, taken) == Mcp.Bound(ids[..|ids| - 1], connectors, before, taken) + [last]
      && Mcp.ConnectorId(last) == ids[|ids| - 1] != ""
      && last.name !in taken + Mcp.Names(Mcp.Bound(ids[..|ids| - 1], connectors, before, taken))
  {
    var id := ids[|ids| - 1];
    var front := Mcp.Bound(ids[..|ids| - 1], connectors, before, taken);
    Mcp.FreshFacts(Mcp.Stem(id, connectors[id], before), taken + Mcp.Names(front));
    Mcp.ConnectorEntryFits(LastBound(ids, connectors, before, taken).name, connectors[id]);
  }

  predicate NamesDiffer(servers: seq<Mcp.Server>) {
    forall i, j | 0 <= i < j < |servers| :: servers[i].name != servers[j].name
  }

  /** The names of the form's entries are new: none is that of an unbound entry or of an earlier one. */
  lemma {:induction false} BoundNamesAreFresh(ids: seq<string>, connectors: Mcp.Connectors,
                                              before: map<string, string>, taken: set<string>)
    requires ById(connectors)
    ensures var bound := Mcp.Bound(ids, connectors, before, taken); NamesDiffer(bound) && Mcp.Names(bound) !! taken
  {
    if ids != [] {
      var front := Mcp.Bound(ids[..|ids| - 1], connectors, before, taken);
      BoundNamesAreFresh(ids[..|ids| - 1], connectors, before, taken);
      if ids[|ids| - 1] in connectors {
        LastBoundFacts(ids, connectors, before, taken);
        Mcp.NamesAppend(front, LastBound(ids, connectors, before, taken));
        assert forall i | 0 <= i < |front| :: front[i].name in Mcp.Names(front);
      }
    }
  }

  /** The form's entries are bound to its connectors. */
  lemma {:induction false} BoundToTheForm(ids: seq<string>, connectors: Mcp.Connectors, before: map<string, string>,
                                          taken: set<string>)
    requires ById(connectors)
    ensures var bound := Mcp.Bound(ids, connectors, before, taken);
      && (forall s | s in bound :: Mcp.IsBound(s) && Mcp.ConnectorId(s) in ids)
      && ((forall id | id in ids :: id in connectors) ==> Mcp.IdsOf(bound) == ids)
  {
    if ids != [] {
      var front := ids[..|ids| - 1];
      assert ids == front + [ids[|ids| - 1]];
      BoundToTheForm(front, connectors, before, taken);
      if ids[|ids| - 1] in connectors {
        LastBoundFacts(ids, connectors, before, taken);
      }
    }
  }

  lemma SplitRendered(bound: seq<Mcp.Server>, prev: seq<Mcp.Server>)
    requires forall s | s in bound :: Mcp.IsBound(s)
    ensures Mcp.UnboundOf(bound + Mcp.UnboundOf(prev)) == Mcp.UnboundOf(prev)
    ensures Mcp.BoundIds(bound + Mcp.UnboundOf(prev)) == Mcp.IdsOf(bound)
  {
    var rest := Mcp.UnboundOf(prev);
    FilterMembers(Mcp.IsUnbound, prev);
    FilterConcat(Mcp.IsBound, bound, rest);
    FilterConcat(Mcp.IsUnbound, bound, rest);
    FilterAll(Mcp.IsBound, bound);
    FilterNone(Mcp.IsUnbound, bound);
    FilterAll(Mcp.IsUnbound, rest);
    FilterNone(Mcp.IsBound, rest);
  }

  /**
   * The bound entries of a rendered mcp.json are the form's known connectors in order, the others those of the base.
   */
  lemma RenderedServers(prev: seq<Mcp.Server>, ids: seq<string>, connectors: Mcp.Connectors)
    requires ById(connectors)
    ensures var all := Mcp.Rendered(prev, ids, connectors);
      && Mcp.UnboundOf(all) == Mcp.UnboundOf(prev)
      && ((forall id | id in ids :: id in connectors) ==> Mcp.BoundIds(all) == ids)
  {
    var rest := Mcp.UnboundOf(prev);
    BoundToTheForm(ids, connectors, Mcp.NamesById(prev), Mcp.Names(rest));
    SplitRendered(Mcp.Bound(ids, connectors, Mcp.NamesById(prev), Mcp.Names(rest)), prev);
  }

  /** Every entry has the name that `names` gives its connector. */
  ghost predicate NamedBy(servers: seq<Mcp.Server>, names: map<string, string>) {
    forall s | s in servers :: s.name != "" && At(names, Mcp.ConnectorId(s)) == s.name
  }

  predicate Named(servers: seq<Mcp.Server>) {
    forall s | s in servers :: s.name != ""
  }

  lemma {:induction false} NamedByTheirOwn(ids: seq<string>, connectors: Mcp.Connectors, before: map<string, string>,
                                           taken: set<string>)
    requires ById(connectors) && Distinct(ids) && Named(Mcp.Bound(ids, connectors, before, taken))
    ensures var bound := Mcp.Bound(ids, connectors, before, taken); NamedBy(bound, Mcp.NamesById(bound))
  {
    if ids != [] {
      var front, id := ids[..|ids| - 1], ids[|ids| - 1];
      assert id !in front;
      if id in connectors {
        var rest, last := Mcp.Bound(front, connectors, before, taken), LastBound(ids, connectors, before, taken);
        LastBoundFacts(ids, connectors, before, taken);
        BoundToTheForm(front, connectors, before, taken);
        assert forall s | s in rest :: s in rest + [last];
        NamedByTheirOwn(front, connectors, before, taken);
        assert last in rest + [last];
        assert (rest + [last])[..|rest|] == rest;
        assert Mcp.NamesById(rest + [last]) == Mcp.NamesById(rest)[id := last.name];
      } else {
        NamedByTheirOwn(front, connectors, before, taken);
      }
    }
  }

  lemma {:induction false} UnboundNameNothing(a: seq<Mcp.Server>, b: seq<Mcp.Server>)
    requires forall s | s in b :: Mcp.IsUnbound(s)
    ensures Mcp.NamesById(a + b) == Mcp.NamesById(a)
  {
    if b == [] {
      assert a + b == a;
    } else {
      assert b[|b| - 1] in b;
      UnboundNameNothing(a, b[..|b| - 1]);
      assert (a + b)[..|a + b| - 1] == a + b[..|b| - 1];
    }
  }

  lemma {:induction false} BoundSettles(ids: seq<string>, connectors: Mcp.Connectors, before: map<string, string>,
                                        later: map<string, string>, taken: set<string>)
    requires ById(connectors) && NamedBy(Mcp.Bound(ids, connectors, before, taken), later)
    ensures Mcp.Bound(ids, connectors, later, taken) == Mcp.Bound(ids, connectors, before, taken)
  {
    if ids != [] {
      var front, id := ids[..|ids| - 1], ids[|ids| - 1];
      var rest := Mcp.Bound(front, connectors, before, taken);
      if id in connectors {
        var last := LastBound(ids, connectors, before, taken);
        LastBoundFacts(ids, connectors, before, taken);
        assert forall s | s in rest :: s in rest + [last];
        assert last in rest + [last];
        BoundSettles(front, connectors, before, later, taken);
        Mcp.FreshFacts(last.name, taken + Mcp.Names(rest));
        assert Mcp.Stem(id, connectors[id], later) == last.name;
      } else {
        BoundSettles(front, connectors, before, later, taken);
      }
    }
  }

  /** A rendered mcp.json that can be read back is rendered again as it is. */
  lemma ServersSettle(prev: seq<Mcp.Server>, ids: seq<string>, connectors: Mcp.Connectors)
    requires ById(connectors) && Distinct(ids) && Named(Mcp.Rendered(prev, ids, connectors))
    ensures var all := Mcp.Rendered(prev, ids, connectors); Mcp.Rendered(all, ids, connectors) == all
  {
    var rest := Mcp.UnboundOf(prev);
    var bound := Mcp.Bound(ids, connectors, Mcp.NamesById(prev), Mcp.Names(rest));
    RenderedServers(prev, ids, connectors);
    FilterMembers(Mcp.IsUnbound, prev);
    assert forall s | s in bound :: s in bound + rest;
    NamedByTheirOwn(ids, connectors, Mcp.NamesById(prev), Mcp.Names(rest));
    UnboundNameNothing(bound, rest);
    BoundSettles(ids, connectors, Mcp.NamesById(prev), Mcp.NamesById(bound + rest), Mcp.Names(rest));
  }

  // ---- main results ----

  lemma SkillsAreReadBack(form: Form, base: Bundle, names: map<string, string>)
    ensures var entries := Entries(form, base, names); var file := SkillsFile(entries);
      EntriesOf(file).Some? ==> EntriesOf(file).value == entries == Skills.Previous(file) && Skills.EntriesFit(entries)
  {
  }

  lemma ServersAreReadBack(form: Form, base: Bundle, connectors: Mcp.Connectors)
    ensures var servers := McpEntries(form, base, connectors); var file := ServersFile(servers);
      ServersOf(file).Some? ==> ServersOf(file).value == servers == Mcp.Previous(file) && Named(servers)
  {
  }

  lemma AgentStays(form: Form, base: File<map<string, Json>>)
    requires Trimmed(form.description)
    ensures Agent(form, Holds(Agent(form, base))) == Agent(form, base)
  {
    TrimFacts(form.description);
    if base.Holds? && "description" in base.doc && base.doc["description"].JString? {
      TrimFacts(base.doc["description"].s);
    }
  }

  lemma SkillsStay(form: Form, base: Bundle, out: Bundle, names: map<string, string>)
    requires out.others == base.others && out.skills == SkillsFile(Entries(form, base, names))
        && EntriesOf(out.skills).Some?
    ensures Entries(form, out, names) == Entries(form, base, names)
  {
    SkillsAreReadBack(form, base, names);
    Skills.RenderingSettles(Skills.Previous(base.skills), Skills.AsSet(SkillsOf(base)), form.skillIds, names);
  }

  lemma ServersStay(form: Form, base: Bundle, out: Bundle, connectors: Mcp.Connectors)
    requires ById(connectors) && Distinct(form.connectorIds)
    requires out.servers == ServersFile(McpEntries(form, base, connectors)) && ServersOf(out.servers).Some?
    ensures McpEntries(form, out, connectors) == McpEntries(form, base, connectors)
  {
    ServersAreReadBack(form, base, connectors);
    ServersSettle(Mcp.Previous(base.servers), form.connectorIds, connectors);
  }

  /**
   * Saving a form unchanged changes nothing: when the rendered bundle derives without error, rendering the form over it
   * gives the same bundle.
   */
  lemma SavingUnchangedIsAFixedPoint(form: Form, base: Bundle, connectors: Mcp.Connectors, names: map<string, string>,
                                     fits: Bundle -> bool, secret: map<string, Json> -> bool)
    requires Validated(form) && ById(connectors)
    requires Derive(Render(form, base, connectors, names), fits, secret).Read?
    ensures Render(form, Render(form, base, connectors, names), connectors, names) ==
        Render(form, base, connectors, names)
  {
    var out := Render(form, base, connectors, names);
    AgentStays(form, base.agent);
    SkillsStay(form, base, out, names);
    ServersStay(form, base, out, connectors);
  }

  // ---- on what the caller has: form, base, connectors and names ----

  /** The names of the form's skills fit beside the bundle skills the previous file lists. */
  ghost predicate SkillNamesFit(form: Form, base: Bundle, names: map<string, string>) {
    Skills.NamesFit(Skills.Previous(base.skills), Skills.AsSet(SkillsOf(base)), form.skillIds, names)
  }

  /** The form's skills are listed as they would be without the previous file. */
  ghost predicate SkillsAsNew(form: Form, base: Bundle, names: map<string, string>) {
    Skills.NoTrace(Skills.Previous(base.skills), Skills.AsSet(SkillsOf(base)), form.skillIds, names)
  }

  /** Every known connector of the form can be loaded. */
  predicate ConnectorsFit(form: Form, connectors: Mcp.Connectors) {
    forall id | id in form.connectorIds && id in connectors :: Mcp.Loadable(connectors[id])
  }

  /** The previous file has no entry of its own, and the form's connectors get the names they would get without it. */
  predicate ServersAsNew(form: Form, base: Bundle, connectors: Mcp.Connectors) {
    var prev := Mcp.Previous(base.servers);
    && Mcp.UnboundOf(prev) == []
    && Mcp.FreshNames(form.connectorIds, connectors, Mcp.NamesById(prev)) ==
        Mcp.FreshNames(form.connectorIds, connectors, map[])
  }

  lemma PreviousSkillsFit(file: File<seq<SkillEntry>>)
    ensures Skills.EntriesFit(Skills.Previous(file))
  {
  }

  lemma SkillsReadableExactly(form: Form, base: Bundle, names: map<string, string>)
    requires Distinct(form.skillIds)
    ensures Skills.EntriesFit(Entries(form, base, names)) <==> SkillNamesFit(form, base, names)
  {
    PreviousSkillsFit(base.skills);
    Skills.ReadableExactly(Skills.Previous(base.skills), Skills.AsSet(SkillsOf(base)), form.skillIds, names);
  }

  lemma SkillsStayExactly(form: Form, base: Bundle, out: Bundle, names: map<string, string>)
    requires Distinct(form.skillIds)
    requires out.others == base.others && out.skills == SkillsFile(Entries(form, base, names))
    ensures Entries(form, out, names) == Entries(form, base, names) <==>
              SkillNamesFit(form, base, names) || SkillsAsNew(form, base, names)
  {
    SkillsReadableExactly(form, base, names);
    PreviousSkillsFit(base.skills);
    Skills.AsNewExactly(Skills.Previous(base.skills), Skills.AsSet(SkillsOf(base)), form.skillIds, names);
    if Skills.EntriesFit(Entries(form, base, names)) {
      SkillsStay(form, base, out, names);
    }
  }

  /** The entry says what the connector with this id is. */
  predicate Describes(s: Mcp.Server, id: string, connectors: Mcp.Connectors) {
    id in connectors && s.obj == Mcp.ConnectorFields(connectors[id])
  }

  /** Each entry has a name and describes a connector of the form. */
  ghost predicate AllDescribe(servers: seq<Mcp.Server>, ids: seq<string>, connectors: Mcp.Connectors) {
    forall s | s in servers :: s.name != "" && exists id | id in ids :: Describes(s, id, connectors)
  }

  /** Each known connector of the form has an entry. */
  ghost predicate AllDescribed(servers: seq<Mcp.Server>, ids: seq<string>, connectors: Mcp.Connectors) {
    forall id | id in ids && id in connectors :: exists s | s in servers :: Describes(s, id, connectors)
  }

  lemma {:induction false} BoundDescribe(ids: seq<string>, connectors: Mcp.Connectors, before: map<string, string>,
                                         taken: set<string>)
    requires ById(connectors)
    ensures AllDescribe(Mcp.Bound(ids, connectors, before, taken), ids, connectors)
  {
    if ids != [] {
      var front, id := ids[..|ids| - 1], ids[|ids| - 1];
      assert ids == front + [id];
      BoundDescribe(front, connectors, before, taken);
      var rest := Mcp.Bound(front, connectors, before, taken);
      forall s | s in rest ensures exists other | other in ids :: Describes(s, other, connectors) {
        var other :| other in front && Describes(s, other, connectors);
        assert other in ids;
      }
      if id in connectors {
        Mcp.FreshFacts(Mcp.Stem(id, connectors[id], before), taken + Mcp.Names(rest));
        assert Describes(LastBound(ids, connectors, before, taken), id, connectors);
      }
    }
  }

  lemma {:induction false} BoundDescribed(ids: seq<string>, connectors: Mcp.Connectors, before: map<string, string>,
                                          taken: set<string>)
    ensures AllDescribed(Mcp.Bound(ids, connectors, before, taken), ids, connectors)
  {
    if ids != [] {
      var front, id := ids[..|ids| - 1], ids[|ids| - 1];
      assert ids == front + [id];
      BoundDescribed(front, connectors, before, taken);
      var rest, bound := Mcp.Bound(front, connectors, before, taken), Mcp.Bound(ids, connectors, before, taken);
      forall other | other in ids && other in connectors
          ensures exists s | s in bound :: Describes(s, other, connectors) {
        if other in front {
          var s :| s in rest && Describes(s, other, connectors);
          assert s in bound;
        } else {
          assert LastBound(ids, connectors, before, taken) in bound;
          assert Describes(LastBound(ids, connectors, before, taken), other, connectors);
        }
      }
    }
  }

  lemma {:induction false} UnboundStayApart(servers: seq<Mcp.Server>)
    requires NamesDiffer(servers)
    ensures NamesDiffer(Mcp.UnboundOf(servers)) && Mcp.Names(Mcp.UnboundOf(servers)) <= Mcp.Names(servers)
  {
    if servers != [] {
      var front, last := servers[..|servers| - 1], servers[|servers| - 1];
      assert servers == front + [last];
      UnboundStayApart(front);
      Mcp.NamesAppend(front, last);
      Mcp.NamesAppend(Mcp.UnboundOf(front), last);
      assert last.name !in Mcp.Names(front);
      assert forall i | 0 <= i < |Mcp.UnboundOf(front)| ::
          Mcp.UnboundOf(front)[i].name in Mcp.Names(Mcp.UnboundOf(front));
    }
  }

  lemma UnboundFits(servers: seq<Mcp.Server>)
    requires Mcp.ServersFit(servers)
    ensures Mcp.ServersFit(Mcp.UnboundOf(servers))
  {
    UnboundStayApart(servers);
    FilterMembers(Mcp.IsUnbound, servers);
  }

  /** A rendered mcp.json can be read back if and only if every known connector of the form can be loaded. */
  lemma ServersReadableExactly(form: Form, base: Bundle, connectors: Mcp.Connectors)
    requires ById(connectors)
    ensures Mcp.EntriesFit(Mcp.AsEntries(McpEntries(form, base, connectors))) <==> ConnectorsFit(form, connectors)
  {
    var prev := Mcp.Previous(base.servers);
    var rest := Mcp.UnboundOf(prev);
    var bound := Mcp.Bound(form.connectorIds, connectors, Mcp.NamesById(prev), Mcp.Names(rest));
    Mcp.WrittenFits(bound + rest);
    Mcp.WhatIsReadFits(base.servers);
    UnboundFits(prev);
    BoundNamesAreFresh(form.connectorIds, connectors, Mcp.NamesById(prev), Mcp.Names(rest));
    if ConnectorsFit(form, connectors) {
      BoundDescribe(form.connectorIds, connectors, Mcp.NamesById(prev), Mcp.Names(rest));
      LoadableFit(form, connectors, bound, rest);
    } else if Mcp.ServersFit(bound + rest) {
      BoundDescribed(form.connectorIds, connectors, Mcp.NamesById(prev), Mcp.Names(rest));
      FittingAreLoadable(form, connectors, bound, rest);
    }
  }

  lemma FittingAreLoadable(form: Form, connectors: Mcp.Connectors, bound: seq<Mcp.Server>, rest: seq<Mcp.Server>)
    requires AllDescribed(bound, form.connectorIds, connectors) && Mcp.ServersFit(bound + rest)
    ensures ConnectorsFit(form, connectors)
  {
    forall id | id in form.connectorIds && id in connectors ensures Mcp.Loadable(connectors[id]) {
      var s :| s in bound && Describes(s, id, connectors);
      assert s in bound + rest;
      Mcp.ConnectorEntryFits(s.name, connectors[id]);
    }
  }

  lemma LoadableFit(form: Form, connectors: Mcp.Connectors, bound: seq<Mcp.Server>, rest: seq<Mcp.Server>)
    requires NamesDiffer(bound) && Mcp.Names(bound) !! Mcp.Names(rest) && Mcp.ServersFit(rest)
    requires AllDescribe(bound, form.connectorIds, connectors) && ConnectorsFit(form, connectors)
    ensures Mcp.ServersFit(bound + rest)
  {
    var all := bound + rest;
    forall s | s in bound ensures Mcp.Checks(s.obj) {
      var id :| id in form.connectorIds && Describes(s, id, connectors);
      Mcp.ConnectorEntryFits(s.name, connectors[id]);
    }
    forall i, j | 0 <= i < |bound| && 0 <= j < |rest| ensures bound[i].name != rest[j].name {
      assert bound[i].name in Mcp.Names(bound) && rest[j].name in Mcp.Names(rest);
    }
  }

  /**
   * The rendered entries are those over no previous file if and only if that file has none of its own and the names
   * stay.
   */
  lemma ServersAsNewExactly(form: Form, base: Bundle, connectors: Mcp.Connectors)
    requires ById(connectors)
    ensures McpEntries(form, base, connectors) == Mcp.Rendered([], form.connectorIds, connectors)
        <==> ServersAsNew(form, base, connectors)
  {
    var prev := Mcp.Previous(base.servers);
    var rest := Mcp.UnboundOf(prev);
    var ids := form.connectorIds;
    var none: map<string, string> := map[];
    assert Mcp.Rendered([], ids, connectors) == Mcp.Bound(ids, connectors, none, {}) by {
      assert Mcp.Names(Mcp.UnboundOf([])) == {};
    }
    RenderedServers(prev, ids, connectors);
    RenderedServers([], ids, connectors);
    Mcp.BoundByNames(ids, connectors, Mcp.NamesById(prev));
    Mcp.BoundByNames(ids, connectors, none);
    Mcp.BoundFields(ids, connectors, Mcp.NamesById(prev), none);
    if rest == [] {
      assert Mcp.Names(rest) == {};
      SameEntries(Mcp.Bound(ids, connectors, Mcp.NamesById(prev), {}), Mcp.Bound(ids, connectors, none, {}),
                  Mcp.FreshNames(ids, connectors, Mcp.NamesById(prev)), Mcp.FreshNames(ids, connectors, none));
    }
  }

  lemma SameEntries(a: seq<Mcp.Server>, b: seq<Mcp.Server>, namesA: seq<string>, namesB: seq<string>)
    requires |a| == |b| == |namesA| == |namesB|
    requires forall i | 0 <= i < |a| :: a[i].obj == b[i].obj && a[i].name == namesA[i] && b[i].name == namesB[i]
    ensures a == b <==> namesA == namesB
  {
    if a == b {
      assert forall i | 0 <= i < |a| :: namesA[i] == a[i].name == b[i].name == namesB[i];
    }
  }

  lemma ServersStayExactly(form: Form, base: Bundle, out: Bundle, connectors: Mcp.Connectors)
    requires ById(connectors) && Distinct(form.connectorIds)
        && out.servers == ServersFile(McpEntries(form, base, connectors))
    ensures McpEntries(form, out, connectors) == McpEntries(form, base, connectors) <==>
              ConnectorsFit(form, connectors) || ServersAsNew(form, base, connectors)
  {
    ServersReadableExactly(form, base, connectors);
    ServersAsNewExactly(form, base, connectors);
    if Mcp.EntriesFit(Mcp.AsEntries(McpEntries(form, base, connectors))) {
      ServersStay(form, base, out, connectors);
    }
  }

  lemma FilesTell(a: seq<Mcp.Server>, b: seq<Mcp.Server>)
    ensures ServersFile(a) == ServersFile(b) ==> a == b
  {
    if ServersFile(a) == ServersFile(b) && a != [] {
      assert |Mcp.AsEntries(a)| == |Mcp.AsEntries(b)|;
      forall i | 0 <= i < |a| ensures a[i] == b[i] {
        assert Mcp.AsEntries(a)[i] == Mcp.AsEntries(b)[i];
      }
    }
  }

  /**
   * Without that condition, exactly when saving again changes nothing: the names of the form's skills fit, or its
   * skills are listed as if there were no previous file; and its connectors can be loaded, or are listed as if there
   * were none.
   */
  lemma FixedPointExactly(form: Form, base: Bundle, connectors: Mcp.Connectors, names: map<string, string>)
    requires Validated(form) && ById(connectors)
    ensures var out := Render(form, base, connectors, names);
      Render(form, out, connectors, names) == out <==>
        && (SkillNamesFit(form, base, names) || SkillsAsNew(form, base, names))
        && (ConnectorsFit(form, connectors) || ServersAsNew(form, base, connectors))
  {
    var out := Render(form, base, connectors, names);
    AgentStays(form, base.agent);
    SkillsStayExactly(form, base, out, names);
    ServersStayExactly(form, base, out, connectors);
    FilesTell(McpEntries(form, out, connectors), McpEntries(form, base, connectors));
  }

  /** A catalog skill of the form is named like a bundle skill that the previous file lists and that is there. */
  ghost predicate SharesAName(form: Form, base: Bundle, names: map<string, string>, e: SkillEntry, id: string) {
    && e in Skills.Previous(base.skills) && e.source == Skills.BUNDLE && e.name in SkillsOf(base)
    && id in form.skillIds && At(names, id) == e.name != ""
  }

  lemma SharedNameClashes(form: Form, base: Bundle, names: map<string, string>, e: SkillEntry, id: string)
    requires SharesAName(form, base, names, e, id)
    ensures !SkillNamesFit(form, base, names) && !SkillsAsNew(form, base, names)
  {
    assert Skills.IsThere(e, Skills.AsSet(SkillsOf(base)));
    assert Skills.Resolved(Skills.Previous(base.skills), names, id) == e.name;
  }

  /** With such a name, saving the form again changes the bundle. */
  lemma SharedNameIsNoFixedPoint(form: Form, base: Bundle, connectors: Mcp.Connectors, names: map<string, string>,
                                 e: SkillEntry, id: string)
    requires Validated(form) && ById(connectors) && SharesAName(form, base, names, e, id)
    ensures Render(form, Render(form, base, connectors, names), connectors, names) !=
            Render(form, base, connectors, names)
  {
    SharedNameClashes(form, base, names, e, id);
    FixedPointExactly(form, base, connectors, names);
  }

  /** There is one: a bundle skill "a" and a catalog skill named "a". */
  lemma ANameCanBeShared()
    ensures var base := Bundle(None, None, Absent, Holds([SkillEntry("a", "bundle", "")]), Absent,
        map[PathOf("a") := ""]);
            var form := Form("expert", "", "do", "", "", ["x"], []);
      Validated(form) && SharesAName(form, base, map["x" := "a"], SkillEntry("a", "bundle", ""), "x")
  {
    var mine := SkillEntry("a", "bundle", "");
    var base := Bundle(None, None, Absent, Holds([mine]), Absent, map[PathOf("a") := ""]);
    SkillsOfFacts(base);
    assert Trim("a") == "a" by {
      TrimFacts("a");
    }
    assert Skills.Previous(base.skills) == [mine];
  }

  predicate Clean(servers: seq<Mcp.Server>, secret: map<string, Json> -> bool) {
    forall s | s in servers :: !secret(s.obj)
  }

  predicate CleanConnectors(form: Form, connectors: Mcp.Connectors, secret: map<string, Json> -> bool) {
    forall id | id in form.connectorIds && id in connectors :: !secret(Mcp.ConnectorFields(connectors[id]))
  }

  /** Neither a known connector of the form nor an unbound entry of the base holds a literal credential. */
  predicate NoSecrets(form: Form, base: Bundle, connectors: Mcp.Connectors, secret: map<string, Json> -> bool) {
    CleanConnectors(form, connectors, secret) && Clean(Mcp.UnboundOf(Mcp.Previous(base.servers)), secret)
  }

  lemma DescribedIsClean(s: Mcp.Server, id: string, connectors: Mcp.Connectors, secret: map<string, Json> -> bool)
    requires Describes(s, id, connectors)
    ensures secret(s.obj) == secret(Mcp.ConnectorFields(connectors[id]))
  {
  }

  lemma BoundIsClean(form: Form, connectors: Mcp.Connectors, bound: seq<Mcp.Server>, secret: map<string, Json> -> bool)
    requires AllDescribe(bound, form.connectorIds, connectors) && CleanConnectors(form, connectors, secret)
    ensures Clean(bound, secret)
  {
    forall s | s in bound ensures !secret(s.obj) {
      var id :| id in form.connectorIds && Describes(s, id, connectors);
      DescribedIsClean(s, id, connectors, secret);
    }
  }

  lemma CleanIsNeeded(form: Form, connectors: Mcp.Connectors, bound: seq<Mcp.Server>, secret: map<string, Json> -> bool)
    requires AllDescribed(bound, form.connectorIds, connectors) && Clean(bound, secret)
    ensures CleanConnectors(form, connectors, secret)
  {
    forall id | id in form.connectorIds && id in connectors ensures !secret(Mcp.ConnectorFields(connectors[id])) {
      var s :| s in bound && Describes(s, id, connectors);
      DescribedIsClean(s, id, connectors, secret);
    }
  }

  lemma CleanJoins(a: seq<Mcp.Server>, b: seq<Mcp.Server>, secret: map<string, Json> -> bool)
    ensures Clean(a + b, secret) <==> Clean(a, secret) && Clean(b, secret)
  {
    assert forall s | s in a :: s in a + b;
    assert forall s | s in b :: s in a + b;
  }

  lemma CleanFormIsClean(form: Form, connectors: Mcp.Connectors, before: map<string, string>, taken: set<string>,
                         secret: map<string, Json> -> bool)
    requires ById(connectors) && CleanConnectors(form, connectors, secret)
    ensures Clean(Mcp.Bound(form.connectorIds, connectors, before, taken), secret)
  {
    BoundDescribe(form.connectorIds, connectors, before, taken);
    BoundIsClean(form, connectors, Mcp.Bound(form.connectorIds, connectors, before, taken), secret);
  }

  lemma CleanFormIsNeeded(form: Form, connectors: Mcp.Connectors, before: map<string, string>, taken: set<string>,
                          secret: map<string, Json> -> bool)
    requires Clean(Mcp.Bound(form.connectorIds, connectors, before, taken), secret)
    ensures CleanConnectors(form, connectors, secret)
  {
    BoundDescribed(form.connectorIds, connectors, before, taken);
    CleanIsNeeded(form, connectors, Mcp.Bound(form.connectorIds, connectors, before, taken), secret);
  }

  lemma NoSecretsExactly(form: Form, base: Bundle, connectors: Mcp.Connectors, secret: map<string, Json> -> bool)
    requires ById(connectors)
    ensures Clean(McpEntries(form, base, connectors), secret) <==> NoSecrets(form, base, connectors, secret)
  {
    var prev := Mcp.Previous(base.servers);
    var rest := Mcp.UnboundOf(prev);
    var bound := Mcp.Bound(form.connectorIds, connectors, Mcp.NamesById(prev), Mcp.Names(rest));
    CleanJoins(bound, rest, secret);
    if CleanConnectors(form, connectors, secret) {
      CleanFormIsClean(form, connectors, Mcp.NamesById(prev), Mcp.Names(rest), secret);
    } else if Clean(bound, secret) {
      CleanFormIsNeeded(form, connectors, Mcp.NamesById(prev), Mcp.Names(rest), secret);
    }
  }

  lemma ReadsExactly(b: Bundle, fits: Bundle -> bool, secret: map<string, Json> -> bool)
    requires Derive(b, fits, secret) != Refused(SkillMissing)
    ensures Derive(b, fits, secret).Read? <==>
              && fits(b) && Trim(TextOf(b.agents)) != "" && AgentFits(b.agent) && EntriesOf(b.skills).Some?
              && ServersOf(b.servers).Some? && Clean(ServersOf(b.servers).value, secret)
  {
  }

  lemma FilesReadExactly(entries: seq<SkillEntry>, servers: seq<Mcp.Server>)
    ensures EntriesOf(SkillsFile(entries)).Some? <==> Skills.EntriesFit(entries)
    ensures ServersOf(ServersFile(servers)).Some? <==> Mcp.EntriesFit(Mcp.AsEntries(servers))
    ensures ServersOf(ServersFile(servers)).Some? ==> ServersOf(ServersFile(servers)).value == servers
  {
    Mcp.ReadBack(servers);
  }

  /**
   * When a validated form can be saved over a base: exactly when the files are within the limits, the names of its
   * skills fit, its known connectors can be loaded, and no entry holds a literal credential.
   */
  lemma DerivesExactly(form: Form, base: Bundle, connectors: Mcp.Connectors, names: map<string, string>,
                       fits: Bundle -> bool, secret: map<string, Json> -> bool)
    requires Validated(form) && ById(connectors)
    ensures Derive(Render(form, base, connectors, names), fits, secret).Read? <==>
              && fits(Render(form, base, connectors, names))
              && SkillNamesFit(form, base, names) && ConnectorsFit(form, connectors)
                  && NoSecrets(form, base, connectors, secret)
  {
    TrimFacts(form.instructions);
    NoSkillIsMissing(form, base, connectors, names, fits, secret);
    ReadsExactly(Render(form, base, connectors, names), fits, secret);
    FilesReadExactly(Entries(form, base, names), McpEntries(form, base, connectors));
    SkillsReadableExactly(form, base, names);
    ServersReadableExactly(form, base, connectors);
    NoSecretsExactly(form, base, connectors, secret);
  }

  lemma ListedAreThere(form: Form, base: Bundle, names: map<string, string>)
    ensures forall name | name in Skills.BundleNames(Entries(form, base, names)) :: name in SkillsOf(base)
  {
    var entries := Entries(form, base, names);
    Skills.RenderedFacts(Skills.Previous(base.skills), Skills.AsSet(SkillsOf(base)), form.skillIds, names);
    Skills.BundleNamesFacts(entries);
    forall name | name in Skills.BundleNames(entries) ensures name in SkillsOf(base) {
      var k :| 0 <= k < |entries| && entries[k].source != Skills.CATALOG && entries[k].name == name;
      assert Skills.Settled(entries[k], Skills.AsSet(SkillsOf(base)), Skills.AsSet(form.skillIds), names);
    }
  }

  /** A rendered bundle lists no bundle skill that is not there, whatever the form and the base. */
  lemma NoSkillIsMissing(form: Form, base: Bundle, connectors: Mcp.Connectors, names: map<string, string>,
                         fits: Bundle -> bool, secret: map<string, Json> -> bool)
    ensures Derive(Render(form, base, connectors, names), fits, secret) != Refused(SkillMissing)
  {
    SkillsAreReadBack(form, base, names);
    ListedAreThere(form, base, names);
  }

  lemma {:induction false} ExceptFacts(names: seq<string>, listed: set<string>)
    ensures forall name :: name in Except(names, listed) <==> name in names && name !in listed
    ensures Distinct(names) ==> Distinct(Except(names, listed))
  {
    if names != [] {
      var front, last := names[..|names| - 1], names[|names| - 1];
      assert names == front + [last];
      ExceptFacts(front, listed);
      if Distinct(names) {
        assert last !in front;
      }
    }
  }

  /** Every directory loads exactly once, when the file lists no name twice and only names that are there. */
  lemma LoadOrderFacts(entries: seq<SkillEntry>, dirs: seq<string>)
    requires Skills.EntriesFit(entries) && Distinct(dirs) && forall name | name in Skills.BundleNames(entries) ::
        name in dirs
    ensures Distinct(LoadOrder(entries, dirs)) && forall name :: name in LoadOrder(entries, dirs) <==> name in dirs
  {
    var listed := Skills.BundleNames(entries);
    Skills.BundleNamesFacts(entries);
    ExceptFacts(dirs, Skills.AsSet(listed));
    forall i, j | 0 <= i < |listed| && 0 <= j < |Except(dirs, Skills.AsSet(listed))|
      ensures listed[i] != Except(dirs, Skills.AsSet(listed))[j]
    {
      assert listed[i] in Skills.AsSet(listed)
          && Except(dirs, Skills.AsSet(listed))[j] in Except(dirs, Skills.AsSet(listed));
    }
  }

  lemma SkillsComeBack(form: Form, base: Bundle, names: map<string, string>)
    requires Distinct(form.skillIds) && Skills.EntriesFit(Entries(form, base, names))
    ensures var entries := Entries(form, base, names); var load := LoadOrder(entries, SkillsOf(base));
      && Distinct(Skills.CatalogIds(entries))
          && (forall id :: id in Skills.CatalogIds(entries) <==> id in form.skillIds)
      && Distinct(load) && (forall name :: name in load <==> '/' !in name && PathOf(name) in base.others)
  {
    var entries := Entries(form, base, names);
    Skills.RenderedFacts(Skills.Previous(base.skills), Skills.AsSet(SkillsOf(base)), form.skillIds, names);
    Skills.CatalogIdsFacts(entries);
    SkillsOfFacts(base);
    ListedAreThere(form, base, names);
    LoadOrderFacts(entries, SkillsOf(base));
    forall id ensures id in Skills.CatalogIds(entries) <==> id in form.skillIds {
      assert id in Skills.AsSet(Skills.CatalogIds(entries)) <==> id in Skills.AsSet(form.skillIds);
    }
  }

  /**
   * Deriving undoes rendering. For a validated form whose connectors are all known, a rendered bundle that derives
   * gives back the form's instructions, soul and connectors in order, each of its skills once, each SKILL.md directory
   * of the base once, and the servers of the base that are not bound, in order.
   */
  lemma DeriveUndoesRender(form: Form, base: Bundle, connectors: Mcp.Connectors, names: map<string, string>,
                           fits: Bundle -> bool, secret: map<string, Json> -> bool)
    requires Validated(form) && ById(connectors) && forall id | id in form.connectorIds :: id in connectors
    requires Derive(Render(form, base, connectors, names), fits, secret).Read?
    ensures var d := Derive(Render(form, base, connectors, names), fits, secret).d;
      && d.instructions == form.instructions && d.soul == form.soul
      && d.connectorIds == form.connectorIds
      && Distinct(d.catalogSkills) && (forall id :: id in d.catalogSkills <==> id in form.skillIds)
      && Distinct(d.bundleSkills)
          && (forall name :: name in d.bundleSkills <==> '/' !in name && PathOf(name) in base.others)
      && d.unbound == Reasons(Mcp.UnboundOf(Mcp.Previous(base.servers)))
  {
    SkillsAreReadBack(form, base, names);
    ServersAreReadBack(form, base, connectors);
    TrimFacts(form.instructions);
    TrimFacts(form.soul);
    RenderedServers(Mcp.Previous(base.servers), form.connectorIds, connectors);
    SkillsComeBack(form, base, names);
  }

  // ---- what the files say, field by field ----

  /** The document has a text under the key. */
  predicate SaysText(doc: map<string, Json>, key: string, text: string) {
    key in doc && doc[key] == JString(text)
  }

  /** The description the base's agent.json has, blanks around it taken off; a file without one has none. */
  predicate HasDescription(file: File<map<string, Json>>, text: string) {
    if file.Holds? && "description" in file.doc && file.doc["description"].JString?
    then text == Trim(file.doc["description"].s)
    else text == ""
  }

  /**
   * The rendered agent.json: schema and name always, the model when the form has one, and a description: the form's
   * when it has one, else the base's, and none when neither has.
   */
  lemma AgentSays(form: Form, base: Bundle, connectors: Mcp.Connectors, names: map<string, string>, before: string)
    requires HasDescription(base.agent, before)
    ensures var file := Render(form, base, connectors, names).agent;
      && file.Holds?
      && var doc := file.doc;
         && SaysText(doc, "schema", "orbit.agent/v1") && SaysText(doc, "name", form.name)
         && (if form.model != "" then SaysText(doc, "model", form.model) else "model" !in doc)
         && (if form.description != "" then SaysText(doc, "description", form.description)
             else if before != "" then SaysText(doc, "description", before)
             else "description" !in doc)
         && doc.Keys <= {"schema", "name", "model", "description"}
  {
  }

  /** So an edited description is read back as it was written, and one left empty keeps the base's. */
  lemma DescriptionIsSaved(form: Form, base: Bundle, connectors: Mcp.Connectors, names: map<string, string>,
                           before: string)
    requires Validated(form) && HasDescription(base.agent, before)
    ensures HasDescription(Render(form, base, connectors, names).agent,
                           if form.description != "" then form.description else before)
  {
    AgentSays(form, base, connectors, names, before);
    TrimFacts(form.description);
    if base.agent.Holds? && "description" in base.agent.doc && base.agent.doc["description"].JString? {
      TrimFacts(base.agent.doc["description"].s);
    }
  }

  /** The two Markdown files are the form's texts; what the form has no field for stays. */
  lemma TextsAreTheForms(form: Form, base: Bundle, connectors: Mcp.Connectors, names: map<string, string>)
    ensures var out := Render(form, base, connectors, names);
      && out.agents == Some(form.instructions) && out.others == base.others
      && (if form.soul == "" then out.soul.None? else out.soul == Some(form.soul))
  {
  }

  /** An entry of mcp.json that is not bound, with the reason it is given: it has a command, or not. */
  predicate IsReported(u: Unbound, server: Mcp.Server) {
    && u.name == server.name
    && (u.reason == StdioServer <==>
          "command" in server.obj && server.obj["command"].JString? && server.obj["command"].s != "")
  }

  /** The entry lists a catalog skill with the id, or a bundle skill with the name. */
  predicate Lists(e: SkillEntry, catalog: bool, text: string) {
    if catalog then e.source == "catalog" && e.id == text else e.source != "catalog" && e.name == text
  }

  /** `texts` are what the entries list, of one kind, in the order of the file. */
  ghost predicate InFileOrder(texts: seq<string>, entries: seq<SkillEntry>, catalog: bool) {
    && (forall text :: text in texts <==> exists k | 0 <= k < |entries| :: Lists(entries[k], catalog, text))
    && (forall i, j | 0 <= i < j < |texts| :: ListedBefore(entries, catalog, texts[i], texts[j]))
  }

  ghost predicate ListedBefore(entries: seq<SkillEntry>, catalog: bool, a: string, b: string) {
    exists k, m | 0 <= k < m < |entries| :: Lists(entries[k], catalog, a) && Lists(entries[m], catalog, b)
  }

  /** `names` are directories of the bundle with a SKILL.md, none of them listed, in the order of their paths. */
  ghost predicate InPathOrder(names: seq<string>, listed: seq<string>, b: Bundle) {
    && (forall name :: name in names <==> '/' !in name && PathOf(name) in b.others && name !in listed)
    && (forall i, j | 0 <= i < j < |names| :: LexLess(PathOf(names[i]), PathOf(names[j])))
  }

  lemma ListedLater(entries: seq<SkillEntry>, e: SkillEntry, catalog: bool, a: string, b: string)
    ensures ListedBefore(entries, catalog, a, b) ==> ListedBefore(entries + [e], catalog, a, b)
    ensures (exists k | 0 <= k < |entries| :: Lists(entries[k], catalog, a)) && Lists(e, catalog, b) ==>
              ListedBefore(entries + [e], catalog, a, b)
  {
    var more := entries + [e];
    if k, m :| 0 <= k < m < |entries| && Lists(entries[k], catalog, a) && Lists(entries[m], catalog, b) {
      assert more[k] == entries[k] && more[m] == entries[m];
    }
    if k :| 0 <= k < |entries| && Lists(entries[k], catalog, a) {
      assert more[k] == entries[k] && more[|entries|] == e;
    }
  }

  lemma OneMoreListed(texts: seq<string>, entries: seq<SkillEntry>, e: SkillEntry, catalog: bool, text: string)
    requires InFileOrder(texts, entries, catalog)
    ensures Lists(e, catalog, text) ==> InFileOrder(texts + [text], entries + [e], catalog)
    ensures (forall x :: !Lists(e, catalog, x)) ==> InFileOrder(texts, entries + [e], catalog)
  {
    var more := entries + [e];
    assert forall k | 0 <= k < |entries| :: more[k] == entries[k];
    assert more[|entries|] == e;
    forall i, j | 0 <= i < j < |texts| ensures ListedBefore(more, catalog, texts[i], texts[j]) {
      ListedLater(entries, e, catalog, texts[i], texts[j]);
    }
    forall i | 0 <= i < |texts| && Lists(e, catalog, text) ensures ListedBefore(more, catalog, texts[i], text) {
      assert texts[i] in texts;
      ListedLater(entries, e, catalog, texts[i], text);
    }
  }

  lemma {:induction false} ListedInOrder(entries: seq<SkillEntry>)
    ensures InFileOrder(Skills.CatalogIds(entries), entries, true)
    ensures InFileOrder(Skills.BundleNames(entries), entries, false)
  {
    if entries != [] {
      var front, last := entries[..|entries| - 1], entries[|entries| - 1];
      assert entries == front + [last];
      ListedInOrder(front);
      OneMoreListed(Skills.CatalogIds(front), front, last, true, last.id);
      OneMoreListed(Skills.BundleNames(front), front, last, false, last.name);
      assert Skills.CatalogIds(front) + [] == Skills.CatalogIds(front);
      assert Skills.BundleNames(front) + [] == Skills.BundleNames(front);
    }
  }

  predicate PathsAscend(names: seq<string>) {
    forall i, j | 0 <= i < j < |names| :: LexLess(PathOf(names[i]), PathOf(names[j]))
  }

  lemma {:induction false} NamesAscend(paths: seq<string>)
    requires Ascending(paths)
    ensures PathsAscend(SkillNames(paths))
  {
    if paths != [] {
      var front, last := paths[..|paths| - 1], paths[|paths| - 1];
      assert Ascending(front);
      NamesAscend(front);
      SkillNamesFacts(front);
      var names := SkillNames(front);
      if SkillAt(last).Some? {
        SkillAtFacts(last, SkillAt(last).value);
        forall i | 0 <= i < |names| ensures LexLess(PathOf(names[i]), last) {
          assert names[i] in names;
          var k :| 0 <= k < |front| && front[k] == PathOf(names[i]);
          assert paths[k] == front[k];
        }
      }
    }
  }

  lemma {:induction false} ExceptAscends(names: seq<string>, listed: set<string>)
    requires PathsAscend(names)
    ensures PathsAscend(Except(names, listed))
  {
    if names != [] {
      var front, last := names[..|names| - 1], names[|names| - 1];
      ExceptAscends(front, listed);
      ExceptFacts(front, listed);
      var kept := Except(front, listed);
      forall i | 0 <= i < |kept| ensures LexLess(PathOf(kept[i]), PathOf(last)) {
        assert kept[i] in kept;
        var k :| 0 <= k < |front| && front[k] == kept[i];
        assert names[k] == front[k];
      }
    }
  }

  /** The skills the bundle brings along: what the file lists, in its order, then the other directories by path. */
  lemma LoadsInOrder(b: Bundle, entries: seq<SkillEntry>)
    ensures exists listed, rest :: LoadOrder(entries, SkillsOf(b)) == listed + rest
              && InFileOrder(listed, entries, false) && InPathOrder(rest, listed, b)
  {
    var listed := Skills.BundleNames(entries);
    var rest := Except(SkillsOf(b), Skills.AsSet(listed));
    ListedInOrder(entries);
    SkillsOfFacts(b);
    ExceptFacts(SkillsOf(b), Skills.AsSet(listed));
    InOrderFacts(b.others.Keys);
    NamesAscend(InOrder(b.others.Keys));
    ExceptAscends(SkillsOf(b), Skills.AsSet(listed));
    assert LoadOrder(entries, SkillsOf(b)) == listed + rest;
  }

  /** The entries of mcp.json in two lists, each in the order of the file: connector ids, and what is not bound. */
  predicate Parts(servers: seq<Mcp.Server>, ids: seq<string>, unbound: seq<Unbound>) {
    if servers == [] then ids == [] && unbound == [] else
      var front, last := servers[..|servers| - 1], servers[|servers| - 1];
      if "connector_id" in last.obj && last.obj["connector_id"].JString? && last.obj["connector_id"].s != "" then
        ids != [] && ids[|ids| - 1] == last.obj["connector_id"].s && Parts(front, ids[..|ids| - 1], unbound)
      else
        unbound != [] && IsReported(unbound[|unbound| - 1], last) && Parts(front, ids, unbound[..|unbound| - 1])
  }

  lemma OneMoreServer(front: seq<Mcp.Server>, last: Mcp.Server)
    ensures Mcp.BoundIds(front + [last]) ==
            Mcp.BoundIds(front) + if Mcp.IsBound(last) then [Mcp.ConnectorId(last)] else []
    ensures Reasons(Mcp.UnboundOf(front + [last])) ==
            Reasons(Mcp.UnboundOf(front)) + if Mcp.IsBound(last) then [] else [Unbound(last.name, ReasonOf(last))]
  {
    FilterLast(Mcp.IsBound, front, last);
    FilterLast(Mcp.IsUnbound, front, last);
  }

  lemma OnePart(front: seq<Mcp.Server>, last: Mcp.Server, ids: seq<string>, unbound: seq<Unbound>)
    requires Parts(front, ids, unbound)
    ensures Mcp.IsBound(last) ==> Parts(front + [last], ids + [Mcp.ConnectorId(last)], unbound)
    ensures !Mcp.IsBound(last) ==> Parts(front + [last], ids, unbound + [Unbound(last.name, ReasonOf(last))])
  {
    assert (front + [last])[..|front|] == front;
    assert (ids + [Mcp.ConnectorId(last)])[..|ids|] == ids;
    assert (unbound + [Unbound(last.name, ReasonOf(last))])[..|unbound|] == unbound;
  }

  lemma {:induction false} ServersPart(servers: seq<Mcp.Server>)
    ensures Parts(servers, Mcp.BoundIds(servers), Reasons(Mcp.UnboundOf(servers)))
  {
    if servers != [] {
      var front, last := servers[..|servers| - 1], servers[|servers| - 1];
      var ids, unbound := Mcp.BoundIds(front), Reasons(Mcp.UnboundOf(front));
      assert servers == front + [last];
      ServersPart(front);
      OneMoreServer(front, last);
      OnePart(front, last, ids, unbound);
      assert ids + [] == ids && unbound + [] == unbound;
    }
  }

  /** What skills.json lists; a missing file lists nothing. */
  predicate SkillsListed(file: File<seq<SkillEntry>>, entries: seq<SkillEntry>) {
    if file.Absent? then entries == [] else file == Holds(entries)
  }

  /** What mcp.json has; a missing file, or one without servers, has nothing. */
  predicate ServersListed(file: File<Servers>, servers: seq<Mcp.Server>) {
    if file.Holds? && file.doc.Listed? then
      && |servers| == |file.doc.entries|
      && forall i | 0 <= i < |servers| ::
           file.doc.entries[i].name == servers[i].name && file.doc.entries[i].value == JObject(servers[i].obj)
    else (file.Absent? || file == Holds(NoServers)) && servers == []
  }

  /** What a bundle that derives says, from its files alone. */
  lemma DerivedSays(b: Bundle, fits: Bundle -> bool, secret: map<string, Json> -> bool)
    requires Derive(b, fits, secret).Read?
    ensures var d := Derive(b, fits, secret).d;
      && b.agents.Some? && d.instructions == Trim(b.agents.value) && d.instructions != ""
      && (if b.soul.Some? then d.soul == Trim(b.soul.value) else d.soul == "")
    ensures var d := Derive(b, fits, secret).d;
      exists entries, listed, rest :: SkillsListed(b.skills, entries) && InFileOrder(d.catalogSkills, entries, true)
        && d.bundleSkills == listed + rest && InFileOrder(listed, entries, false) && InPathOrder(rest, listed, b)
    ensures var d := Derive(b, fits, secret).d;
      exists servers :: ServersListed(b.servers, servers) && Parts(servers, d.connectorIds, d.unbound)
  {
    var d := Derive(b, fits, secret).d;
    var entries, servers := EntriesOf(b.skills).value, ServersOf(b.servers).value;
    ListedInOrder(entries);
    LoadsInOrder(b, entries);
    var listed, rest :| LoadOrder(entries, SkillsOf(b)) == listed + rest && InFileOrder(listed, entries, false)
        && InPathOrder(rest, listed, b);
    assert SkillsListed(b.skills, entries) && d.bundleSkills == listed + rest;
    ServersPart(servers);
    assert ServersListed(b.servers, servers);
  }

  /** agent.json is no object, or has another schema. */
  predicate AgentDefective(file: File<map<string, Json>>) {
    || file.Garbled?
    || (file.Holds? && "schema" in file.doc && file.doc["schema"] !in {JNull, JString(""), JString("orbit.agent/v1")})
  }

  predicate SkillsDefective(file: File<seq<SkillEntry>>) {
    !file.Absent? && (!file.Holds? || exists i | 0 <= i < |file.doc| :: Skills.Defective(file.doc, i))
  }

  predicate ServersDefective(file: File<Servers>) {
    && !file.Absent?
    && (|| !file.Holds? || file.doc.NotAnObject?
        || (file.doc.Listed? && exists i | 0 <= i < |file.doc.entries| ::
              || Mcp.Defective(file.doc.entries[i])
              || exists k | 0 <= k < i :: file.doc.entries[k].name == file.doc.entries[i].name))
  }

  /** A bundle skill is listed, and the bundle has no SKILL.md for it. */
  predicate SkillIsMissing(b: Bundle) {
    && b.skills.Holds?
    && exists i | 0 <= i < |b.skills.doc| ::
         && b.skills.doc[i].source == "bundle"
         && ('/' in b.skills.doc[i].name || PathOf(b.skills.doc[i].name) !in b.others)
  }

  predicate HasLiteral(file: File<Servers>, secret: map<string, Json> -> bool) {
    && file.Holds? && file.doc.Listed?
    && exists i | 0 <= i < |file.doc.entries| ::
         file.doc.entries[i].value.JObject? && secret(file.doc.entries[i].value.fields)
  }

  /** What is wrong with a bundle, in the order of the checks. */
  function FirstDefect(b: Bundle, fits: Bundle -> bool, secret: map<string, Json> -> bool): Option<Problem> {
    if !fits(b) then Some(BundleUnfit)
    else if b.agents.None? || Trim(b.agents.value) == "" then Some(AgentsRequired)
    else if AgentDefective(b.agent) then Some(AgentInvalid)
    else if SkillsDefective(b.skills) then Some(SkillsInvalid)
    else if SkillIsMissing(b) then Some(SkillMissing)
    else if ServersDefective(b.servers) then Some(ServersInvalid)
    else if HasLiteral(b.servers, secret) then Some(LiteralSecret)
    else None
  }

  lemma MissingExactly(b: Bundle)
    requires EntriesOf(b.skills).Some?
    ensures (exists name | name in Skills.BundleNames(EntriesOf(b.skills).value) :: name !in SkillsOf(b)) <==>
              SkillIsMissing(b)
  {
    var entries := EntriesOf(b.skills).value;
    Skills.BundleNamesFacts(entries);
    SkillsOfFacts(b);
    if SkillIsMissing(b) {
      var i :| 0 <= i < |entries| && entries[i].source == "bundle"
          && ('/' in entries[i].name || PathOf(entries[i].name) !in b.others);
      assert entries[i].name in Skills.BundleNames(entries) && entries[i].name !in SkillsOf(b);
    }
  }

  lemma LiteralExactly(file: File<Servers>, secret: map<string, Json> -> bool)
    requires ServersOf(file).Some?
    ensures (exists server | server in ServersOf(file).value :: secret(server.obj)) <==> HasLiteral(file, secret)
  {
    var servers := ServersOf(file).value;
    if HasLiteral(file, secret) {
      var i :| 0 <= i < |file.doc.entries| && file.doc.entries[i].value.JObject?
          && secret(file.doc.entries[i].value.fields);
      assert servers[i] in servers && secret(servers[i].obj);
    }
    if server :| server in servers && secret(server.obj) {
      var i :| 0 <= i < |servers| && servers[i] == server;
      assert file.doc.entries[i].value.fields == server.obj;
    }
  }

  lemma DefectsExactly(b: Bundle)
    ensures AgentFits(b.agent) <==> !AgentDefective(b.agent)
    ensures EntriesOf(b.skills).Some? <==> !SkillsDefective(b.skills)
    ensures ServersOf(b.servers).Some? <==> !ServersDefective(b.servers)
  {
    Skills.RefusedExactly(b.skills);
    Mcp.RefusedExactly(b.servers);
  }

  /** A bundle is refused if and only if it has a defect, and with the first one it has. */
  lemma RefusedExactly(b: Bundle, fits: Bundle -> bool, secret: map<string, Json> -> bool)
    ensures Derive(b, fits, secret).Refused? <==> FirstDefect(b, fits, secret).Some?
    ensures Derive(b, fits, secret).Refused? ==>
              FirstDefect(b, fits, secret) == Some(Derive(b, fits, secret).problem)
  {
    DefectsExactly(b);
    if EntriesOf(b.skills).Some? {
      MissingExactly(b);
    }
    if ServersOf(b.servers).Some? {
      LiteralExactly(b.servers, secret);
    }
  }

  /** The rendered mcp.json: the entries of the form's connectors, called after them, then those that are not bound. */
  lemma FormServersComeFirst(form: Form, base: Bundle, connectors: Mcp.Connectors)
    requires ById(connectors)
    ensures exists bound, rest :: McpEntries(form, base, connectors) == bound + rest
              && (forall s | s in bound :: Mcp.IsBound(s) && Mcp.CalledAfter(s, Mcp.Previous(base.servers), connectors))
              && AllDescribe(bound, form.connectorIds, connectors) && rest == Mcp.UnboundOf(Mcp.Previous(base.servers))
  {
    var prev := Mcp.Previous(base.servers);
    var rest := Mcp.UnboundOf(prev);
    var bound := Mcp.Bound(form.connectorIds, connectors, Mcp.NamesById(prev), Mcp.Names(rest));
    BoundToTheForm(form.connectorIds, connectors, Mcp.NamesById(prev), Mcp.Names(rest));
    BoundDescribe(form.connectorIds, connectors, Mcp.NamesById(prev), Mcp.Names(rest));
    Mcp.BoundAreCalledAfter(form.connectorIds, connectors, prev, Mcp.Names(rest));
    assert McpEntries(form, base, connectors) == bound + rest;
  }
}
