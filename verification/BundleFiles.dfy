/**
 * The files of an agent bundle (internal/app/bundle.go). The three JSON files are kept as the values they hold, because
 * the text encoding of JSON plays no part; the two Markdown files and every other file are text.
 */
module BundleFiles {
  import opened Common
  import opened Strings

  datatype Json =
    | JNull
    | JBool(b: bool)
    | JNumber(n: real)
    | JString(s: string)
    | JList(items: seq<Json>)
    | JObject(fields: map<string, Json>)

  /** A JSON file: not there, empty, of another shape than its reader expects, or holding a document. */
  datatype File<+T> = Absent | Blank | Garbled | Holds(doc: T)

  /** An entry of skills.json. */
  datatype SkillEntry = SkillEntry(name: string, source: string, id: string)

  /** The value of mcpServers in mcp.json; its entries are in the order in which they were written. */
  datatype Servers = NoServers | NotAnObject | Listed(entries: seq<Entry>)

  datatype Entry = Entry(name: string, value: Json)

  /** AGENTS.md, SOUL.md, agent.json, skills.json, mcp.json, and the other files by path. */
  datatype Bundle = Bundle(
    agents: Option<string>, soul: Option<string>, agent: File<map<string, Json>>, skills: File<seq<SkillEntry>>,
    servers: File<Servers>, others: map<string, string>)

  /** A missing file reads as the empty text. */
  function TextOf(file: Option<string>): string {
    if file.Some? then file.value else ""
  }

  function OrDefault(value: string, fallback: string): string {
    if value != "" then value else fallback
  }

  function At(values: map<string, string>, key: string): string {
    if key in values then values[key] else ""
  }

  // ---- sorted paths ----

  predicate Ascending(paths: seq<string>) {
    forall i, j | 0 <= i < j < |paths| :: LexLess(paths[i], paths[j])
  }

  function Insert(path: string, sorted: seq<string>): seq<string> {
    if sorted == [] || LexLess(path, sorted[0]) then [path] + sorted else [sorted[0]] + Insert(path, sorted[1..])
  }

  /** sort.Strings. */
  function Sorted(paths: seq<string>): seq<string> {
    if paths == [] then [] else Insert(paths[|paths| - 1], Sorted(paths[..|paths| - 1]))
  }

  lemma {:induction false} InsertFacts(path: string, sorted: seq<string>)
    requires Ascending(sorted) && path !in sorted
    ensures Ascending(Insert(path, sorted))
    ensures forall p :: p in Insert(path, sorted) <==> p == path || p in sorted
  {
    if sorted != [] && !LexLess(path, sorted[0]) {
      var rest := sorted[1..];
      InsertFacts(path, rest);
      LexLessTotal(path, sorted[0]);
      assert sorted == [sorted[0]] + rest;
      forall p | p in Insert(path, rest) ensures LexLess(sorted[0], p) {
      }
      assert forall k | 0 <= k < |Insert(path, rest)| :: Insert(path, rest)[k] in Insert(path, rest);
    } else if sorted != [] {
      forall k | 0 <= k < |sorted| ensures LexLess(path, sorted[k]) {
        if k > 0 {
          LexLessTransitive(path, sorted[0], sorted[k]);
        }
      }
    }
  }

  lemma {:induction false} SortedFacts(paths: seq<string>)
    requires Distinct(paths)
    ensures Ascending(Sorted(paths))
    ensures forall p :: p in Sorted(paths) <==> p in paths
  {
    if paths != [] {
      var front, last := paths[..|paths| - 1], paths[|paths| - 1];
      assert paths == front + [last];
      SortedFacts(front);
      assert last !in front;
      InsertFacts(last, Sorted(front));
    }
  }

  /** The one ascending list of a set of paths. */
  ghost function InOrder(paths: set<string>): seq<string> {
    if paths == {} then [] else
      var p :| p in paths;
      Insert(p, InOrder(paths - {p}))
  }

  lemma {:induction false} InOrderFacts(paths: set<string>)
    ensures Ascending(InOrder(paths))
    ensures forall p :: p in InOrder(paths) <==> p in paths
  {
    if paths != {} {
      var p :| p in paths && InOrder(paths) == Insert(p, InOrder(paths - {p}));
      InOrderFacts(paths - {p});
      InsertFacts(p, InOrder(paths - {p}));
    }
  }

  lemma FirstIsLeast(a: seq<string>, p: string)
    requires Ascending(a) && p in a
    ensures a[0] == p || LexLess(a[0], p)
  {
  }

  lemma {:induction false} AscendingIsUnique(a: seq<string>, b: seq<string>)
    requires Ascending(a) && Ascending(b) && forall p :: p in a <==> p in b
    ensures a == b
  {
    assert b != [] ==> b[0] in b;
    if a != [] {
      assert a[0] in b;
      FirstIsLeast(a, b[0]);
      FirstIsLeast(b, a[0]);
      LexLessTotal(a[0], b[0]);
      assert a == [a[0]] + a[1..] && b == [b[0]] + b[1..];
      forall p ensures p in a[1..] <==> p in b[1..] {
        LexLessTotal(a[0], a[0]);
        assert p in a[1..] ==> p in a && p != a[0];
        assert p in b[1..] ==> p in b && p != b[0];
      }
      AscendingIsUnique(a[1..], b[1..]);
    }
  }

  /** `sortedPaths`: the keys in whatever order the map gives them, then sorted. */
  method SortedPaths(files: map<string, string>) returns (paths: seq<string>)
    ensures paths == InOrder(files.Keys)
  {
    paths := [];
    var rest := files.Keys;
    while rest != {}
      invariant rest <= files.Keys && Distinct(paths)
      invariant forall p :: p in paths <==> p in files.Keys - rest
    {
      var p :| p in rest;
      assert p !in paths;
      paths := paths + [p];
      rest := rest - {p};
    }
    SortedFacts(paths);
    paths := Sorted(paths);
    InOrderFacts(files.Keys);
    AscendingIsUnique(paths, InOrder(files.Keys));
  }

  // ---- skill directories ----

  const SKILLS_DIR := "skills/"
  const SKILL_FILE := "SKILL.md"

  function IndexOf(s: string, c: char): (i: nat)
    ensures i <= |s| && c !in s[..i] && (i < |s| ==> s[i] == c)
  {
    if s == [] || s[0] == c then 0 else
      var i := 1 + IndexOf(s[1..], c);
      assert s[..i] == [s[0]] + s[1..][..i - 1];
      i
  }

  /** The directory of a SKILL.md one level down, by strings.Cut. */
  function DirectoryIn(rest: string): Option<string> {
    var slash := IndexOf(rest, '/');
    if slash < |rest| && rest[slash + 1..] == SKILL_FILE then Some(rest[..slash]) else None
  }

  /** The skill whose SKILL.md the path is. */
  function SkillAt(path: string): Option<string> {
    if SKILLS_DIR <= path then DirectoryIn(path[|SKILLS_DIR|..]) else None
  }

  function PathOf(name: string): string {
    SKILLS_DIR + name + "/" + SKILL_FILE
  }

  lemma FirstSlash(rest: string, name: string)
    requires '/' !in name && name + "/" <= rest
    ensures IndexOf(rest, '/') == |name|
  {
    var slash := IndexOf(rest, '/');
    assert (name + "/")[|name|] == '/' == rest[|name|];
    assert forall k | 0 <= k < |name| :: rest[k] == name[k] && name[k] in name;
    assert forall k | 0 <= k < slash :: rest[..slash][k] == rest[k];
  }

  lemma DirectoryInFacts(rest: string, name: string)
    ensures DirectoryIn(rest) == Some(name) <==> rest == name + "/" + SKILL_FILE && '/' !in name
  {
    var slash := IndexOf(rest, '/');
    if slash < |rest| {
      assert rest == rest[..slash] + "/" + rest[slash + 1..];
    }
    if '/' !in name && rest == name + "/" + SKILL_FILE {
      FirstSlash(rest, name);
      assert rest[..|name|] == name && rest[|name| + 1..] == SKILL_FILE;
    }
  }

  lemma SkillAtFacts(path: string, name: string)
    ensures SkillAt(path) == Some(name) <==> path == PathOf(name) && '/' !in name
  {
    if SKILLS_DIR <= path {
      var rest := path[|SKILLS_DIR|..];
      DirectoryInFacts(rest, name);
      assert path == SKILLS_DIR + rest;
      assert PathOf(name) == SKILLS_DIR + (name + "/" + SKILL_FILE);
      assert PathOf(name)[|SKILLS_DIR|..] == name + "/" + SKILL_FILE;
    } else {
      assert SKILLS_DIR <= SKILLS_DIR + name;
    }
  }

  function SkillNames(paths: seq<string>): seq<string> {
    if paths == [] then [] else
      SkillNames(paths[..|paths| - 1]) +
      match SkillAt(paths[|paths| - 1])
      case Some(name) => [name]
      case None => []
  }

  lemma {:induction false} SkillNamesFacts(paths: seq<string>)
    ensures forall name :: name in SkillNames(paths) <==> '/' !in name && PathOf(name) in paths
    ensures Distinct(paths) ==> Distinct(SkillNames(paths))
  {
    if paths != [] {
      var front, last := paths[..|paths| - 1], paths[|paths| - 1];
      assert paths == front + [last];
      SkillNamesFacts(front);
      forall name ensures SkillAt(last) == Some(name) <==> last == PathOf(name) && '/' !in name {
        SkillAtFacts(last, name);
      }
      if Distinct(paths) {
        assert last !in front;
        assert Distinct(front);
      }
    }
  }

  /** The skills the bundle brings along, in the order in which they load. */
  ghost function SkillsOf(b: Bundle): seq<string> {
    SkillNames(InOrder(b.others.Keys))
  }

  lemma SkillsOfFacts(b: Bundle)
    ensures Distinct(SkillsOf(b))
    ensures forall name :: name in SkillsOf(b) <==> '/' !in name && PathOf(name) in b.others
  {
    var paths := InOrder(b.others.Keys);
    InOrderFacts(b.others.Keys);
    SkillNamesFacts(paths);
    forall i, j | 0 <= i < j < |paths| ensures paths[i] != paths[j] {
      LexLessTotal(paths[i], paths[j]);
    }
  }

  /** The directories are those of skills/ that hold a SKILL.md. */
  lemma SkillsSay(b: Bundle, name: string)
    ensures name in SkillsOf(b) <==> '/' !in name && "skills/" + name + "/SKILL.md" in b.others
  {
    SkillsOfFacts(b);
    assert PathOf(name) == "skills/" + name + "/SKILL.md";
  }

  method BundleSkillNames(b: Bundle) returns (names: seq<string>)
    ensures names == SkillsOf(b)
  {
    names := [];
    var paths := SortedPaths(b.others);
    for i := 0 to |paths|
      invariant names == SkillNames(paths[..i])
    {
      assert paths[..i + 1][..i] == paths[..i];
      var path := paths[i];
      if SKILLS_DIR <= path {
        var rest := path[|SKILLS_DIR|..];
        var slash := IndexOf(rest, '/');
        if slash < |rest| && rest[slash + 1..] == SKILL_FILE {
          names := names + [rest[..slash]];
        }
      }
    }
    assert paths[..|paths|] == paths;
  }

  // ---- the order of skill directories ----

  lemma {:induction false} CommonStem(stem: string, a: string, b: string)
    ensures LexLess(stem + a, stem + b) <==> LexLess(a, b)
  {
    if stem == [] {
      assert stem + a == a && stem + b == b;
    } else {
      CommonStem(stem[1..], a, b);
      assert (stem + a)[1..] == stem[1..] + a && (stem + b)[1..] == stem[1..] + b;
    }
  }

  lemma {:induction false} ReversedExactly(a: string, b: string)
    requires a != b && '/' !in a && '/' !in b
    ensures LexLess(b + "/" + SKILL_FILE, a + "/" + SKILL_FILE) && LexLess(a, b) <==> a < b && b[|a|] < '/'
  {
    var x, y := a + "/" + SKILL_FILE, b + "/" + SKILL_FILE;
    LexLessTotal(a, b);
    if a == [] {
      assert y[0] == b[0] && b[0] in b && x[0] == '/';
    } else if b == [] {
    } else {
      assert x[0] == a[0] && y[0] == b[0];
      assert x[1..] == a[1..] + "/" + SKILL_FILE && y[1..] == b[1..] + "/" + SKILL_FILE;
      if a[0] == b[0] {
        assert a == [a[0]] + a[1..] && b == [b[0]] + b[1..];
        ReversedExactly(a[1..], b[1..]);
        assert a < b <==> a[1..] < b[1..];
      }
    }
  }

  lemma PathsCompareByName(a: string, b: string)
    ensures LexLess(PathOf(b), PathOf(a)) <==> LexLess(b + "/" + SKILL_FILE, a + "/" + SKILL_FILE)
  {
    var x, y := a + "/" + SKILL_FILE, b + "/" + SKILL_FILE;
    CommonStem(SKILLS_DIR, y, x);
    assert PathOf(a) == SKILLS_DIR + x;
    assert PathOf(b) == SKILLS_DIR + y;
  }

  /**
   * Skill directories are read in path order, which is not name order: it puts a later name first exactly when the
   * earlier name is its proper prefix and what follows sorts before a slash, as in "a" and "a-b".
   */
  lemma PathOrderIsNotNameOrder(a: string, b: string)
    requires a != b && '/' !in a && '/' !in b
    ensures LexLess(a, b) && LexLess(PathOf(b), PathOf(a)) <==> a < b && b[|a|] < '/'
  {
    ReversedExactly(a, b);
    PathsCompareByName(a, b);
  }
}
