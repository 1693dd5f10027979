/**
 * mcp.json: its reader, the entry of a connector, and how a form is rendered into it (internal/app/bundle.go:206-316
 * and 414-472, 635-668).
 */
module BundleServers {
  import opened Common
  import opened Strings
  import opened BundleFiles

  /** An entry as it is read: its fields are all that its author wrote. */
  datatype Server = Server(name: string, obj: map<string, Json>)

  /** A connector of the tenant. */
  datatype Connector = Connector(
    id: string, name: string, url: string, transport: string, headers: seq<HeaderRef>, command: string,
        args: seq<string>,
    envRefs: seq<string>)

  datatype HeaderRef = HeaderRef(name: string, env: string)

  type Connectors = map<string, Connector>

  function Str(obj: map<string, Json>, key: string): string {
    if key in obj && obj[key].JString? then obj[key].s else ""
  }

  function ConnectorId(server: Server): string {
    Str(server.obj, "connector_id")
  }

  // ---- reading ----

  predicate IsText(obj: map<string, Json>, key: string) {
    key in obj ==> obj[key].JString?
  }

  predicate IsTexts(obj: map<string, Json>, key: string) {
    key in obj ==> obj[key].JObject? && forall k | k in obj[key].fields :: obj[key].fields[k].JString?
  }

  predicate IsTextList(obj: map<string, Json>, key: string) {
    key in obj ==> obj[key].JList? && forall item | item in obj[key].items :: item.JString?
  }

  /** `check`. */
  predicate Checks(obj: map<string, Json>) {
    && IsText(obj, "url") && IsText(obj, "transport") && IsText(obj, "command") && IsText(obj, "connector_id")
    && (Str(obj, "url") != "" || Str(obj, "command") != "")
    && Str(obj, "transport") in {"", "streamable_http", "sse", "stdio"}
    && IsTexts(obj, "headers") && IsTexts(obj, "env") && IsTextList(obj, "args")
  }

  predicate EntryFits(e: Entry) {
    e.name != "" && e.value.JObject? && Checks(e.value.fields)
  }

  /** Every entry is an object that checks, under a name of its own. */
  predicate EntriesFit(entries: seq<Entry>) {
    && (forall i | 0 <= i < |entries| :: EntryFits(entries[i]))
    && (forall i, j | 0 <= i < j < |entries| :: entries[i].name != entries[j].name)
  }

  function AsServers(entries: seq<Entry>): seq<Server>
    requires forall i | 0 <= i < |entries| :: entries[i].value.JObject?
  {
    seq(|entries|, i requires 0 <= i < |entries| => Server(entries[i].name, entries[i].value.fields))
  }

  function AsEntries(servers: seq<Server>): seq<Entry> {
    seq(|servers|, i requires 0 <= i < |servers| => Entry(servers[i].name, JObject(servers[i].obj)))
  }

  function Read(file: File<Servers>): Option<seq<Server>> {
    if !file.Holds? || file.doc.NotAnObject? then None
    else if file.doc.NoServers? then Some([])
    else if EntriesFit(file.doc.entries) then Some(AsServers(file.doc.entries))
    else None
  }

  /** `parseMCPJSON`: it accepts exactly the objects whose entries fit, in the order in which they were written. */
  method ParseServers(file: File<Servers>) returns (servers: Option<seq<Server>>)
    ensures servers == Read(file)
  {
    if !file.Holds? || file.doc.NotAnObject? {
      return None;
    }
    if file.doc.NoServers? {
      return Some([]);
    }
    var entries := file.doc.entries;
    var read: seq<Server>, seen: set<string> := [], {};
    for i := 0 to |entries|
      invariant EntriesFit(entries[..i]) && read == AsServers(entries[..i])
      invariant forall name :: name in seen <==> exists k | 0 <= k < i :: entries[k].name == name
    {
      var e := entries[i];
      if !e.value.JObject? || e.name == "" || !Checks(e.value.fields) {
        assert !EntryFits(entries[i]);
        return None;
      }
      if e.name in seen {
        return None;
      }
      assert forall k | 0 <= k < i :: entries[..i][k] == entries[k];
      assert entries[..i + 1] == entries[..i] + [e];
      seen := seen + {e.name};
      read := read + [Server(e.name, e.value.fields)];
    }
    assert entries[..|entries|] == entries;
    servers := Some(read);
  }

  /** The entries a reader accepts, as servers. */
  predicate ServersFit(servers: seq<Server>) {
    && (forall s | s in servers :: s.name != "" && Checks(s.obj))
    && (forall i, j | 0 <= i < j < |servers| :: servers[i].name != servers[j].name)
  }

  lemma WrittenFits(servers: seq<Server>)
    ensures EntriesFit(AsEntries(servers)) <==> ServersFit(servers)
  {
    var entries := AsEntries(servers);
    if EntriesFit(entries) {
      forall s | s in servers ensures s.name != "" && Checks(s.obj) {
        var i :| 0 <= i < |servers| && servers[i] == s;
        assert EntryFits(entries[i]);
      }
      forall i, j | 0 <= i < j < |servers| ensures servers[i].name != servers[j].name {
        assert entries[i].name != entries[j].name;
      }
    }
    if ServersFit(servers) {
      assert forall i | 0 <= i < |servers| :: servers[i] in servers;
    }
  }

  lemma WhatIsReadFits(file: File<Servers>)
    ensures Read(file).Some? ==> ServersFit(Read(file).value)
  {
    if Read(file).Some? && file.doc.Listed? {
      var entries, servers := file.doc.entries, Read(file).value;
      forall s | s in servers ensures s.name != "" && Checks(s.obj) {
        var i :| 0 <= i < |servers| && servers[i] == s;
        assert EntryFits(entries[i]);
      }
    }
  }

  /** The reader gives back what was written, whenever it accepts it. */
  lemma ReadBack(servers: seq<Server>)
    ensures var read := Read(Holds(Listed(AsEntries(servers))));
        read.Some? ==> read.value == servers && (forall s | s in servers :: s.name != "")
  {
  }

  function Names(servers: seq<Server>): set<string> {
    set i | 0 <= i < |servers| :: servers[i].name
  }

  predicate IsBound(server: Server) {
    ConnectorId(server) != ""
  }

  predicate IsUnbound(server: Server) {
    !IsBound(server)
  }

  function UnboundOf(servers: seq<Server>): seq<Server> {
    Filter(IsUnbound, servers)
  }

  function IdsOf(servers: seq<Server>): seq<string> {
    seq(|servers|, i requires 0 <= i < |servers| => ConnectorId(servers[i]))
  }

  /** The connector ids of the bound entries, in the order of the file. */
  function BoundIds(servers: seq<Server>): seq<string> {
    IdsOf(Filter(IsBound, servers))
  }

  /** The name the entry of each connector had; the last one counts. */
  function NamesById(servers: seq<Server>): map<string, string> {
    if servers == [] then map[] else
      var last := servers[|servers| - 1];
      var before := NamesById(servers[..|servers| - 1]);
      if IsBound(last) then before[ConnectorId(last) := last.name] else before
  }

  // ---- the entry of a connector ----

  /** Only the name of a secret appears. */
  function Placeholder(env: string): Json {
    JString("${secret:" + env + "}")
  }

  function HeaderMap(refs: seq<HeaderRef>): map<string, Json> {
    if refs == [] then map[] else
      HeaderMap(refs[..|refs| - 1])[refs[|refs| - 1].name := Placeholder(refs[|refs| - 1].env)]
  }

  function EnvMap(refs: seq<string>): map<string, Json> {
    map ref | ref in refs :: Placeholder(ref)
  }

  function TextList(texts: seq<string>): Json {
    JList(seq(|texts|, i requires 0 <= i < |texts| => JString(texts[i])))
  }

  function ConnectorFields(rec: Connector): map<string, Json> {
    var id := map["connector_id" := JString(rec.id)];
    if rec.url != "" then
      var remote := id[
        "url" := JString(rec.url)][
        "transport" := JString(if rec.transport == "" || rec.transport == "stdio" then "streamable_http"
            else rec.transport)];
      if rec.headers == [] then remote else remote["headers" := JObject(HeaderMap(rec.headers))]
    else
      var stdio := id["command" := JString(rec.command)];
      var args := if rec.args == [] then stdio else stdio["args" := TextList(rec.args)];
      if rec.envRefs == [] then args else args["env" := JObject(EnvMap(rec.envRefs))]
  }

  method ConnectorServer(name: string, rec: Connector) returns (server: Server)
    ensures server == Server(name, ConnectorFields(rec))
  {
    var obj := map["connector_id" := JString(rec.id)];
    if rec.url != "" {
      obj := obj["url" := JString(rec.url)];
      var transport := rec.transport;
      if transport == "" || transport == "stdio" {
        transport := "streamable_http";
      }
      obj := obj["transport" := JString(transport)];
      if |rec.headers| > 0 {
        var headers: map<string, Json> := map[];
        for i := 0 to |rec.headers|
          invariant headers == HeaderMap(rec.headers[..i])
        {
          assert rec.headers[..i + 1][..i] == rec.headers[..i];
          headers := headers[rec.headers[i].name := Placeholder(rec.headers[i].env)];
        }
        assert rec.headers[..|rec.headers|] == rec.headers;
        obj := obj["headers" := JObject(headers)];
      }
    } else {
      obj := obj["command" := JString(rec.command)];
      if |rec.args| > 0 {
        obj := obj["args" := TextList(rec.args)];
      }
      if |rec.envRefs| > 0 {
        var env: map<string, Json> := map[];
        for i := 0 to |rec.envRefs|
          invariant env == EnvMap(rec.envRefs[..i])
        {
          assert rec.envRefs[..i + 1] == rec.envRefs[..i] + [rec.envRefs[i]];
          env := env[rec.envRefs[i] := Placeholder(rec.envRefs[i])];
        }
        assert rec.envRefs[..|rec.envRefs|] == rec.envRefs;
        obj := obj["env" := JObject(env)];
      }
    }
    server := Server(name, obj);
  }

  lemma {:induction false} HeaderMapIsText(refs: seq<HeaderRef>)
    ensures forall k | k in HeaderMap(refs) :: HeaderMap(refs)[k].JString?
  {
    if refs != [] {
      HeaderMapIsText(refs[..|refs| - 1]);
    }
  }

  /** The connector has a url and a transport that is known, or else a command. */
  predicate Loadable(rec: Connector) {
    if rec.url != "" then rec.transport in {"", "stdio", "streamable_http", "sse"} else rec.command != ""
  }

  /** The entry names its connector, and the reader accepts it exactly when the connector can be loaded. */
  lemma ConnectorEntryFits(name: string, rec: Connector)
    ensures ConnectorId(Server(name, ConnectorFields(rec))) == rec.id
    ensures Checks(ConnectorFields(rec)) <==> Loadable(rec)
  {
    HeaderMapIsText(rec.headers);
  }

  // ---- fresh names ----

  function Numbered(stem: string, n: nat): string {
    stem + "-" + Decimal(n)
  }

  /** The first of stem-n, stem-(n+1), ... that is not taken. */
  function FreshFrom(stem: string, taken: set<string>, n: nat): string
    decreases taken
  {
    if Numbered(stem, n) in taken then FreshFrom(stem, taken - {Numbered(stem, n)}, n + 1) else Numbered(stem, n)
  }

  function Fresh(stem: string, taken: set<string>): string {
    if stem in taken then FreshFrom(stem, taken, 2) else stem
  }

  lemma {:induction false} FreshFromFacts(stem: string, taken: set<string>, n: nat)
    ensures exists m: nat :: m >= n && FreshFrom(stem, taken, n) == Numbered(stem, m) && Numbered(stem, m) !in taken
              && forall k: nat | n <= k < m :: Numbered(stem, k) in taken
    decreases taken
  {
    var name := Numbered(stem, n);
    if name in taken {
      FreshFromFacts(stem, taken - {name}, n + 1);
      var m: nat :| m >= n + 1 && FreshFrom(stem, taken - {name}, n + 1) == Numbered(stem, m)
          && Numbered(stem, m) !in taken - {name}
        && forall k: nat | n + 1 <= k < m :: Numbered(stem, k) in taken - {name};
      if Numbered(stem, m) == name {
        DecimalInjective(stem + "-", m, n);
      }
      assert FreshFrom(stem, taken, n) == Numbered(stem, m);
    }
  }

  /**
   * A fresh name is not taken; it is the stem itself unless that is taken, and else the least free numbering of it from
   * 2 on.
   */
  lemma FreshFacts(stem: string, taken: set<string>)
    ensures Fresh(stem, taken) !in taken
    ensures stem !in taken ==> Fresh(stem, taken) == stem
    ensures stem in taken ==> exists m: nat :: m >= 2 && Fresh(stem, taken) == Numbered(stem, m)
                                && forall k: nat | 2 <= k < m :: Numbered(stem, k) in taken
  {
    if stem in taken {
      FreshFromFacts(stem, taken, 2);
    }
  }

  /** The loop that looks for a free name; it ends because every name it tries is another one of the taken ones. */
  method FreshName(stem: string, taken: set<string>) returns (name: string)
    ensures name == Fresh(stem, taken)
  {
    name := stem;
    var n: nat := 2;
    ghost var left := taken;
    while name in taken
      invariant n >= 2 && (n == 2 ==> name == stem && left == taken) && (n > 2 ==> name == Numbered(stem, n - 1))
      invariant n > 2 ==> stem in taken && FreshFrom(stem, taken, 2) == FreshFrom(stem, left, n - 1)
      invariant left <= taken && forall m: nat | m >= n - 1 && m >= 2 && Numbered(stem, m) in taken ::
          Numbered(stem, m) in left
      decreases |left|, if n == 2 then 1 else 0
    {
      if n > 2 {
        forall m: nat | m >= n && Numbered(stem, m) in taken ensures Numbered(stem, m) in left - {name} {
          if Numbered(stem, m) == name {
            DecimalInjective(stem + "-", m, n - 1);
          }
        }
        left := left - {name};
      }
      name := Numbered(stem, n);
      n := n + 1;
    }
  }

  // ---- rendering ----

  /** The entries of the form's connectors; a connector that is not known is left out. */
  function Bound(ids: seq<string>, connectors: Connectors, before: map<string, string>,
                 taken: set<string>): seq<Server> {
    if ids == [] then [] else
      var front := Bound(ids[..|ids| - 1], connectors, before, taken);
      var id := ids[|ids| - 1];
      if id !in connectors then front
      else front + [Server(Fresh(Stem(id, connectors[id], before), taken + Names(front)),
          ConnectorFields(connectors[id]))]
  }

  /** The name the connector's entry had, else the connector's own, else its id. */
  function Stem(id: string, rec: Connector, before: map<string, string>): string {
    OrDefault(At(before, id), OrDefault(rec.name, id))
  }

  /** The entries of the rendered file: the form's connectors, then what is not bound. */
  function Rendered(prev: seq<Server>, ids: seq<string>, connectors: Connectors): seq<Server> {
    Bound(ids, connectors, NamesById(prev), Names(UnboundOf(prev))) + UnboundOf(prev)
  }

  function NameSet(names: seq<string>): set<string> {
    set name | name in names
  }

  /** The names that the form's connectors get when no other entry has one. */
  function FreshNames(ids: seq<string>, connectors: Connectors, before: map<string, string>): seq<string> {
    if ids == [] then [] else
      var front := FreshNames(ids[..|ids| - 1], connectors, before);
      var id := ids[|ids| - 1];
      if id !in connectors then front else front + [Fresh(Stem(id, connectors[id], before), NameSet(front))]
  }

  /** The entries have these names. */
  lemma {:induction false} BoundByNames(ids: seq<string>, connectors: Connectors, before: map<string, string>)
    ensures var bound, names := Bound(ids, connectors, before, {}), FreshNames(ids, connectors, before);
      |bound| == |names| && Names(bound) == NameSet(names) && forall i | 0 <= i < |bound| :: bound[i].name == names[i]
  {
    if ids != [] {
      var front, id := ids[..|ids| - 1], ids[|ids| - 1];
      BoundByNames(front, connectors, before);
      if id in connectors {
        var bound, names := Bound(front, connectors, before, {}), FreshNames(front, connectors, before);
        var name := Fresh(Stem(id, connectors[id], before), NameSet(names));
        assert {} + Names(bound) == NameSet(names);
        NamesAppend(bound, Server(name, ConnectorFields(connectors[id])));
        assert NameSet(names + [name]) == NameSet(names) + {name};
      }
    }
  }

  /** What else the entries say does not depend on the names. */
  lemma {:induction false} BoundFields(ids: seq<string>, connectors: Connectors, before: map<string, string>,
                                       other: map<string, string>)
    ensures var a, b := Bound(ids, connectors, before, {}), Bound(ids, connectors, other, {});
      |a| == |b| && forall i | 0 <= i < |a| :: a[i].obj == b[i].obj
  {
    if ids != [] {
      BoundFields(ids[..|ids| - 1], connectors, before, other);
    }
  }

  /** What a file that cannot be read leaves: nothing. */
  function Previous(file: File<Servers>): seq<Server> {
    var prev := Read(file);
    if prev.Some? then prev.value else []
  }

  method SplitServers(prev: seq<Server>) returns (unbound: seq<Server>, taken: set<string>, before: map<string, string>)
    ensures unbound == UnboundOf(prev) && taken == Names(unbound) && before == NamesById(prev)
  {
    unbound, taken, before := [], {}, map[];
    for i := 0 to |prev|
      invariant unbound == UnboundOf(prev[..i]) && taken == Names(unbound) && before == NamesById(prev[..i])
    {
      assert prev[..i + 1][..i] == prev[..i];
      var id := ConnectorId(prev[i]);
      FilterLast(IsUnbound, prev[..i], prev[i]);
      assert prev[..i + 1] == prev[..i] + [prev[i]];
      if id != "" {
        before := before[id := prev[i].name];
      } else {
        NamesAppend(unbound, prev[i]);
        taken := taken + {prev[i].name};
        unbound := unbound + [prev[i]];
      }
    }
    assert prev[..|prev|] == prev;
  }

  lemma NamesAppend(servers: seq<Server>, server: Server)
    ensures Names(servers + [server]) == Names(servers) + {server.name}
  {
    var more := servers + [server];
    forall i | 0 <= i < |servers| ensures servers[i].name in Names(more) {
      assert more[i] == servers[i];
    }
    assert more[|servers|] == server;
  }

  /** The part of `renderBundle` that writes mcp.json. */
  method RenderServers(file: File<Servers>, ids: seq<string>, connectors: Connectors) returns (servers: seq<Server>)
    ensures servers == Rendered(Previous(file), ids, connectors)
  {
    var read := ParseServers(file);
    var unbound, taken, before := SplitServers(if read.Some? then read.value else []);
    ghost var kept := taken;
    var bound: seq<Server> := [];
    for i := 0 to |ids|
      invariant bound == Bound(ids[..i], connectors, before, kept) && taken == kept + Names(bound)
    {
      assert ids[..i + 1][..i] == ids[..i];
      if ids[i] in connectors {
        var rec := connectors[ids[i]];
        var name := FreshName(Stem(ids[i], rec, before), taken);
        taken := taken + {name};
        var server := ConnectorServer(name, rec);
        NamesAppend(bound, server);
        bound := bound + [server];
      }
    }
    assert ids[..|ids|] == ids;
    servers := bound + unbound;
  }

  // ---- what makes an entry unreadable ----

  /** A field that must be a text is something else. */
  predicate WrongText(obj: map<string, Json>) {
    exists key | key in {"url", "transport", "command", "connector_id"} :: key in obj && !obj[key].JString?
  }

  /** A field that must hold texts is something else, or holds something else. */
  predicate WrongTexts(obj: map<string, Json>) {
    || (exists key | key in {"headers", "env"} :: key in obj &&
          (!obj[key].JObject? || exists k | k in obj[key].fields :: !obj[key].fields[k].JString?))
    || ("args" in obj && (!obj["args"].JList? || exists item | item in obj["args"].items :: !item.JString?))
  }

  /** Neither an address nor a command. */
  predicate Nowhere(obj: map<string, Json>) {
    ("url" !in obj || obj["url"] == JString("")) && ("command" !in obj || obj["command"] == JString(""))
  }

  predicate UnknownTransport(obj: map<string, Json>) {
    "transport" in obj && obj["transport"] !in
      {JString(""), JString("streamable_http"), JString("sse"), JString("stdio")}
  }

  predicate Defective(e: Entry) {
    || e.name == "" || !e.value.JObject?
    || WrongText(e.value.fields) || WrongTexts(e.value.fields) || Nowhere(e.value.fields)
    || UnknownTransport(e.value.fields)
  }

  lemma FitsUnlessDefective(e: Entry)
    ensures EntryFits(e) <==> !Defective(e)
  {
    if e.value.JObject? {
      var obj := e.value.fields;
      assert WrongText(obj) <==>
        !IsText(obj, "url") || !IsText(obj, "transport") || !IsText(obj, "command") || !IsText(obj, "connector_id");
      assert WrongTexts(obj) <==> !IsTexts(obj, "headers") || !IsTexts(obj, "env") || !IsTextList(obj, "args");
    }
  }

  /** A document is refused if and only if it is none, or an entry is defective or has the name of another one. */
  lemma RefusedExactly(file: File<Servers>)
    ensures Read(file).None? <==>
      || !file.Holds? || file.doc.NotAnObject?
      || (file.doc.Listed? && exists i | 0 <= i < |file.doc.entries| ::
            || Defective(file.doc.entries[i])
            || exists k | 0 <= k < i :: file.doc.entries[k].name == file.doc.entries[i].name)
  {
    if file.Holds? && file.doc.Listed? {
      var entries := file.doc.entries;
      forall i | 0 <= i < |entries| ensures EntryFits(entries[i]) <==> !Defective(entries[i]) {
        FitsUnlessDefective(entries[i]);
      }
    }
  }

  // ---- what the entry of a connector says ----

  /** The placeholder names the secret and nothing else of it. */
  predicate NamesSecret(value: Json, env: string) {
    value == JString("${secret:" + env + "}")
  }

  lemma {:induction false} HeadersSay(refs: seq<HeaderRef>, i: nat)
    requires i < |refs| && forall j | i < j < |refs| :: refs[j].name != refs[i].name
    ensures refs[i].name in HeaderMap(refs) && NamesSecret(HeaderMap(refs)[refs[i].name], refs[i].env)
  {
    if i < |refs| - 1 {
      assert forall j | i < j < |refs| - 1 :: refs[..|refs| - 1][j] == refs[j];
      HeadersSay(refs[..|refs| - 1], i);
      assert refs[|refs| - 1].name != refs[i].name;
    }
  }

  lemma {:induction false} HeadersAreTheirs(refs: seq<HeaderRef>)
    ensures forall name :: name in HeaderMap(refs) <==> exists i | 0 <= i < |refs| :: refs[i].name == name
  {
    if refs != [] {
      var front := refs[..|refs| - 1];
      HeadersAreTheirs(front);
      assert forall i | 0 <= i < |front| :: front[i] == refs[i];
    }
  }

  /** The entry of a connector: its id, and either url, transport and headers or command, arguments and environment. */
  lemma EntrySays(rec: Connector)
    ensures var obj := ConnectorFields(rec);
      && "connector_id" in obj && obj["connector_id"] == JString(rec.id)
      && (if rec.url != "" then
            && "url" in obj && obj["url"] == JString(rec.url) && "transport" in obj
            && obj["transport"] == JString(if rec.transport in {"", "stdio"} then "streamable_http" else rec.transport)
            && ("headers" in obj <==> rec.headers != [])
            && "command" !in obj && "args" !in obj && "env" !in obj
          else
            && "command" in obj && obj["command"] == JString(rec.command)
            && ("args" in obj <==> rec.args != []) && ("env" in obj <==> rec.envRefs != [])
            && "url" !in obj && "transport" !in obj && "headers" !in obj)
  {
  }

  /** Every secret of a header or of the environment is there by its name only; the last header of a name counts. */
  lemma SecretsAreNamed(rec: Connector)
    ensures var obj := ConnectorFields(rec);
      "headers" in obj ==>
        && obj["headers"].JObject?
        && (forall name :: name in obj["headers"].fields <==> exists i | 0 <= i < |rec.headers| ::
              rec.headers[i].name == name)
        && (forall i | 0 <= i < |rec.headers| && (forall j | i < j < |rec.headers| ::
              rec.headers[j].name != rec.headers[i].name) ::
              NamesSecret(obj["headers"].fields[rec.headers[i].name], rec.headers[i].env))
    ensures var obj := ConnectorFields(rec);
      "env" in obj ==>
        && obj["env"].JObject? && (forall name :: name in obj["env"].fields <==> name in rec.envRefs)
        && forall name | name in rec.envRefs :: NamesSecret(obj["env"].fields[name], name)
  {
    HeadersAreTheirs(rec.headers);
    if "headers" in ConnectorFields(rec) {
      assert ConnectorFields(rec)["headers"] == JObject(HeaderMap(rec.headers));
    }
    forall i | 0 <= i < |rec.headers|
        && (forall j | i < j < |rec.headers| :: rec.headers[j].name != rec.headers[i].name)
      ensures rec.headers[i].name in HeaderMap(rec.headers)
      ensures NamesSecret(HeaderMap(rec.headers)[rec.headers[i].name], rec.headers[i].env)
    {
      HeadersSay(rec.headers, i);
    }
  }

  lemma ArgumentsSay(rec: Connector)
    ensures var obj := ConnectorFields(rec);
      "args" in obj ==>
        && obj["args"].JList? && |obj["args"].items| == |rec.args|
        && forall i | 0 <= i < |rec.args| :: obj["args"].items[i] == JString(rec.args[i])
  {
    if "args" in ConnectorFields(rec) {
      assert ConnectorFields(rec)["args"] == TextList(rec.args);
    }
  }

  // ---- which name it gets ----

  /** The name the last entry of the connector had in a file; empty when it had none. */
  predicate WasNamed(prev: seq<Server>, id: string, name: string) {
    if prev == [] then name == "" else
      var last := prev[|prev| - 1];
      if "connector_id" in last.obj && last.obj["connector_id"] == JString(id) && id != "" then name == last.name
      else WasNamed(prev[..|prev| - 1], id, name)
  }

  lemma {:induction false} NamesByIdTell(prev: seq<Server>, id: string)
    requires id != ""
    ensures WasNamed(prev, id, At(NamesById(prev), id))
  {
    if prev != [] {
      NamesByIdTell(prev[..|prev| - 1], id);
    }
  }

  /** The name, or a numbering of it from 2 on. */
  ghost predicate NamedAfter(name: string, stem: string) {
    name == stem || exists n: nat :: n >= 2 && name == stem + "-" + Decimal(n)
  }

  /** The stem: what the connector's entry was called, else the connector's own name, else its id. */
  predicate IsStem(stem: string, prev: seq<Server>, id: string, rec: Connector) {
    if WasNamed(prev, id, "") then stem == (if rec.name != "" then rec.name else id) else WasNamed(prev, id, stem)
  }

  lemma {:induction false} OneName(prev: seq<Server>, id: string, a: string, b: string)
    requires WasNamed(prev, id, a) && WasNamed(prev, id, b)
    ensures a == b
  {
    if prev != [] {
      var last := prev[|prev| - 1];
      if !("connector_id" in last.obj && last.obj["connector_id"] == JString(id) && id != "") {
        OneName(prev[..|prev| - 1], id, a, b);
      }
    }
  }

  lemma StemSays(prev: seq<Server>, id: string, rec: Connector)
    requires id != ""
    ensures IsStem(Stem(id, rec, NamesById(prev)), prev, id, rec)
  {
    NamesByIdTell(prev, id);
    if WasNamed(prev, id, "") {
      OneName(prev, id, "", At(NamesById(prev), id));
    }
  }

  /**
   * A connector keeps the name its entry had, and else gets its own name or its id; when an entry before it has that
   * name, or one that is not bound, the least free numbering of it.
   */
  lemma NameSays(prev: seq<Server>, id: string, rec: Connector, taken: set<string>)
    requires id != ""
    ensures var stem, name := Stem(id, rec, NamesById(prev)), Fresh(Stem(id, rec, NamesById(prev)), taken);
      && IsStem(stem, prev, id, rec) && NamedAfter(name, stem) && name !in taken && (stem !in taken ==> name == stem)
  {
    StemSays(prev, id, rec);
    FreshFacts(Stem(id, rec, NamesById(prev)), taken);
  }

  /** The entry is called after its connector. */
  ghost predicate CalledAfter(s: Server, prev: seq<Server>, connectors: Connectors) {
    var id := ConnectorId(s);
    id in connectors && exists stem :: IsStem(stem, prev, id, connectors[id]) && NamedAfter(s.name, stem)
  }

  lemma {:induction false} BoundAreCalledAfter(ids: seq<string>, connectors: Connectors, prev: seq<Server>,
                                               taken: set<string>)
    requires forall id | id in connectors :: id != "" && connectors[id].id == id
    ensures forall s | s in Bound(ids, connectors, NamesById(prev), taken) :: CalledAfter(s, prev, connectors)
  {
    if ids != [] {
      var front, id := ids[..|ids| - 1], ids[|ids| - 1];
      BoundAreCalledAfter(front, connectors, prev, taken);
      if id in connectors {
        var others := taken + Names(Bound(front, connectors, NamesById(prev), taken));
        var name := Fresh(Stem(id, connectors[id], NamesById(prev)), others);
        NameSays(prev, id, connectors[id], others);
        ConnectorEntryFits(name, connectors[id]);
        assert CalledAfter(Server(name, ConnectorFields(connectors[id])), prev, connectors);
      }
    }
  }
}
