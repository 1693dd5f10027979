/** The node projection (`projectNodeStatus` in internal/store/pgstore/task_structure.go): last-writer-wins rows. */
module NodeRows {
  import opened Common
  import opened Events

  datatype NodeKey = NodeKey(task: string, node: string)

  /** The optional columns; None is NULL, or the column's default (false, 0) for `frozen` and `attemptCount`. */
  datatype Facts = Facts(
    frozen: Option<bool>, nodeType: Option<string>, title: Option<string>, workspaceMode: Option<string>,
    ownerProfile: Option<string>, dependsOn: Option<seq<string>>, attemptCount: Option<int>,
    currentAttempt: Option<string>, parentNode: Option<string>, sopStep: Option<string>)

  datatype Row = Row(tenant: string, status: string, reason: string, version: int, updatedAt: int, facts: Facts)

  type Table = map<NodeKey, Row>

  const STATUSES := {"PENDING", "READY", "RUNNING", "AWAITING_APPROVAL", "AWAITING_INPUT", "PROPOSED", "VERIFYING",
                     "COMPLETED", "RETRY_PENDING", "BLOCKED", "SKIPPED", "CANCELLED"}

  function NonEmpty(s: string): Option<string> {
    if s == "" then None else Some(s)
  }

  function WithPrefix(s: string, prefix: string): Option<string> {
    if HasPrefix(s, prefix) then Some(s) else None
  }

  /** The columns an event names. */
  function Named(d: NodeDetails): Facts {
    Facts(d.frozen, NonEmpty(d.nodeType), NonEmpty(d.title),
          if d.workspaceAccess in {"write", "read", "none"} then Some(d.workspaceAccess) else None,
          NonEmpty(d.ownerProfile), d.dependsOn,
          if d.attemptCount.Some? && d.attemptCount.value >= 0 then d.attemptCount else None,
          WithPrefix(d.currentAttemptId, "att_"), WithPrefix(d.parentNodeId, "n_"), d.sopStep)
  }

  function Over<T>(newer: Option<T>, older: Option<T>): Option<T> {
    if newer.Some? then newer else older
  }

  function Overlaid(newer: Facts, older: Facts): Facts {
    Facts(Over(newer.frozen, older.frozen), Over(newer.nodeType, older.nodeType), Over(newer.title, older.title),
          Over(newer.workspaceMode, older.workspaceMode), Over(newer.ownerProfile, older.ownerProfile),
          Over(newer.dependsOn, older.dependsOn), Over(newer.attemptCount, older.attemptCount),
          Over(newer.currentAttempt, older.currentAttempt), Over(newer.parentNode, older.parentNode),
          Over(newer.sopStep, older.sopStep))
  }

  /** Every fact `older` knows, `newer` knows too. */
  predicate KnowsAllOf(newer: Facts, older: Facts) {
    && (older.frozen.Some? ==> newer.frozen.Some?)
    && (older.nodeType.Some? ==> newer.nodeType.Some?)
    && (older.title.Some? ==> newer.title.Some?)
    && (older.workspaceMode.Some? ==> newer.workspaceMode.Some?)
    && (older.ownerProfile.Some? ==> newer.ownerProfile.Some?)
    && (older.dependsOn.Some? ==> newer.dependsOn.Some?)
    && (older.attemptCount.Some? ==> newer.attemptCount.Some?)
    && (older.currentAttempt.Some? ==> newer.currentAttempt.Some?)
    && (older.parentNode.Some? ==> newer.parentNode.Some?)
    && (older.sopStep.Some? ==> newer.sopStep.Some?)
  }

  /**
   * The event names a node the table can hold. A status outside the constraint rolls the projection of the event back.
   */
  predicate Projects(e: Event) {
    e.change.NodeStatusChanged? && HasPrefix(e.change.nodeId, "n_") && e.change.toStatus in STATUSES
  }

  function KeyOf(e: Event): NodeKey
    requires Projects(e)
  {
    NodeKey(e.task, e.change.nodeId)
  }

  predicate Newer(row: Row, e: Event) {
    if e.version > 0 then row.version < e.version else row.updatedAt <= e.occurred
  }

  function Rewritten(row: Row, e: Event): Row
    requires Projects(e)
  {
    Row(row.tenant, e.change.toStatus, e.change.reason, e.version, e.occurred,
        Overlaid(Named(e.change.details), row.facts))
  }

  function Applied(table: Table, e: Event): Table {
    if !Projects(e) then table
    else if KeyOf(e) !in table then
      table[KeyOf(e) := Row(e.tenant, e.change.toStatus, e.change.reason, e.version, e.occurred,
          Named(e.change.details))]
    else
      var row := table[KeyOf(e)];
      if row.tenant == e.tenant && Newer(row, e) then table[KeyOf(e) := Rewritten(row, e)] else table
  }

  /** Gathering the columns the event names, one by one. */
  method GatherColumns(d: NodeDetails) returns (named: Facts)
    ensures named == Named(d)
  {
    named := Facts(d.frozen, None, None, None, None, d.dependsOn, None, None, None, d.sopStep);
    if d.nodeType != "" {
      named := named.(nodeType := Some(d.nodeType));
    }
    if d.title != "" {
      named := named.(title := Some(d.title));
    }
    if d.workspaceAccess == "write" || d.workspaceAccess == "read" || d.workspaceAccess == "none" {
      named := named.(workspaceMode := Some(d.workspaceAccess));
    }
    if d.ownerProfile != "" {
      named := named.(ownerProfile := Some(d.ownerProfile));
    }
    if d.attemptCount.Some? && d.attemptCount.value >= 0 {
      named := named.(attemptCount := d.attemptCount);
    }
    if HasPrefix(d.currentAttemptId, "att_") {
      named := named.(currentAttempt := Some(d.currentAttemptId));
    }
    if HasPrefix(d.parentNodeId, "n_") {
      named := named.(parentNode := Some(d.parentNodeId));
    }
  }

  class NodeTable {
    var table: Table

    constructor ()
      ensures table == map[]
    {
      table := map[];
    }

    /** UPDATE ... WHERE the event is newer; when no row matched, INSERT ... ON CONFLICT DO NOTHING. */
    method ProjectNodeStatus(e: Event)
      modifies this
      ensures table == Applied(old(table), e)
    {
      if !e.change.NodeStatusChanged? || !HasPrefix(e.change.nodeId, "n_") || e.change.toStatus !in STATUSES {
        return;
      }
      var key := NodeKey(e.task, e.change.nodeId);
      var named := GatherColumns(e.change.details);
      var affected := 0;
      if key in table && table[key].tenant == e.tenant && Newer(table[key], e) {
        table := table[key := Row(e.tenant, e.change.toStatus, e.change.reason, e.version, e.occurred,
                                  Overlaid(named, table[key].facts))];
        affected := 1;
      }
      if affected == 0 && key !in table {
        table := table[key := Row(e.tenant, e.change.toStatus, e.change.reason, e.version, e.occurred, named)];
      }
    }
  }

  function AppliedAll(table: Table, events: seq<Event>): Table {
    if events == [] then table else Applied(AppliedAll(table, events[..|events| - 1]), events[|events| - 1])
  }

  // ---- last writer wins ----

  predicate Concerns(e: Event, key: NodeKey) {
    Projects(e) && KeyOf(e) == key
  }

  predicate Shows(row: Row, e: Event) {
    e.change.NodeStatusChanged? &&
    row.status == e.change.toStatus && row.reason == e.change.reason && row.version == e.version
        && row.updatedAt == e.occurred
  }

  /** The events of one node: positive versions, one event a version, one tenant. Repetitions are allowed. */
  predicate Versioned(events: seq<Event>, key: NodeKey) {
    && (forall e | e in events && Concerns(e, key) :: e.version > 0)
    && (forall d, e | d in events && e in events && Concerns(d, key) && Concerns(e, key) ::
          d.tenant == e.tenant && (d.version == e.version ==> d == e))
  }

  /** The row of a node shows the event with the highest version; there is none without an event. */
  ghost predicate ShowsTheNewest(table: Table, events: seq<Event>, key: NodeKey) {
    && (key in table <==> exists e | e in events :: Concerns(e, key))
    && (key in table ==>
          && (exists e | e in events :: Concerns(e, key) && Shows(table[key], e) && e.tenant == table[key].tenant)
          && (forall e | e in events && Concerns(e, key) :: e.version <= table[key].version))
  }

  lemma AnotherNode(table: Table, e: Event, key: NodeKey)
    requires !Concerns(e, key)
    ensures key in Applied(table, e) <==> key in table
    ensures key in table ==> Applied(table, e)[key] == table[key]
  {
  }

  /** The row of an event's own node after it. */
  lemma OwnNode(table: Table, e: Event, key: NodeKey)
    requires Concerns(e, key) && e.version > 0 && (key in table ==> table[key].tenant == e.tenant)
    ensures var after := Applied(table, e);
      && key in after && after[key].tenant == e.tenant
      && if key !in table || table[key].version < e.version then Shows(after[key], e) else after[key] == table[key]
  {
  }

  lemma OneMoreWriter(table: Table, events: seq<Event>, e: Event, key: NodeKey)
    requires Versioned(events + [e], key) && ShowsTheNewest(table, events, key)
    ensures ShowsTheNewest(Applied(table, e), events + [e], key)
  {
    var all := events + [e];
    assert e in all && forall d | d in events :: d in all;
    if Concerns(e, key) {
      OwnNode(table, e, key);
    } else {
      AnotherNode(table, e, key);
    }
    if key in table {
      var d :| d in events && Concerns(d, key) && Shows(table[key], d) && d.tenant == table[key].tenant;
      assert d in all;
    }
  }

  /**
   * In whatever order and however often the events of a node arrive, mixed with any other events, its row ends with the
   * status, reason, version and time of the event with the highest version; without such an event there is no row.
   */
  lemma {:induction false} LastWriterWins(events: seq<Event>, key: NodeKey)
    requires Versioned(events, key)
    ensures key in AppliedAll(map[], events) <==> exists e | e in events :: Concerns(e, key)
    ensures key in AppliedAll(map[], events) ==>
              var row := AppliedAll(map[], events)[key];
              && (exists e | e in events :: Concerns(e, key) && Shows(row, e) && e.tenant == row.tenant)
              && (forall e | e in events && Concerns(e, key) :: e.version <= row.version)
  {
    if events != [] {
      var front, last := events[..|events| - 1], events[|events| - 1];
      assert events == front + [last];
      LastWriterWins(front, key);
      OneMoreWriter(AppliedAll(map[], front), front, last, key);
    }
  }

  /** So two replicas that saw the same events of a node, in any orders, show the same. */
  lemma OrderDoesNotMatter(a: seq<Event>, b: seq<Event>, key: NodeKey)
    requires Versioned(a, key) && forall e | Concerns(e, key) :: e in a <==> e in b
    ensures var p, q := AppliedAll(map[], a), AppliedAll(map[], b);
      && (key in p <==> key in q)
      && (key in p ==>
            p[key].status == q[key].status && p[key].reason == q[key].reason && p[key].version == q[key].version)
  {
    LastWriterWins(a, key);
    LastWriterWins(b, key);
  }

  /** A fact once known is never blanked, whatever arrives, in whatever order and with whatever versions. */
  lemma {:induction false} NeverBlanked(table: Table, events: seq<Event>, key: NodeKey)
    requires key in table
    ensures key in AppliedAll(table, events) && KnowsAllOf(AppliedAll(table, events)[key].facts, table[key].facts)
  {
    if events != [] {
      var front, last := events[..|events| - 1], events[|events| - 1];
      NeverBlanked(table, front, key);
      OneEventBlanksNothing(AppliedAll(table, front), last, key);
    }
  }

  lemma OneEventBlanksNothing(table: Table, e: Event, key: NodeKey)
    requires key in table
    ensures key in Applied(table, e) && KnowsAllOf(Applied(table, e)[key].facts, table[key].facts)
  {
    if !Concerns(e, key) {
      AnotherNode(table, e, key);
    }
  }

  /**
   * The version of a row falls exactly when an event without a version, not older than the row, is applied to a
   * versioned row: it overwrites the column with its own version.
   */
  lemma VersionFalls(table: Table, e: Event, key: NodeKey)
    requires key in table
    ensures Applied(table, e)[key].version < table[key].version <==>
              && Concerns(e, key) && table[key].tenant == e.tenant
              && e.version <= 0 && table[key].updatedAt <= e.occurred && e.version < table[key].version
  {
  }

  /** The concrete case: after an unversioned event an old versioned one is applied again. */
  lemma UnversionedEventLetsOldOnesIn()
    ensures exists newest: Event, plain: Event, stale: Event :: exists key ::
              && stale.version < newest.version && Concerns(newest, key) && Concerns(stale, key)
              && Shows(AppliedAll(map[], [newest, plain, stale])[key], stale)
  {
    var details := NodeDetails(None, "", "", "", "", None, None, "", "", None);
    var newest := Event("evt_1", "t", "task_1", true, 1, 0, 1, "node", "n_1", 2,
        NodeStatusChanged("n_1", "COMPLETED", "", details));
    var plain := newest.(id := "evt_2", occurred := 2, version := 0);
    var stale := newest.(id := "evt_0", occurred := 0, version := 1,
        change := NodeStatusChanged("n_1", "RUNNING", "", details));
    var key := NodeKey("task_1", "n_1");
    assert [newest, plain, stale][..2] == [newest, plain] && [newest, plain][..1] == [newest] && [newest][..0] == [];
    assert Concerns(newest, key) && Concerns(stale, key);
    assert AppliedAll(map[], [newest])[key].version == 2;
    assert AppliedAll(map[], [newest, plain])[key].version == 0;
    assert Shows(AppliedAll(map[], [newest, plain, stale])[key], stale);
  }

  // ---- which event each column shows ----

  /** The event writes the node's row: the row is new, or the tenant's and not newer than the event. */
  predicate Writes(table: Table, e: Event, key: NodeKey) {
    && e.change.NodeStatusChanged? && "n_" <= e.change.nodeId 
    && e.change.toStatus in {"PENDING", "READY", "RUNNING", "AWAITING_APPROVAL", "AWAITING_INPUT", "PROPOSED",
                             "VERIFYING", "COMPLETED", "RETRY_PENDING", "BLOCKED", "SKIPPED", "CANCELLED"}
    && key == NodeKey(e.task, e.change.nodeId)
    && (key in table ==>
          && table[key].tenant == e.tenant
          && (e.version > 0 ==> table[key].version < e.version)
          && (e.version <= 0 ==> table[key].updatedAt <= e.occurred))
  }

  /** The events of a run that wrote the node's row, in order. */
  function Writers(events: seq<Event>, key: NodeKey): seq<Event> {
    if events == [] then [] else
      var front, last := events[..|events| - 1], events[|events| - 1];
      Writers(front, key) + if Writes(AppliedAll(map[], front), last, key) then [last] else []
  }

  /** The last value that one of the events gives. */
  function Latest<T>(events: seq<Event>, given: Event -> Option<T>): Option<T> {
    if events == [] then None
    else if given(events[|events| - 1]).Some? then given(events[|events| - 1])
    else Latest(events[..|events| - 1], given)
  }

  // ---- what an event says of each column ----

  function FrozenIn(e: Event): Option<bool> {
    if e.change.NodeStatusChanged? then e.change.details.frozen else None
  }

  function TypeIn(e: Event): Option<string> {
    if e.change.NodeStatusChanged? && e.change.details.nodeType != "" then Some(e.change.details.nodeType) else None
  }

  function TitleIn(e: Event): Option<string> {
    if e.change.NodeStatusChanged? && e.change.details.title != "" then Some(e.change.details.title) else None
  }

  function AccessIn(e: Event): Option<string> {
    if e.change.NodeStatusChanged? && e.change.details.workspaceAccess in {"write", "read", "none"}
    then Some(e.change.details.workspaceAccess) else None
  }

  function OwnerIn(e: Event): Option<string> {
    if e.change.NodeStatusChanged? && e.change.details.ownerProfile != "" then Some(e.change.details.ownerProfile)
        else None
  }

  function DependenciesIn(e: Event): Option<seq<string>> {
    if e.change.NodeStatusChanged? then e.change.details.dependsOn else None
  }

  function AttemptsIn(e: Event): Option<int> {
    if e.change.NodeStatusChanged? && e.change.details.attemptCount.Some? && e.change.details.attemptCount.value >= 0
    then e.change.details.attemptCount else None
  }

  function AttemptIn(e: Event): Option<string> {
    if e.change.NodeStatusChanged? && "att_" <= e.change.details.currentAttemptId
        then Some(e.change.details.currentAttemptId)
    else None
  }

  function ParentIn(e: Event): Option<string> {
    if e.change.NodeStatusChanged? && "n_" <= e.change.details.parentNodeId then Some(e.change.details.parentNodeId)
    else None
  }

  function StepIn(e: Event): Option<string> {
    if e.change.NodeStatusChanged? then e.change.details.sopStep else None
  }

  /** Each optional column is what the last of the events that names it says. */
  predicate ColumnsShow(facts: Facts, events: seq<Event>) {
    && facts.frozen == Latest(events, FrozenIn)
    && facts.nodeType == Latest(events, TypeIn)
    && facts.title == Latest(events, TitleIn)
    && facts.workspaceMode == Latest(events, AccessIn)
    && facts.ownerProfile == Latest(events, OwnerIn)
    && facts.dependsOn == Latest(events, DependenciesIn)
    && facts.attemptCount == Latest(events, AttemptsIn)
    && facts.currentAttempt == Latest(events, AttemptIn)
    && facts.parentNode == Latest(events, ParentIn)
    && facts.sopStep == Latest(events, StepIn)
  }

  lemma LatestMore<T>(events: seq<Event>, e: Event, given: Event -> Option<T>)
    ensures Latest(events + [e], given) == if given(e).Some? then given(e) else Latest(events, given)
  {
    assert (events + [e])[..|events|] == events;
  }

  /**
   * A node's row in every run: it is there if and only if an event wrote it; status, reason, version and time are those
   * of the last event that did, the tenant that of the first, and every other column shows the last of them to name it.
   */
  lemma {:induction false} RowShowsItsWriters(events: seq<Event>, key: NodeKey)
    ensures var table, writers := AppliedAll(map[], events), Writers(events, key);
      && (key in table <==> writers != [])
      && (writers != [] ==>
            var row, last := table[key], writers[|writers| - 1];
            && last.change.NodeStatusChanged? && row.tenant == writers[0].tenant
            && row.status == last.change.toStatus && row.reason == last.change.reason
            && row.version == last.version && row.updatedAt == last.occurred
            && ColumnsShow(row.facts, writers))
  {
    if events != [] {
      var front, last := events[..|events| - 1], events[|events| - 1];
      RowShowsItsWriters(front, key);
      OneMoreWrites(AppliedAll(map[], front), last, key, Writers(front, key));
      assert Writers(front, key) + [] == Writers(front, key);
    }
  }

  /** `facts` over older ones, column by column from the event. */
  lemma ColumnsMore(facts: Facts, after: Facts, events: seq<Event>, e: Event)
    requires e.change.NodeStatusChanged? && ColumnsShow(facts, events)
    requires after == Overlaid(Named(e.change.details), facts)
    ensures ColumnsShow(after, events + [e])
  {
    LatestMore(events, e, FrozenIn);
    LatestMore(events, e, TypeIn);
    LatestMore(events, e, TitleIn);
    LatestMore(events, e, AccessIn);
    LatestMore(events, e, OwnerIn);
    LatestMore(events, e, DependenciesIn);
    LatestMore(events, e, AttemptsIn);
    LatestMore(events, e, AttemptIn);
    LatestMore(events, e, ParentIn);
    LatestMore(events, e, StepIn);
  }

  /** One event and the row: written exactly when the event may write it. */
  lemma OneMoreWrites(table: Table, e: Event, key: NodeKey, writers: seq<Event>)
    requires key in table ==> ColumnsShow(table[key].facts, writers)
    requires key !in table ==> writers == []
    ensures Writes(table, e, key) ==>
              && key in Applied(table, e)
              && var row := Applied(table, e)[key];
                 && row.tenant == (if key in table then table[key].tenant else e.tenant)
                 && row.status == e.change.toStatus && row.reason == e.change.reason && row.version == e.version
                 && row.updatedAt == e.occurred && ColumnsShow(row.facts, writers + [e])
    ensures !Writes(table, e, key) ==>
              (key in Applied(table, e) <==> key in table) && (key in table ==> Applied(table, e)[key] == table[key])
  {
    if Writes(table, e, key) {
      var none := Facts(None, None, None, None, None, None, None, None, None, None);
      var before := if key in table then table[key].facts else none;
      assert Overlaid(Named(e.change.details), none) == Named(e.change.details);
      ColumnsMore(before, Overlaid(Named(e.change.details), before), writers, e);
    }
  }
}
