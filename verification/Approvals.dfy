/**
 * Pending approvals, kept in two places: the rows of task_approvals (`insertApproval`, `decideApproval` in
 * internal/store/pgstore/task_approvals.go) and the list on the task row (`updateTaskAccumulators` in
 * internal/store/pgstore/task_events.go).
 */
module Approvals {
  import opened Common
  import opened Events

  datatype Row = Row(tenant: string, task: string, status: string, version: int)

  datatype TaskKey = TaskKey(tenant: string, task: string)

  /** `pending` holds the list of every task that has a task row. */
  datatype Board = Board(rows: map<string, Row>, pending: map<TaskKey, seq<string>>)

  const PENDING := "PENDING"
  const DECISIONS := {"APPROVED", "REJECTED", "CANCELLED", "TAKEN_OVER"}

  // ---- the list ----

  function Without(items: seq<string>, wanted: string): seq<string> {
    if items == [] then []
    else Without(items[..|items| - 1], wanted) + if items[|items| - 1] == wanted then [] else [items[|items| - 1]]
  }

  lemma {:induction false} WithoutFacts(items: seq<string>, wanted: string)
    ensures forall x :: x in Without(items, wanted) <==> x in items && x != wanted
    ensures Distinct(items) ==> Distinct(Without(items, wanted))
    ensures |Without(items, wanted)| <= |items|
  {
    if items != [] {
      var front, last := items[..|items| - 1], items[|items| - 1];
      WithoutFacts(front, wanted);
      assert items == front + [last];
      if Distinct(items) {
        assert forall i | 0 <= i < |front| :: front[i] == items[i] != last;
        assert last !in Without(front, wanted);
      }
    }
  }

  /** `removeString`: it writes what stays over the front of its own slice. */
  method RemoveString(items: array<string>, wanted: string) returns (kept: nat)
    modifies items
    ensures kept <= items.Length && items[..kept] == Without(old(items[..]), wanted)
  {
    kept := 0;
    for i := 0 to items.Length
      invariant kept <= i
      invariant items[..kept] == Without(old(items[..])[..i], wanted)
      invariant items[i..] == old(items[..])[i..]
    {
      assert old(items[..])[..i + 1][..i] == old(items[..])[..i];
      assert items[i] == items[i..][0] == old(items[..])[i];
      if items[i] != wanted {
        items[kept] := items[i];
        kept := kept + 1;
      }
    }
    assert old(items[..])[..items.Length] == old(items[..]);
  }

  // ---- one event ----

  function RowsAfter(rows: map<string, Row>, e: Event): map<string, Row> {
    match e.change
    case ApprovalRequested(id, typed) =>
      if typed && HasPrefix(id, "apr_") && id !in rows then rows[id := Row(e.tenant, e.task, PENDING, e.version)]
          else rows
    case ApprovalDecided(id, decision, typed) =>
      if typed && decision in DECISIONS && id in rows && rows[id].tenant == e.tenant
         && (if e.version > 0 then rows[id].version < e.version else rows[id].status == PENDING)
      then rows[id := rows[id].(status := decision, version := e.version)] else rows
    case _ => rows
  }

  /** The list is folded from the untyped payload, and only for a task that has a row. */
  function ListAfter(pending: seq<string>, e: Event): seq<string> {
    match e.change
    case ApprovalRequested(id, _) => if HasPrefix(id, "apr_") && id !in pending then pending + [id] else pending
    case ApprovalDecided(id, decision, _) => if decision in DECISIONS then Without(pending, id) else pending
    case _ => pending
  }

  function Applied(board: Board, e: Event): Board {
    var key := TaskKey(e.tenant, e.task);
    Board(RowsAfter(board.rows, e),
          if key in board.pending then board.pending[key := ListAfter(board.pending[key], e)] else board.pending)
  }

  class ApprovalBoard {
    var rows: map<string, Row>
    var pending: map<TaskKey, seq<string>>

    constructor (tasks: set<TaskKey>)
      ensures rows == map[] && pending == map key | key in tasks :: []
    {
      rows := map[];
      pending := map key | key in tasks :: [];
    }

    method InsertApproval(e: Event)
      requires e.change.ApprovalRequested?
      modifies this`rows
      ensures rows == RowsAfter(old(rows), e)
    {
      if !e.change.typed || !HasPrefix(e.change.approvalId, "apr_") {
        return;
      }
      if e.change.approvalId !in rows {
        rows := rows[e.change.approvalId := Row(e.tenant, e.task, PENDING, e.version)];
      }
    }

    method DecideApproval(e: Event)
      requires e.change.ApprovalDecided?
      modifies this`rows
      ensures rows == RowsAfter(old(rows), e)
    {
      var id := e.change.approvalId;
      if !e.change.typed || e.change.decision !in DECISIONS || id !in rows || rows[id].tenant != e.tenant {
        return;
      }
      var matches := if e.version > 0 then rows[id].version < e.version else rows[id].status == PENDING;
      if matches {
        rows := rows[id := rows[id].(status := e.change.decision, version := e.version)];
      }
    }

    method UpdatePending(e: Event)
      modifies this`pending
      ensures pending == Applied(Board(old(rows), old(pending)), e).pending
    {
      var key := TaskKey(e.tenant, e.task);
      if key !in pending {
        return;
      }
      var list := pending[key];
      match e.change {
        case ApprovalRequested(id, _) =>
          if HasPrefix(id, "apr_") && id !in list {
            list := list + [id];
          }
        case ApprovalDecided(id, decision, _) =>
          if decision in DECISIONS {
            var slice := new string[|list|](i requires 0 <= i < |list| => list[i]);
            assert slice[..] == list;
            var kept := RemoveString(slice, id);
            list := slice[..kept];
          }
        case _ =>
      }
      pending := pending[key := list];
    }

    /** The two steps of one event share a savepoint. */
    method Project(e: Event)
      requires e.change.ApprovalRequested? || e.change.ApprovalDecided?
      modifies this
      ensures Board(rows, pending) == Applied(Board(old(rows), old(pending)), e)
    {
      if e.change.ApprovalRequested? {
        InsertApproval(e);
      } else {
        DecideApproval(e);
      }
      UpdatePending(e);
    }
  }

  function AppliedAll(board: Board, events: seq<Event>): Board {
    if events == [] then board else Applied(AppliedAll(board, events[..|events| - 1]), events[|events| - 1])
  }

  // ---- the two views agree ----

  predicate IsPending(board: Board, key: TaskKey, id: string) {
    id in board.rows && board.rows[id].tenant == key.tenant && board.rows[id].task == key.task
        && board.rows[id].status == PENDING
  }

  /** The list of the task holds exactly its pending rows, each once. */
  ghost predicate Agree(board: Board, key: TaskKey) {
    key in board.pending ==>
      && Distinct(board.pending[key])
      && forall id :: id in board.pending[key] <==> IsPending(board, key, id)
  }

  predicate About(e: Event, id: string) {
    (e.change.ApprovalRequested? || e.change.ApprovalDecided?) && e.change.approvalId == id
  }

  /**
   * What the writers of the events owe, for the events of one log: typed payloads, one task and at most one request for
   * each approval, and decisions without a version or with a greater one than the request.
   */
  predicate Orderly(events: seq<Event>) {
    && (forall e | e in events && (e.change.ApprovalRequested? || e.change.ApprovalDecided?) :: e.change.typed)
    && (forall d, e | d in events && e in events && (d.change.ApprovalRequested? || d.change.ApprovalDecided?)
                      && About(e, d.change.approvalId) :: d.tenant == e.tenant && d.task == e.task)
    && (forall i, j | 0 <= i < j < |events| && events[i].change.ApprovalRequested?
        && events[j].change.ApprovalRequested? ::
          events[i].change.approvalId != events[j].change.approvalId)
    && (forall d, r | d in events && r in events && d.change.ApprovalDecided? && r.change.ApprovalRequested?
                      && d.change.approvalId == r.change.approvalId :: d.version <= 0 || d.version > r.version)
  }

  /** Every row came from its request; a pending one still has the request's version. */
  ghost predicate FromRequests(board: Board, events: seq<Event>) {
    forall id | id in board.rows :: exists r | r in events :: Requests(r, id) && TellsOf(board.rows[id], r)
  }

  predicate Requests(r: Event, id: string) {
    r.change.ApprovalRequested? && r.change.approvalId == id
  }

  predicate TellsOf(row: Row, r: Event) {
    row.tenant == r.tenant && row.task == r.task && (row.status == PENDING ==> row.version == r.version)
    && (row.status == PENDING || row.status in DECISIONS)
  }

  lemma OrderlyFront(events: seq<Event>, last: Event)
    requires Orderly(events + [last])
    ensures Orderly(events)
  {
    var all := events + [last];
    assert forall e | e in events :: e in all;
    assert forall i | 0 <= i < |events| :: all[i] == events[i];
  }

  lemma FromRequestsStep(board: Board, events: seq<Event>, e: Event)
    requires FromRequests(board, events)
    ensures FromRequests(Applied(board, e), events + [e])
  {
    var after := Applied(board, e);
    forall id | id in after.rows ensures exists r | r in events + [e] :: Requests(r, id) && TellsOf(after.rows[id], r) {
      if id in board.rows {
        var r :| r in events && Requests(r, id) && TellsOf(board.rows[id], r);
        assert r in events + [e] && TellsOf(after.rows[id], r);
      } else {
        assert e in events + [e] && Requests(e, id) && TellsOf(after.rows[id], e);
      }
    }
  }

  lemma FirstRequest(events: seq<Event>, e: Event)
    requires Orderly(events + [e]) && e.change.ApprovalRequested?
    ensures forall r | r in events :: !Requests(r, e.change.approvalId)
  {
    var all := events + [e];
    forall i | 0 <= i < |events| ensures !Requests(events[i], e.change.approvalId) {
      assert all[i] == events[i] && all[|events|] == e;
    }
  }

  lemma RequestKeeps(board: Board, events: seq<Event>, e: Event, key: TaskKey)
    requires Orderly(events + [e]) && FromRequests(board, events) && Agree(board, key)
    requires e.change.ApprovalRequested?
    ensures Agree(Applied(board, e), key)
  {
    FirstRequest(events, e);
    assert e in events + [e] && e.change.approvalId !in board.rows;
  }

  /** A decision finds its approval's row in its own task, and a pending row takes it. */
  lemma DecisionMatches(board: Board, events: seq<Event>, e: Event)
    requires Orderly(events + [e]) && FromRequests(board, events)
    requires e.change.ApprovalDecided? && e.change.approvalId in board.rows
    ensures var row := board.rows[e.change.approvalId];
      && e.change.typed && row.tenant == e.tenant && row.task == e.task
      && (row.status == PENDING && e.version > 0 ==> row.version < e.version)
  {
  }

  lemma DecisionStep(board: Board, e: Event, key: TaskKey)
    requires Agree(board, key) && e.change.ApprovalDecided? && e.change.typed
    requires e.change.approvalId in board.rows ==>
               var row := board.rows[e.change.approvalId];
               row.tenant == e.tenant && row.task == e.task
                   && (row.status == PENDING && e.version > 0 ==> row.version < e.version)
    ensures Agree(Applied(board, e), key)
  {
    var id := e.change.approvalId;
    var after := Applied(board, e);
    if key in board.pending {
      forall x | x != id ensures IsPending(after, key, x) == IsPending(board, key, x) {
      }
      if key == TaskKey(e.tenant, e.task) && e.change.decision in DECISIONS {
        WithoutFacts(board.pending[key], id);
        assert !IsPending(after, key, id);
      } else {
        assert IsPending(after, key, id) == IsPending(board, key, id);
        assert after.pending[key] == board.pending[key];
      }
    }
  }

  lemma DecisionKeeps(board: Board, events: seq<Event>, e: Event, key: TaskKey)
    requires Orderly(events + [e]) && FromRequests(board, events) && Agree(board, key)
    requires e.change.ApprovalDecided?
    ensures Agree(Applied(board, e), key)
  {
    assert e in events + [e];
    if e.change.approvalId in board.rows {
      DecisionMatches(board, events, e);
    }
    DecisionStep(board, e, key);
  }

  lemma EventKeeps(board: Board, events: seq<Event>, e: Event, key: TaskKey)
    requires Orderly(events + [e]) && FromRequests(board, events) && Agree(board, key)
    ensures Agree(Applied(board, e), key)
  {
    if e.change.ApprovalRequested? {
      RequestKeeps(board, events, e, key);
    } else if e.change.ApprovalDecided? {
      DecisionKeeps(board, events, e, key);
    }
  }

  lemma {:induction false} AllFromRequests(board: Board, events: seq<Event>)
    requires board.rows == map[]
    ensures FromRequests(AppliedAll(board, events), events)
  {
    if events != [] {
      var front, last := events[..|events| - 1], events[|events| - 1];
      assert events == front + [last];
      AllFromRequests(board, front);
      FromRequestsStep(AppliedAll(board, front), front, last);
    }
  }

  lemma {:induction false} BoardInvariant(board: Board, events: seq<Event>, key: TaskKey)
    requires board.rows == map[] && Agree(board, key) && Orderly(events)
    ensures Agree(AppliedAll(board, events), key)
  {
    if events != [] {
      var front, last := events[..|events| - 1], events[|events| - 1];
      assert events == front + [last];
      OrderlyFront(front, last);
      BoardInvariant(board, front, key);
      AllFromRequests(board, front);
      EventKeeps(AppliedAll(board, front), front, last, key);
    }
  }

  /**
   * Under any delivery order of an orderly log, the pending rows of a task are exactly its pending list, without
   * duplicates.
   */
  lemma ViewsAgree(tasks: set<TaskKey>, events: seq<Event>, key: TaskKey)
    requires Orderly(events) && key in tasks
    ensures var board := AppliedAll(Board(map[], map k | k in tasks :: []), events);
      && key in board.pending && Distinct(board.pending[key])
      && forall id :: id in board.pending[key] <==> IsPending(board, key, id)
  {
    var board := Board(map[], map k | k in tasks :: []);
    BoardInvariant(board, events, key);
    PendingKeysStay(board, events);
  }

  lemma {:induction false} PendingKeysStay(board: Board, events: seq<Event>)
    ensures AppliedAll(board, events).pending.Keys == board.pending.Keys
  {
    if events != [] {
      PendingKeysStay(board, events[..|events| - 1]);
    }
  }

  // ---- exactly when one event splits the views ----

  function OwnKey(e: Event): TaskKey {
    TaskKey(e.tenant, e.task)
  }

  /**
   * A request keeps the two views of a task together if and only if it names another task, or no approval id, or an
   * approval whose row is pending in this task, or a new one with a payload of the right types.
   */
  lemma RequestSplits(board: Board, e: Event, key: TaskKey)
    requires key in board.pending && Agree(board, key) && e.change.ApprovalRequested?
    ensures Agree(Applied(board, e), key) <==>
              || key != OwnKey(e) || !HasPrefix(e.change.approvalId, "apr_")
              || (if e.change.approvalId in board.rows then IsPending(board, key, e.change.approvalId)
                  else e.change.typed)
  {
    var id, after := e.change.approvalId, Applied(board, e);
    assert forall x | x != id :: IsPending(after, key, x) == IsPending(board, key, x);
    if key == OwnKey(e) && HasPrefix(id, "apr_") {
      assert id in after.pending[key];
    }
  }

  /** The decision moves a row that is pending. */
  predicate Moves(board: Board, e: Event)
    requires e.change.ApprovalDecided? && e.change.approvalId in board.rows
  {
    && e.change.typed && board.rows[e.change.approvalId].tenant == e.tenant
    && (e.version <= 0 || e.version > board.rows[e.change.approvalId].version)
  }

  /**
   * A decision keeps the two views of a task together if and only if it is none, or its approval is not pending there,
   * or its row moves exactly when the decision names this task: a decision that names another task of the tenant moves
   * the row and not the list it is on.
   */
  lemma DecisionSplits(board: Board, e: Event, key: TaskKey)
    requires key in board.pending && Agree(board, key) && e.change.ApprovalDecided?
    ensures Agree(Applied(board, e), key) <==>
              || e.change.decision !in DECISIONS || !IsPending(board, key, e.change.approvalId)
              || (Moves(board, e) <==> key == OwnKey(e))
  {
    var id, after := e.change.approvalId, Applied(board, e);
    assert forall x | x != id :: IsPending(after, key, x) == IsPending(board, key, x);
    WithoutFacts(board.pending[key], id);
  }

  function Blank(id: string, version: int, change: Change): Event {
    Event(id, "t", "task_1", true, 0, 0, 0, "approval", "apr_1", version, change)
  }

  /**
   * Three ways in which well-formed events split the views: a request whose payload has a wrong type, a second request
   * for an approval that was decided, and a decision that names another task of the tenant.
   */
  lemma ViewsCanSplit()
    ensures var key := TaskKey("t", "task_1");
            var empty := Board(map[], map[key := []]);
            var asked := Applied(empty, Blank("evt_1", 1, ApprovalRequested("apr_1", true)));
            var decided := Applied(asked, Blank("evt_2", 2, ApprovalDecided("apr_1", "APPROVED", true)));
      && Agree(empty, key) && Agree(asked, key) && Agree(decided, key)
      && !Agree(Applied(empty, Blank("evt_1", 1, ApprovalRequested("apr_1", false))), key)
      && !Agree(Applied(decided, Blank("evt_3", 3, ApprovalRequested("apr_1", true))), key)
      && !Agree(Applied(asked, Blank("evt_3", 2, ApprovalDecided("apr_1", "APPROVED", true)).(task := "task_2")), key)
  {
    var key := TaskKey("t", "task_1");
    var empty := Board(map[], map[key := []]);
    var request, decision := Blank("evt_1", 1, ApprovalRequested("apr_1", true)),
        Blank("evt_2", 2, ApprovalDecided("apr_1", "APPROVED", true));
    var asked := Applied(empty, request);
    RequestSplits(empty, request, key);
    RequestSplits(empty, request.(change := ApprovalRequested("apr_1", false)), key);
    DecisionSplits(asked, decision, key);
    DecisionSplits(asked, Blank("evt_3", 2, ApprovalDecided("apr_1", "APPROVED", true)).(task := "task_2"), key);
    RequestSplits(Applied(asked, decision), Blank("evt_3", 3, ApprovalRequested("apr_1", true)), key);
  }

  // ---- what the rows say, and which events said it ----

  function RowOf(rows: map<string, Row>, id: string): Option<Row> {
    if id in rows then Some(rows[id]) else None
  }

  /** The event that wrote `row` over `before`, told from the event alone. */
  predicate Wrote(e: Event, id: string, before: Option<Row>, row: Row) {
    match e.change
    case ApprovalRequested(approval, typed) =>
      approval == id && typed && "apr_" <= id && before.None? && row == Row(e.tenant, e.task, "PENDING", e.version)
    case ApprovalDecided(approval, decision, typed) =>
      && approval == id && typed && decision in {"APPROVED", "REJECTED", "CANCELLED", "TAKEN_OVER"} && before.Some?
          && before.value.tenant == e.tenant
      && (if e.version > 0 then before.value.version < e.version else before.value.status == "PENDING")
      && row == Row(before.value.tenant, before.value.task, decision, e.version)
    case _ => false
  }

  /** An event changes a row if and only if it may write it, and then to what it says. */
  lemma WritesExactly(board: Board, e: Event, id: string, row: Row)
    requires Wrote(e, id, RowOf(board.rows, id), row)
    ensures RowOf(Applied(board, e).rows, id) == Some(row)
  {
  }

  lemma ChangedWasWritten(board: Board, e: Event, id: string)
    requires RowOf(Applied(board, e).rows, id) != RowOf(board.rows, id)
    ensures id in Applied(board, e).rows && Wrote(e, id, RowOf(board.rows, id), Applied(board, e).rows[id])
  {
  }

  /** The `i`th event wrote the row that is there at the end, and nothing has changed it since. */
  predicate LastWrote(board: Board, events: seq<Event>, i: nat, id: string) {
    && i < |events| && id in AppliedAll(board, events).rows
    && Wrote(events[i], id, RowOf(AppliedAll(board, events[..i]).rows, id), AppliedAll(board, events).rows[id])
    && forall j | i < j <= |events| ::
         RowOf(AppliedAll(board, events[..j]).rows, id) == RowOf(AppliedAll(board, events).rows, id)
  }

  /**
   * Every row of every run was written by one event as that event says: a pending one by its request, any other by a
   * decision of that status.
   */
  lemma {:induction false} EveryRowWasWritten(board: Board, events: seq<Event>, id: string)
    requires board.rows == map[] && id in AppliedAll(board, events).rows
    ensures exists i: nat :: LastWrote(board, events, i, id)
  {
    var front, last := events[..|events| - 1], events[|events| - 1];
    assert events == front + [last];
    if RowOf(AppliedAll(board, front).rows, id) == RowOf(AppliedAll(board, events).rows, id) {
      EveryRowWasWritten(board, front, id);
      var i: nat :| LastWrote(board, front, i, id);
      LastWroteStays(board, front, last, i, id);
    } else {
      WrittenNow(board, front, last, id);
    }
  }

  lemma LastWroteStays(board: Board, front: seq<Event>, last: Event, i: nat, id: string)
    requires LastWrote(board, front, i, id)
    requires RowOf(AppliedAll(board, front).rows, id) == RowOf(AppliedAll(board, front + [last]).rows, id)
    ensures LastWrote(board, front + [last], i, id)
  {
    var events := front + [last];
    assert events[..i] == front[..i] && events[..|events|] == events;
    forall j | i < j <= |events|
      ensures RowOf(AppliedAll(board, events[..j]).rows, id) == RowOf(AppliedAll(board, events).rows, id)
    {
      if j < |events| {
        assert events[..j] == front[..j];
      }
    }
  }

  lemma WrittenNow(board: Board, front: seq<Event>, last: Event, id: string)
    requires id in AppliedAll(board, front + [last]).rows
    requires RowOf(AppliedAll(board, front).rows, id) != RowOf(AppliedAll(board, front + [last]).rows, id)
    ensures LastWrote(board, front + [last], |front|, id)
  {
    var events := front + [last];
    assert events[..|front|] == front && events[..|events|] == events;
    ChangedWasWritten(AppliedAll(board, front), last, id);
  }

  // ---- what the list says ----

  predicate Asks(e: Event, key: TaskKey, id: string) {
    e.change.ApprovalRequested? && e.change.approvalId == id && "apr_" <= id && e.tenant == key.tenant
        && e.task == key.task
  }

  predicate Settles(e: Event, key: TaskKey, id: string) {
    e.change.ApprovalDecided? && e.change.approvalId == id
        && e.change.decision in {"APPROVED", "REJECTED", "CANCELLED", "TAKEN_OVER"} && e.tenant == key.tenant
    && e.task == key.task
  }

  /** The approval was requested in the task, and not decided there since. */
  predicate IsOpen(events: seq<Event>, key: TaskKey, id: string) {
    events != [] &&
    var last := events[|events| - 1];
    Asks(last, key, id) || (!Settles(last, key, id) && IsOpen(events[..|events| - 1], key, id))
  }

  /** The place of the request since which it is open. */
  function OpenSince(events: seq<Event>, key: TaskKey, id: string): (at: nat)
    requires IsOpen(events, key, id)
    ensures at < |events| && Asks(events[at], key, id)
  {
    var front := events[..|events| - 1];
    if IsOpen(front, key, id) then OpenSince(front, key, id) else |front|
  }

  predicate OpenEarlier(events: seq<Event>, key: TaskKey, a: string, b: string) {
    IsOpen(events, key, a) && IsOpen(events, key, b) && OpenSince(events, key, a) < OpenSince(events, key, b)
  }

  predicate InOrder(list: seq<string>, events: seq<Event>, key: TaskKey) {
    list == [] ||
    var front, last := list[..|list| - 1], list[|list| - 1];
    InOrder(front, events, key) && forall x | x in front :: OpenEarlier(events, key, x, last)
  }

  lemma OpenStays(events: seq<Event>, e: Event, key: TaskKey, id: string)
    ensures IsOpen(events + [e], key, id) <==> Asks(e, key, id) || (!Settles(e, key, id) && IsOpen(events, key, id))
    ensures IsOpen(events, key, id) && !Settles(e, key, id) ==>
              OpenSince(events + [e], key, id) == OpenSince(events, key, id)
    ensures !IsOpen(events, key, id) && Asks(e, key, id) ==> OpenSince(events + [e], key, id) == |events|
  {
    assert (events + [e])[..|events|] == events;
  }

  lemma {:induction false} OrderStays(list: seq<string>, events: seq<Event>, e: Event, key: TaskKey)
    requires InOrder(list, events, key) && forall x | x in list :: !Settles(e, key, x)
    ensures InOrder(list, events + [e], key)
  {
    if list != [] {
      var front, last := list[..|list| - 1], list[|list| - 1];
      assert list == front + [last];
      OrderStays(front, events, e, key);
      forall x | x in front ensures OpenEarlier(events + [e], key, x, last) {
        OpenStays(events, e, key, x);
        OpenStays(events, e, key, last);
      }
    }
  }

  lemma {:induction false} OrderWithout(list: seq<string>, wanted: string, events: seq<Event>, key: TaskKey)
    requires InOrder(list, events, key)
    ensures InOrder(Without(list, wanted), events, key)
  {
    if list != [] {
      var front, last := list[..|list| - 1], list[|list| - 1];
      OrderWithout(front, wanted, events, key);
      WithoutFacts(front, wanted);
      var kept := Without(front, wanted);
      assert kept + [] == kept;
      assert (kept + [last])[..|kept|] == kept;
    }
  }

  /** What is open, each once, in the order of the requests. */
  ghost predicate ListsOpen(list: seq<string>, events: seq<Event>, key: TaskKey) {
    InOrder(list, events, key) && forall id :: id in list <==> IsOpen(events, key, id)
  }

  lemma ListStep(list: seq<string>, events: seq<Event>, e: Event, key: TaskKey)
    requires ListsOpen(list, events, key)
    ensures ListsOpen(if key == TaskKey(e.tenant, e.task) then ListAfter(list, e) else list, events + [e], key)
  {
    forall id ensures
      IsOpen(events + [e], key, id) <==> Asks(e, key, id) || (!Settles(e, key, id) && IsOpen(events, key, id))
    {
      OpenStays(events, e, key, id);
    }
    if e.change.ApprovalDecided? && Settles(e, key, e.change.approvalId) {
      var id := e.change.approvalId;
      WithoutFacts(list, id);
      OrderWithout(list, id, events, key);
      OrderStays(Without(list, id), events, e, key);
    } else {
      OrderStays(list, events, e, key);
      if e.change.ApprovalRequested? && Asks(e, key, e.change.approvalId) && e.change.approvalId !in list {
        ListMore(list, events, e, key);
      }
    }
  }

  lemma ListMore(list: seq<string>, events: seq<Event>, e: Event, key: TaskKey)
    requires InOrder(list, events + [e], key) && (forall id :: id in list <==> IsOpen(events, key, id))
    requires e.change.ApprovalRequested? && Asks(e, key, e.change.approvalId) && e.change.approvalId !in list
    ensures InOrder(list + [e.change.approvalId], events + [e], key)
  {
    var id := e.change.approvalId;
    assert (list + [id])[..|list|] == list;
    OpenStays(events, e, key, id);
    forall x | x in list ensures OpenEarlier(events + [e], key, x, id) {
      OpenStays(events, e, key, x);
    }
  }

  /**
   * Over every run the list of a task is what was requested there and not decided since, in the order of the requests.
   */
  lemma {:induction false} ListShowsWhatIsOpen(board: Board, events: seq<Event>, key: TaskKey)
    requires key in board.pending && board.pending[key] == []
    ensures key in AppliedAll(board, events).pending && ListsOpen(AppliedAll(board, events).pending[key], events, key)
  {
    if events != [] {
      var front, last := events[..|events| - 1], events[|events| - 1];
      assert events == front + [last];
      ListShowsWhatIsOpen(board, front, key);
      ListStep(AppliedAll(board, front).pending[key], front, last, key);
    }
  }
}
