/**
 * The projector (internal/task/projector.go over internal/store/pgstore/runtime_outbox.go): it claims outbox rows in id
 * order, appends each to the log through the service, and marks the batch. Delivery is at least once; the appends make
 * it exactly once. A run is any interleaving of the projector's steps with new outbox rows, appends by other writers,
 * failures before and after a commit, marks that fail, cache evictions and crashes.
 */
module Projector {
  import opened Common
  import opened Events
  import opened Service
  import EventLog

  /** A row of runtime_outbox; `body` is None when it is not the JSON of an event. */
  datatype OutboxRow = OutboxRow(tenant: string, task: string, eventId: string, body: Option<Event>)

  /** The row id is its position: rows appear in id order. */
  type Outbox = seq<OutboxRow>

  function Default(value: string, fallback: string): string {
    if value == "" then fallback else value
  }

  /** The event a row carries; what the body leaves out comes from the row's own columns. */
  function Decoded(row: OutboxRow): Event
    requires row.body.Some?
  {
    var e := row.body.value;
    e.(tenant := Default(e.tenant, row.tenant), task := Default(e.task, row.task), id := Default(e.id, row.eventId))
  }

  /** The row must end up in the log; any other is ephemeral or dropped as malformed. */
  predicate Publishable(row: OutboxRow) {
    row.body.Some? && Decoded(row).durable && !EventLog.IsMalformed(Decoded(row))
  }

  // ---- the system ----

  /**
   * `batch` holds the claimed row ids, `at` the next one to append. Two fields only keep count: `marked` of the rows
   * with projected_at, `frontier` of the rows that some process passed.
   */
  datatype World = World(outbox: Outbox, projected: set<nat>, log: EventLog.Log, memory: Memory, batch: seq<nat>,
      at: nat,
                         marked: nat, frontier: nat)

  const START := World([], {}, [], EMPTY, [], 0, 0, 0)

  datatype Action =
    | Publish(row: OutboxRow)                               // the runtime commits one more row
    | Foreign(e: Event)                                     // a writer in another process appends to the log
    | Own(e: Event, fault: Fault, cutoff: int)              // the same process appends an event of its own
    | Claim(limit: nat)
    | Process(fault: Fault, dies: bool, cutoff: int)        // append the next row; `dies`: its failure ends the process
    | Mark(applied: bool)
    | Evict(key: EventKey)
    | Crash

  /** `WHERE projected_at IS NULL ORDER BY id LIMIT ?`. */
  function Pending(projected: set<nat>, from: nat, total: nat, limit: nat): seq<nat>
    decreases total - from
  {
    if from >= total || limit == 0 then []
    else if from in projected then Pending(projected, from + 1, total, limit)
    else [from] + Pending(projected, from + 1, total, limit - 1)
  }

  predicate HasId(outbox: Outbox, id: string) {
    exists i | 0 <= i < |outbox| :: outbox[i].body.Some? && Decoded(outbox[i]).id == id
  }

  /**
   * What the writers owe: a new row's event id is new, and its entity's version is greater than all before it. Other
   * writers' events have ids of their own, and those of the same process move no entity. Whether the log table can hold
   * an event is nobody's duty here.
   */
  predicate Allowed(w: World, a: Action) {
    match a
    case Publish(row) => row.body.Some? ==>
      var e := Decoded(row);
      && !HasId(w.outbox, e.id) && !EventLog.Holds(w.log, e.id) && KeyOf(e) !in w.memory.seen
      && (Versioned(e) ==> forall i | 0 <= i < |w.outbox| && SameEntity(w.outbox[i], e) ::
          Decoded(w.outbox[i]).version < e.version)
    case Foreign(e) => !HasId(w.outbox, e.id)
    case Own(e, _, _) => !HasId(w.outbox, e.id) && !Versioned(e)
    case _ => true
  }

  predicate SameEntity(row: OutboxRow, e: Event) {
    row.body.Some? && Versioned(Decoded(row)) && EntityOf(Decoded(row)) == EntityOf(e)
  }

  function Attempt(w: World, fault: Fault, cutoff: int): Result
    requires w.at < |w.batch| && w.batch[w.at] < |w.outbox| && w.outbox[w.batch[w.at]].body.Some?
  {
    Append(w.memory, w.log, Decoded(w.outbox[w.batch[w.at]]), fault, cutoff)
  }

  function Passed(w: World): World
    requires w.at < |w.batch|
  {
    w.(at := w.at + 1, frontier := Max(w.frontier, w.batch[w.at] + 1))
  }

  /** One turn of the loop in `project`. An error other than a malformed event abandons the batch. */
  function ProcessStep(w: World, fault: Fault, dies: bool, cutoff: int): World {
    if w.at >= |w.batch| || w.batch[w.at] >= |w.outbox| then w
    else if w.outbox[w.batch[w.at]].body.None? then Passed(w)
    else
      var r := Attempt(w, fault, cutoff);
      var after := w.(log := r.log, memory := r.memory);
      if r.reply != StoreError then Passed(after)
      else after.(batch := [], at := 0, memory := if dies then EMPTY else r.memory)
  }

  function MarkStep(w: World, applied: bool): World {
    if w.batch == [] || w.at < |w.batch| then w
    else
      var idle := w.(batch := [], at := 0);
      if applied then idle.(projected := w.projected + (set id | id in w.batch), marked := w.batch[|w.batch| - 1] + 1)
          else idle
  }

  function OwnStep(w: World, e: Event, fault: Fault, cutoff: int): World {
    var r := Append(w.memory, w.log, e, fault, cutoff);
    w.(log := r.log, memory := r.memory)
  }

  function Step(w: World, a: Action): World {
    if !Allowed(w, a) then w else
      match a
      case Publish(row) => w.(outbox := w.outbox + [row])
      case Foreign(e) => w.(log := EventLog.Append(w.log, e).0)
      case Own(e, fault, cutoff) => OwnStep(w, e, fault, cutoff)
      case Claim(limit) => if w.batch != [] then w else w.(batch := Pending(w.projected, 0, |w.outbox|, limit), at := 0)
      case Process(fault, dies, cutoff) => ProcessStep(w, fault, dies, cutoff)
      case Mark(applied) => MarkStep(w, applied)
      case Evict(key) => w.(memory := w.memory.(seen := w.memory.seen - {key}))
      case Crash => w.(memory := EMPTY, batch := [], at := 0)
  }

  function Run(w: World, actions: seq<Action>): World {
    if actions == [] then w else Step(Run(w, actions[..|actions| - 1]), actions[|actions| - 1])
  }

  /** A failed append of a versioned event that did not reach the log ends the process before it is retried. */
  predicate Safe(w: World, a: Action) {
    a.Process? && w.at < |w.batch| && w.batch[w.at] < |w.outbox| && w.outbox[w.batch[w.at]].body.Some? ==>
      var e := Decoded(w.outbox[w.batch[w.at]]);
      var r := Attempt(w, a.fault, a.cutoff);
      r.reply == StoreError && Versioned(e) && !EventLog.Holds(r.log, e.id) ==> a.dies
  }

  predicate SafeRun(w: World, actions: seq<Action>) {
    forall i | 0 <= i < |actions| :: Safe(Run(w, actions[..i]), actions[i])
  }

  // ---- what the log owes to the outbox ----

  predicate InLog(log: EventLog.Log, e: Event) {
    exists k | 0 <= k < |log| :: log[k] == e.(number := log[k].number)
  }

  /** The row is dealt with: its event is in the log, unless it is ephemeral, malformed or no event at all. */
  predicate Settled(log: EventLog.Log, row: OutboxRow) {
    Publishable(row) ==> InLog(log, Decoded(row))
  }

  /** The ids of a task's events in the log that came from the outbox, in log order. */
  function FromOutbox(log: EventLog.Log, outbox: Outbox, task: string): seq<string> {
    if log == [] then [] else
      var last := log[|log| - 1];
      FromOutbox(log[..|log| - 1], outbox, task) + if last.task == task && HasId(outbox, last.id) then [last.id] else []
  }

  /** The ids of a task's publishable events among the first `n` outbox rows, in outbox order. */
  function Published(outbox: Outbox, n: nat, task: string): seq<string>
    requires n <= |outbox|
  {
    if n == 0 then [] else
      Published(outbox, n - 1, task) +
      if Publishable(outbox[n - 1]) && Decoded(outbox[n - 1]).task == task then [Decoded(outbox[n - 1]).id] else []
  }

  /** How many rows are in the log: those passed, and one more when its append failed after the commit. */
  function StoredRows(outbox: Outbox, log: EventLog.Log, frontier: nat): nat
    requires frontier <= |outbox|
  {
    if frontier < |outbox| && Publishable(outbox[frontier]) && EventLog.Holds(log, Decoded(outbox[frontier]).id)
    then frontier + 1 else frontier
  }

  // ---- the invariant ----

  /** Ids are new, and an entity's versions increase. */
  predicate OutboxFits(outbox: Outbox) {
    forall i, j | 0 <= i < j < |outbox| && outbox[i].body.Some? && outbox[j].body.Some? ::
      && Decoded(outbox[i]).id != Decoded(outbox[j]).id
      && (Versioned(Decoded(outbox[j])) && SameEntity(outbox[i], Decoded(outbox[j])) ==>
            Decoded(outbox[i]).version < Decoded(outbox[j]).version)
  }

  /** Passed rows are settled, an outbox id in the log stands for its event, and rows not reached are not in the log. */
  predicate RowsSettled(outbox: Outbox, log: EventLog.Log, frontier: nat) {
    && (forall i | 0 <= i < frontier && i < |outbox| :: Settled(log, outbox[i]))
    && (forall i | 0 <= i < |outbox| && outbox[i].body.Some? && EventLog.Holds(log, Decoded(outbox[i]).id) ::
        InLog(log, Decoded(outbox[i])))
    && (forall i | frontier < i < |outbox| && outbox[i].body.Some? :: !EventLog.Holds(log, Decoded(outbox[i]).id))
  }

  /** The log's outbox events are those of the first `n` rows, once each, in outbox order, task by task. */
  ghost predicate HoldsFirst(outbox: Outbox, log: EventLog.Log, n: nat) {
    n <= |outbox| && forall task :: FromOutbox(log, outbox, task) == Published(outbox, n, task)
  }

  ghost predicate LogFits(outbox: Outbox, log: EventLog.Log, frontier: nat) {
    && frontier <= |outbox| && EventLog.WellNumbered(log) && RowsSettled(outbox, log, frontier)
    && HoldsFirst(outbox, log, StoredRows(outbox, log, frontier))
  }

  ghost predicate AreFirst(rows: set<nat>, n: nat) {
    forall i: nat :: i in rows <==> i < n
  }

  ghost predicate CursorFits(total: nat, projected: set<nat>, batch: seq<nat>, at: nat, marked: nat, frontier: nat) {
    && AreFirst(projected, marked)
    && at <= |batch| && marked + at <= frontier && marked + |batch| <= total
    && forall k | 0 <= k < |batch| :: batch[k] == marked + k
  }

  predicate NotDropped(log: EventLog.Log, memory: Memory, row: OutboxRow, first: bool)
    requires row.body.Some?
  {
    var e := Decoded(row);
    && (e.id != "" ==> KeyOf(e) !in memory.seen)
    && (Versioned(e) ==>
          || VersionOf(memory, EntityOf(e)) < e.version
          || (first && Publishable(row) && EventLog.Holds(log, e.id)))
  }

  /** The entity's version in memory is one that some outbox row gave it. */
  predicate VersionKnown(outbox: Outbox, key: EntityKey, version: int) {
    exists i | 0 <= i < |outbox| && outbox[i].body.Some? ::
      Versioned(Decoded(outbox[i])) && EntityOf(Decoded(outbox[i])) == key && Decoded(outbox[i]).version == version
  }

  /** The memory holds nothing that would drop a row before its event is in the log. */
  ghost predicate MemoryFits(outbox: Outbox, log: EventLog.Log, memory: Memory, frontier: nat) {
    && (forall key | key in memory.versions :: VersionKnown(outbox, key, memory.versions[key]))
    && (forall i | frontier <= i < |outbox| && outbox[i].body.Some? ::
        NotDropped(log, memory, outbox[i], i == frontier))
  }

  ghost predicate Inv(w: World) {
    && OutboxFits(w.outbox) && LogFits(w.outbox, w.log, w.frontier)
    && CursorFits(|w.outbox|, w.projected, w.batch, w.at, w.marked, w.frontier)
    && MemoryFits(w.outbox, w.log, w.memory, w.frontier)
  }

  // ---- one append ----

  /** A well-formed event is found when its id is there, and otherwise stored or refused. */
  lemma StoresUnlessHeld(log: EventLog.Log, e: Event)
    requires e.durable && !EventLog.IsMalformed(e) && (EventLog.Holds(log, e.id) ==> InLog(log, e))
    ensures var (after, outcome) := EventLog.Append(log, e);
      if EventLog.Holds(log, e.id) then outcome.Duplicate? && after == log
      else outcome.Stored? || (outcome.Refused? && after == log)
  {
    if EventLog.Holds(log, e.id) {
      var k :| 0 <= k < |log| && log[k] == e.(number := log[k].number);
      assert log[k].id == e.id && log[k].tenant == e.tenant;
    }
  }

  lemma NumberedAfter(log: EventLog.Log, e: Event)
    requires EventLog.WellNumbered(log)
    ensures var after := EventLog.Append(log, e).0;
      && EventLog.WellNumbered(after)
      && (after != log ==>
            && |after| == |log| + 1 && after == log + [after[|log|]]
            && after[|log|] == e.(number := after[|log|].number))
  {
    EventLog.AppendKeeps(log, e);
  }

  /** What an append may do to the memory. */
  lemma MemoryEffect(m: Memory, log: EventLog.Log, e: Event, fault: Fault, cutoff: int)
    ensures var r := Append(m, log, e, fault, cutoff);
      && r.memory.seen <= m.seen + {KeyOf(e)}
      && (e.id == "" ==> r.memory.seen == m.seen)
      && (r.reply == StoreError ==> e.durable && !EventLog.IsMalformed(e) && KeyOf(e) !in r.memory.seen)
      && (r.reply == MalformedError ==> EventLog.IsMalformed(e))
      && (r.memory.versions == m.versions
          || (Versioned(e) && r.memory.versions == m.versions[EntityOf(e) := e.version]))
  {
    VersionEffect(m, log, e, fault, cutoff);
    if !Seen(m, e) && !Outdated(m, e) && e.durable {
      DurableEffect(Noted(m, e), log, e, fault, cutoff);
    }
  }

  /** What an append may do to the log. */
  lemma LogEffect(m: Memory, log: EventLog.Log, e: Event, fault: Fault, cutoff: int)
    ensures var r := Append(m, log, e, fault, cutoff);
      && r.log in {log, EventLog.Append(log, e).0}
      && (!e.durable || EventLog.IsMalformed(e) ==> r.log == log)
      && (r.reply == Done && e.durable && !Seen(m, e) && !Outdated(m, e) ==>
            r.log == EventLog.Append(log, e).0 && !EventLog.Append(log, e).1.Refused?)
  {
    NumberDoesNotMatter(log, e, NextOf(Noted(m, e), e.task) + 1);
  }

  // ---- every step keeps the invariant ----

  lemma {:induction false} PendingIsTheRest(projected: set<nat>, from: nat, marked: nat, total: nat, limit: nat)
    requires AreFirst(projected, marked) && from <= total && marked <= total
    ensures var start := Max(from, marked); var rows := Pending(projected, from, total, limit);
      start + |rows| <= total && forall k | 0 <= k < |rows| :: rows[k] == start + k
    decreases total - from
  {
    if from < total && limit > 0 {
      if from in projected {
        PendingIsTheRest(projected, from + 1, marked, total, limit);
      } else {
        PendingIsTheRest(projected, from + 1, marked, total, limit - 1);
      }
    }
  }

  lemma MarkKeepsCursor(total: nat, projected: set<nat>, batch: seq<nat>, marked: nat, frontier: nat)
    requires CursorFits(total, projected, batch, |batch|, marked, frontier) && batch != []
    ensures CursorFits(total, projected + (set id | id in batch), [], 0, batch[|batch| - 1] + 1, frontier)
  {
    var more := projected + (set id | id in batch);
    forall i: nat ensures i in more <==> i < marked + |batch| {
      if marked <= i < marked + |batch| {
        assert batch[i - marked] == i;
      }
    }
  }

  lemma LessSeen(outbox: Outbox, log: EventLog.Log, memory: Memory, key: EventKey, frontier: nat)
    requires MemoryFits(outbox, log, memory, frontier)
    ensures MemoryFits(outbox, log, memory.(seen := memory.seen - {key}), frontier)
    ensures MemoryFits(outbox, log, EMPTY, frontier)
  {
    var less := memory.(seen := memory.seen - {key});
    forall i | frontier <= i < |outbox| && outbox[i].body.Some?
        ensures NotDropped(log, less, outbox[i], i == frontier) {
      assert NotDropped(log, memory, outbox[i], i == frontier);
    }
  }

  // ---- a new row ----

  lemma HasIdMore(outbox: Outbox, row: OutboxRow, id: string)
    ensures HasId(outbox + [row], id) <==> HasId(outbox, id) || (row.body.Some? && Decoded(row).id == id)
  {
    var more := outbox + [row];
    assert more[|outbox|] == row;
    if i :| 0 <= i < |outbox| && outbox[i].body.Some? && Decoded(outbox[i]).id == id {
      assert more[i] == outbox[i];
    }
  }

  lemma {:induction false} NewIdStays(log: EventLog.Log, outbox: Outbox, row: OutboxRow, task: string)
    requires row.body.Some? ==> !EventLog.Holds(log, Decoded(row).id)
    ensures FromOutbox(log, outbox + [row], task) == FromOutbox(log, outbox, task)
  {
    if log != [] {
      var front := log[..|log| - 1];
      if row.body.Some? {
        assert forall i | 0 <= i < |front| :: front[i] == log[i];
      }
      NewIdStays(front, outbox, row, task);
      HasIdMore(outbox, row, log[|log| - 1].id);
    }
  }

  lemma {:induction false} PublishedStays(outbox: Outbox, row: OutboxRow, n: nat, task: string)
    requires n <= |outbox|
    ensures Published(outbox + [row], n, task) == Published(outbox, n, task)
  {
    if n > 0 {
      PublishedStays(outbox, row, n - 1, task);
    }
  }

  lemma PublishOutbox(w: World, row: OutboxRow)
    requires OutboxFits(w.outbox) && Allowed(w, Publish(row))
    ensures OutboxFits(w.outbox + [row])
  {
  }

  lemma PublishLog(w: World, row: OutboxRow)
    requires LogFits(w.outbox, w.log, w.frontier) && Allowed(w, Publish(row))
    ensures LogFits(w.outbox + [row], w.log, w.frontier)
  {
    var more := w.outbox + [row];
    assert more[|w.outbox|] == row && forall i | 0 <= i < |w.outbox| :: more[i] == w.outbox[i];
    assert RowsSettled(more, w.log, w.frontier);
    var n := StoredRows(w.outbox, w.log, w.frontier);
    assert StoredRows(more, w.log, w.frontier) == n;
    forall task ensures FromOutbox(w.log, more, task) == Published(more, n, task) {
      NewIdStays(w.log, w.outbox, row, task);
      PublishedStays(w.outbox, row, n, task);
    }
  }

  lemma VersionKnownMore(outbox: Outbox, row: OutboxRow, key: EntityKey, version: int)
    requires VersionKnown(outbox, key, version)
    ensures VersionKnown(outbox + [row], key, version)
  {
    var i :| 0 <= i < |outbox| && outbox[i].body.Some? &&
             Versioned(Decoded(outbox[i])) && EntityOf(Decoded(outbox[i])) == key
                 && Decoded(outbox[i]).version == version;
    assert (outbox + [row])[i] == outbox[i];
  }

  lemma PublishMemory(w: World, row: OutboxRow)
    requires MemoryFits(w.outbox, w.log, w.memory, w.frontier) && w.frontier <= |w.outbox| && Allowed(w, Publish(row))
    ensures MemoryFits(w.outbox + [row], w.log, w.memory, w.frontier)
  {
    var more := w.outbox + [row];
    forall key | key in w.memory.versions ensures VersionKnown(more, key, w.memory.versions[key]) {
      VersionKnownMore(w.outbox, row, key, w.memory.versions[key]);
    }
    if row.body.Some? {
      NewRowNotDropped(w, row);
    }
  }

  lemma NewRowNotDropped(w: World, row: OutboxRow)
    requires MemoryFits(w.outbox, w.log, w.memory, w.frontier) && row.body.Some? && Allowed(w, Publish(row))
    ensures NotDropped(w.log, w.memory, row, |w.outbox| == w.frontier)
  {
  }

  // ---- the log grows ----

  lemma LaterLog(log: EventLog.Log, e: Event)
    ensures forall d: Event | InLog(log, d) :: InLog(log + [e], d)
    ensures forall id :: EventLog.Holds(log + [e], id) <==> EventLog.Holds(log, id) || id == e.id
  {
    var more := log + [e];
    assert more[|log|] == e;
    forall d: Event | InLog(log, d) ensures InLog(more, d) {
      var k :| 0 <= k < |log| && log[k] == d.(number := log[k].number);
      assert more[k] == log[k];
    }
    forall id ensures EventLog.Holds(more, id) <==> EventLog.Holds(log, id) || id == e.id {
      if i :| 0 <= i < |log| && log[i].id == id {
        assert more[i] == log[i];
      }
    }
  }

  lemma MoreHeld(outbox: Outbox, log: EventLog.Log, log': EventLog.Log, memory: Memory, frontier: nat)
    requires MemoryFits(outbox, log, memory, frontier) && forall id | EventLog.Holds(log, id) ::
        EventLog.Holds(log', id)
    ensures MemoryFits(outbox, log', memory, frontier)
  {
  }

  lemma ForeignRow(outbox: Outbox, log: EventLog.Log, frontier: nat, row: Event)
    requires LogFits(outbox, log, frontier) && !HasId(outbox, row.id) && EventLog.WellNumbered(log + [row])
    ensures LogFits(outbox, log + [row], frontier)
  {
    LaterLog(log, row);
    forall i | 0 <= i < |outbox| && outbox[i].body.Some?
      ensures EventLog.Holds(log + [row], Decoded(outbox[i]).id) <==> EventLog.Holds(log, Decoded(outbox[i]).id)
    {
      assert HasId(outbox, Decoded(outbox[i]).id);
    }
    assert (log + [row])[..|log|] == log;
  }

  lemma ForeignKeeps(w: World, e: Event)
    requires Inv(w) && Allowed(w, Foreign(e))
    ensures Inv(w.(log := EventLog.Append(w.log, e).0))
  {
    var after := EventLog.Append(w.log, e).0;
    NumberedAfter(w.log, e);
    if after != w.log {
      ForeignRow(w.outbox, w.log, w.frontier, after[|w.log|]);
      LaterLog(w.log, after[|w.log|]);
      MoreHeld(w.outbox, w.log, after, w.memory, w.frontier);
    }
  }

  /** An event of the process's own leaves the memory fit: its id is no row's, and it moves no entity. */
  lemma OwnMemory(outbox: Outbox, log: EventLog.Log, memory: Memory, frontier: nat, e: Event, memory': Memory)
    requires MemoryFits(outbox, log, memory, frontier) && !HasId(outbox, e.id)
    requires memory'.versions == memory.versions && memory'.seen <= memory.seen + {KeyOf(e)}
    ensures MemoryFits(outbox, log, memory', frontier)
  {
    forall i | frontier <= i < |outbox| && outbox[i].body.Some?
        ensures NotDropped(log, memory', outbox[i], i == frontier) {
      assert NotDropped(log, memory, outbox[i], i == frontier);
      assert HasId(outbox, Decoded(outbox[i]).id);
    }
  }

  lemma OwnKeeps(w: World, e: Event, fault: Fault, cutoff: int)
    requires Inv(w) && Allowed(w, Own(e, fault, cutoff))
    ensures Inv(OwnStep(w, e, fault, cutoff))
  {
    var r := Append(w.memory, w.log, e, fault, cutoff);
    LogOfAppend(w.memory, w.log, e, fault, cutoff);
    MemoryEffect(w.memory, w.log, e, fault, cutoff);
    ForeignKeeps(w, e);
    OwnMemory(w.outbox, r.log, w.memory, w.frontier, e, r.memory);
  }

  lemma StoringSettles(outbox: Outbox, log: EventLog.Log, frontier: nat, row: Event)
    requires RowsSettled(outbox, log, frontier) && frontier < |outbox| && outbox[frontier].body.Some?
    requires forall i | 0 <= i < |outbox| && i != frontier && outbox[i].body.Some? :: Decoded(outbox[i]).id != row.id
    requires row == Decoded(outbox[frontier]).(number := row.number)
    ensures RowsSettled(outbox, log + [row], frontier) && InLog(log + [row], Decoded(outbox[frontier]))
  {
    LaterLog(log, row);
    assert (log + [row])[|log|] == row;
  }

  lemma StoringOrders(outbox: Outbox, log: EventLog.Log, frontier: nat, row: Event)
    requires frontier < |outbox| && HoldsFirst(outbox, log, frontier) && Publishable(outbox[frontier])
    requires row == Decoded(outbox[frontier]).(number := row.number)
    ensures HoldsFirst(outbox, log + [row], frontier + 1)
  {
    var more := log + [row];
    assert more[|log|] == row && more[..|log|] == log;
    assert HasId(outbox, row.id);
    forall task ensures FromOutbox(more, outbox, task) == Published(outbox, frontier + 1, task) {
      assert FromOutbox(log, outbox, task) == Published(outbox, frontier, task);
    }
  }

  /** The event of the row at the frontier enters the log. */
  lemma StoringKeeps(outbox: Outbox, log: EventLog.Log, frontier: nat, row: Event)
    requires OutboxFits(outbox) && LogFits(outbox, log, frontier) && EventLog.WellNumbered(log + [row])
    requires frontier < |outbox| && Publishable(outbox[frontier])
    requires row == Decoded(outbox[frontier]).(number := row.number) && !EventLog.Holds(log, row.id)
    ensures LogFits(outbox, log + [row], frontier) && InLog(log + [row], Decoded(outbox[frontier]))
  {
    IdsDiffer(outbox, frontier, row.id);
    StoringSettles(outbox, log, frontier, row);
    StoringOrders(outbox, log, frontier, row);
    StoredAtFrontier(outbox, log, frontier, row);
  }

  lemma IdsDiffer(outbox: Outbox, at: nat, id: string)
    requires OutboxFits(outbox) && at < |outbox| && outbox[at].body.Some? && Decoded(outbox[at]).id == id
    ensures forall i | 0 <= i < |outbox| && i != at && outbox[i].body.Some? :: Decoded(outbox[i]).id != id
  {
  }

  lemma StoredAtFrontier(outbox: Outbox, log: EventLog.Log, frontier: nat, row: Event)
    requires frontier < |outbox| && Publishable(outbox[frontier]) && row.id == Decoded(outbox[frontier]).id
    ensures StoredRows(outbox, log + [row], frontier) == frontier + 1
  {
    LaterLog(log, row);
  }

  /** The row at the frontier is settled and passed. */
  lemma AdvanceKeeps(outbox: Outbox, log: EventLog.Log, frontier: nat)
    requires LogFits(outbox, log, frontier) && frontier < |outbox| && Settled(log, outbox[frontier])
    ensures LogFits(outbox, log, frontier + 1)
  {
    var row := outbox[frontier];
    if Publishable(row) {
      assert EventLog.Holds(log, Decoded(row).id);
    } else {
      forall task ensures Published(outbox, frontier + 1, task) == Published(outbox, frontier, task) {
        assert Published(outbox, frontier, task) + [] == Published(outbox, frontier, task);
      }
    }
    assert StoredRows(outbox, log, frontier + 1) == frontier + 1;
  }

  // ---- processing one row ----

  lemma PassedIsHeld(outbox: Outbox, log: EventLog.Log, frontier: nat, j: nat)
    requires RowsSettled(outbox, log, frontier) && j <= frontier && j < |outbox| && Publishable(outbox[j])
    ensures j == frontier || EventLog.Holds(log, Decoded(outbox[j]).id)
  {
  }

  /**
   * The log after an attempt at row `j`: it fits, it only grew, and a row that is answered without an error is settled.
   */
  lemma AttemptKeepsLog(w: World, j: nat, fault: Fault, cutoff: int)
    requires Inv(w) && j <= w.frontier && j < |w.outbox| && w.outbox[j].body.Some?
    ensures var r := Append(w.memory, w.log, Decoded(w.outbox[j]), fault, cutoff);
      && LogFits(w.outbox, r.log, w.frontier) && (r.reply != StoreError ==> Settled(r.log, w.outbox[j]))
      && forall id | EventLog.Holds(w.log, id) :: EventLog.Holds(r.log, id)
  {
    var row := w.outbox[j];
    var e := Decoded(row);
    var r := Append(w.memory, w.log, e, fault, cutoff);
    LogEffect(w.memory, w.log, e, fault, cutoff);
    MemoryEffect(w.memory, w.log, e, fault, cutoff);
    if Publishable(row) {
      StoresUnlessHeld(w.log, e);
      if EventLog.Holds(w.log, e.id) {
        assert r.log == w.log;
      } else {
        PassedIsHeld(w.outbox, w.log, w.frontier, j);
        assert NotDropped(w.log, w.memory, w.outbox[j], true);
        NumberedAfter(w.log, e);
        var after := EventLog.Append(w.log, e).0;
        if after != w.log {
          StoringKeeps(w.outbox, w.log, w.frontier, after[|w.log|]);
          LaterLog(w.log, after[|w.log|]);
        }
      }
    }
  }

  /** What the memory knows after an append of row `j` comes from the outbox. */
  lemma KnowledgeKeeps(outbox: Outbox, log: EventLog.Log, memory: Memory, j: nat, fault: Fault, cutoff: int)
    requires j < |outbox| && outbox[j].body.Some?
    requires forall key | key in memory.versions :: VersionKnown(outbox, key, memory.versions[key])
    ensures var after := Append(memory, log, Decoded(outbox[j]), fault, cutoff).memory;
      forall key | key in after.versions :: VersionKnown(outbox, key, after.versions[key])
  {
    MemoryEffect(memory, log, Decoded(outbox[j]), fault, cutoff);
  }

  /** Appending row `j` does not make the memory drop a later row. */
  lemma LaterRowStays(outbox: Outbox, log: EventLog.Log, memory: Memory, j: nat, i: nat,
                      fault: Fault, cutoff: int, first: bool)
    requires OutboxFits(outbox) && j < i < |outbox| && outbox[j].body.Some? && outbox[i].body.Some?
    requires NotDropped(log, memory, outbox[i], first)
    requires var r := Append(memory, log, Decoded(outbox[j]), fault, cutoff);
        forall id | EventLog.Holds(log, id) :: EventLog.Holds(r.log, id)
    ensures var r := Append(memory, log, Decoded(outbox[j]), fault, cutoff);
        NotDropped(r.log, r.memory, outbox[i], first)
  {
    var e, d := Decoded(outbox[j]), Decoded(outbox[i]);
    MemoryEffect(memory, log, e, fault, cutoff);
    if Versioned(d) && Versioned(e) && EntityOf(d) == EntityOf(e) {
      assert SameEntity(outbox[j], d);
    }
  }

  /** The memory after an append of row `j`, with a log and a frontier that grew. */
  lemma MemoryKeeps(outbox: Outbox, log: EventLog.Log, memory: Memory, frontier: nat, j: nat,
                    fault: Fault, cutoff: int, frontier': nat)
    requires OutboxFits(outbox) && MemoryFits(outbox, log, memory, frontier)
    requires j <= frontier && j < |outbox| && outbox[j].body.Some?
    requires var r := Append(memory, log, Decoded(outbox[j]), fault, cutoff);
        forall id | EventLog.Holds(log, id) :: EventLog.Holds(r.log, id)
    requires frontier' == frontier || frontier' == frontier + 1 == j + 1
    requires j == frontier' ==>
               var r := Append(memory, log, Decoded(outbox[j]), fault, cutoff); var e := Decoded(outbox[j]);
               r.reply == StoreError && (Versioned(e) ==> EventLog.Holds(r.log, e.id))
    ensures var r := Append(memory, log, Decoded(outbox[j]), fault, cutoff);
        MemoryFits(outbox, r.log, r.memory, frontier')
  {
    var r := Append(memory, log, Decoded(outbox[j]), fault, cutoff);
    KnowledgeKeeps(outbox, log, memory, j, fault, cutoff);
    forall i | frontier' <= i < |outbox| && outbox[i].body.Some?
        ensures NotDropped(r.log, r.memory, outbox[i], i == frontier') {
      assert NotDropped(log, memory, outbox[i], i == frontier);
      if i == j {
        MemoryEffect(memory, log, Decoded(outbox[j]), fault, cutoff);
      } else {
        LaterRowStays(outbox, log, memory, j, i, fault, cutoff, i == frontier);
      }
    }
  }

  lemma CursorPasses(w: World)
    requires CursorFits(|w.outbox|, w.projected, w.batch, w.at, w.marked, w.frontier) && w.at < |w.batch|
    ensures CursorFits(|w.outbox|, w.projected, w.batch, w.at + 1, w.marked, Passed(w).frontier)
    ensures Passed(w).frontier == if w.batch[w.at] == w.frontier then w.frontier + 1 else w.frontier
    ensures w.batch[w.at] <= w.frontier && w.batch[w.at] < |w.outbox|
  {
  }

  /** Passing a row that is no event. */
  lemma NoEventKeeps(w: World)
    requires Inv(w) && w.at < |w.batch| && w.batch[w.at] < |w.outbox| && w.outbox[w.batch[w.at]].body.None?
    ensures Inv(Passed(w))
  {
    CursorPasses(w);
    var after := Passed(w).frontier;
    if w.batch[w.at] == w.frontier {
      AdvanceKeeps(w.outbox, w.log, w.frontier);
    }
    forall i | after <= i < |w.outbox| && w.outbox[i].body.Some?
        ensures NotDropped(w.log, w.memory, w.outbox[i], i == after) {
      assert NotDropped(w.log, w.memory, w.outbox[i], i == w.frontier);
    }
  }

  lemma AdvanceIfFirst(outbox: Outbox, log: EventLog.Log, frontier: nat, j: nat)
    requires LogFits(outbox, log, frontier) && j <= frontier && j < |outbox| && Settled(log, outbox[j])
    ensures LogFits(outbox, log, if j == frontier then frontier + 1 else frontier)
  {
    if j == frontier {
      AdvanceKeeps(outbox, log, frontier);
    }
  }

  /** The log after a row that was answered without an error, with the frontier behind the row when it was the first. */
  lemma AnsweredLog(w: World, j: nat, fault: Fault, cutoff: int)
    requires Inv(w) && j <= w.frontier && j < |w.outbox| && w.outbox[j].body.Some?
    requires Append(w.memory, w.log, Decoded(w.outbox[j]), fault, cutoff).reply != StoreError
    ensures var r := Append(w.memory, w.log, Decoded(w.outbox[j]), fault, cutoff);
      && LogFits(w.outbox, r.log, if j == w.frontier then w.frontier + 1 else w.frontier)
      && forall id | EventLog.Holds(w.log, id) :: EventLog.Holds(r.log, id)
  {
    AttemptKeepsLog(w, j, fault, cutoff);
    AdvanceIfFirst(w.outbox, Append(w.memory, w.log, Decoded(w.outbox[j]), fault, cutoff).log, w.frontier, j);
  }

  lemma AnsweredKeeps(w: World, fault: Fault, cutoff: int)
    requires Inv(w) && w.at < |w.batch| && w.batch[w.at] < |w.outbox| && w.outbox[w.batch[w.at]].body.Some?
    requires Attempt(w, fault, cutoff).reply != StoreError
    ensures var r := Attempt(w, fault, cutoff); Inv(Passed(w.(log := r.log, memory := r.memory)))
  {
    var j := w.batch[w.at];
    var r := Append(w.memory, w.log, Decoded(w.outbox[j]), fault, cutoff);
    CursorPasses(w);
    AnsweredLog(w, j, fault, cutoff);
    MemoryKeeps(w.outbox, w.log, w.memory, w.frontier, j, fault, cutoff, Passed(w).frontier);
    AnsweredFits(w, r.log, r.memory);
  }

  /** The invariant after a row was passed, from its parts. */
  lemma AnsweredFits(w: World, log: EventLog.Log, memory: Memory)
    requires w.at < |w.batch| && OutboxFits(w.outbox) && LogFits(w.outbox, log, Passed(w).frontier)
    requires CursorFits(|w.outbox|, w.projected, w.batch, w.at + 1, w.marked, Passed(w).frontier)
    requires MemoryFits(w.outbox, log, memory, Passed(w).frontier)
    ensures Inv(Passed(w.(log := log, memory := memory)))
  {
    var after := Passed(w.(log := log, memory := memory));
    assert after == w.(log := log, memory := memory, at := w.at + 1, frontier := Passed(w).frontier);
  }

  lemma FailedKeeps(w: World, fault: Fault, dies: bool, cutoff: int)
    requires Inv(w) && w.at < |w.batch| && w.batch[w.at] < |w.outbox| && w.outbox[w.batch[w.at]].body.Some?
    requires Attempt(w, fault, cutoff).reply == StoreError && Safe(w, Process(fault, dies, cutoff))
    ensures var r := Attempt(w, fault, cutoff);
            Inv(w.(log := r.log, batch := [], at := 0, memory := if dies then EMPTY else r.memory))
  {
    var j := w.batch[w.at];
    CursorPasses(w);
    AttemptKeepsLog(w, j, fault, cutoff);
    if dies {
      LessSeen(w.outbox, w.log, w.memory, KeyOf(Decoded(w.outbox[j])), w.frontier);
      MoreHeld(w.outbox, w.log, Attempt(w, fault, cutoff).log, EMPTY, w.frontier);
    } else {
      MemoryKeeps(w.outbox, w.log, w.memory, w.frontier, j, fault, cutoff, w.frontier);
    }
  }

  lemma PublishKeeps(w: World, row: OutboxRow)
    requires Inv(w) && Allowed(w, Publish(row))
    ensures Inv(w.(outbox := w.outbox + [row]))
  {
    PublishOutbox(w, row);
    PublishLog(w, row);
    PublishMemory(w, row);
  }

  lemma ProcessKeeps(w: World, fault: Fault, dies: bool, cutoff: int)
    requires Inv(w) && Safe(w, Process(fault, dies, cutoff))
    ensures Inv(ProcessStep(w, fault, dies, cutoff))
  {
    if w.at < |w.batch| && w.batch[w.at] < |w.outbox| {
      if w.outbox[w.batch[w.at]].body.None? {
        NoEventKeeps(w);
      } else if Attempt(w, fault, cutoff).reply != StoreError {
        AnsweredKeeps(w, fault, cutoff);
      } else {
        FailedKeeps(w, fault, dies, cutoff);
      }
    }
  }

  lemma ClaimKeeps(w: World, limit: nat)
    requires Inv(w) && w.batch == []
    ensures Inv(w.(batch := Pending(w.projected, 0, |w.outbox|, limit), at := 0))
  {
    PendingIsTheRest(w.projected, 0, w.marked, |w.outbox|, limit);
  }

  lemma MarkKeeps(w: World, applied: bool)
    requires Inv(w)
    ensures Inv(MarkStep(w, applied))
  {
    if w.batch != [] && w.at == |w.batch| {
      MarkKeepsCursor(|w.outbox|, w.projected, w.batch, w.marked, w.frontier);
    }
  }

  lemma StepKeeps(w: World, a: Action)
    requires Inv(w) && Safe(w, a)
    ensures Inv(Step(w, a))
  {
    if Allowed(w, a) {
      match a
      case Publish(row) => PublishKeeps(w, row);
      case Foreign(e) => ForeignKeeps(w, e);
      case Own(e, fault, cutoff) => OwnKeeps(w, e, fault, cutoff);
      case Claim(limit) =>
        if w.batch == [] {
          ClaimKeeps(w, limit);
        }
      case Process(fault, dies, cutoff) => ProcessKeeps(w, fault, dies, cutoff);
      case Mark(applied) => MarkKeeps(w, applied);
      case Evict(key) => LessSeen(w.outbox, w.log, w.memory, key, w.frontier);
      case Crash => LessSeen(w.outbox, w.log, w.memory, EventKey("", ""), w.frontier);
    }
  }

  lemma {:induction false} RunKeeps(actions: seq<Action>)
    requires SafeRun(START, actions)
    ensures Inv(Run(START, actions))
  {
    if actions != [] {
      var front := actions[..|actions| - 1];
      assert forall i | 0 <= i < |front| :: front[..i] == actions[..i];
      RunKeeps(front);
      StepKeeps(Run(START, front), actions[|actions| - 1]);
    }
  }

  // ---- exactly once ----

  /**
   * Over every run of claims, appends, marks, failures, evictions and crashes: each task's log is numbered 1, 2, 3,
   * ...; the events in it that came from the outbox are exactly those of the first rows, once each, in outbox order;
   * and every row that is marked has its event in the log, unless it is ephemeral, malformed or no event.
   */
  lemma ExactlyOnce(actions: seq<Action>)
    requires SafeRun(START, actions)
    ensures var w := Run(START, actions);
      && (forall task, k | 0 <= k < |EventLog.Of(w.log, task)| :: EventLog.Of(w.log, task)[k].number == k + 1)
      && (exists n: nat :: HoldsFirst(w.outbox, w.log, n) && forall i: nat | i in w.projected :: i < n)
      && (forall i: nat | i in w.projected :: i < |w.outbox| && Settled(w.log, w.outbox[i]))
  {
    RunKeeps(actions);
    var w := Run(START, actions);
    HeldFromTheFrontier(w.outbox, w.log, w.frontier);
    MarkedArePassed(w.outbox, w.log, w.projected, w.batch, w.at, w.marked, w.frontier);
  }

  lemma AllPassed(total: nat, projected: set<nat>, batch: seq<nat>, at: nat, marked: nat, frontier: nat)
    requires CursorFits(total, projected, batch, at, marked, frontier)
    requires forall i: nat | i < total :: i in projected
    ensures frontier >= total
  {
    if total > 0 {
      var last: nat := total - 1;
      assert last in projected;
    }
  }

  lemma HeldFromTheFrontier(outbox: Outbox, log: EventLog.Log, frontier: nat)
    requires LogFits(outbox, log, frontier)
    ensures exists n: nat :: n >= frontier && HoldsFirst(outbox, log, n)
    ensures frontier == |outbox| ==> HoldsFirst(outbox, log, |outbox|)
  {
  }

  lemma MarkedArePassed(outbox: Outbox, log: EventLog.Log, projected: set<nat>, batch: seq<nat>,
                        at: nat, marked: nat, frontier: nat)
    requires LogFits(outbox, log, frontier)
    requires CursorFits(|outbox|, projected, batch, at, marked, frontier)
    ensures forall i: nat | i in projected :: i < frontier && i < |outbox| && Settled(log, outbox[i])
  {
  }

  predicate AllMarked(w: World) {
    forall i: nat :: i < |w.outbox| ==> i in w.projected
  }

  lemma AllMarkedIsAllHeld(w: World)
    requires Inv(w) && AllMarked(w)
    ensures HoldsFirst(w.outbox, w.log, |w.outbox|)
  {
    AllPassed(|w.outbox|, w.projected, w.batch, w.at, w.marked, w.frontier);
    HeldFromTheFrontier(w.outbox, w.log, w.frontier);
  }

  /** When every row is marked, the log holds every publishable event of the outbox, in order. */
  lemma NothingIsLeftOut(actions: seq<Action>)
    requires SafeRun(START, actions) && AllMarked(Run(START, actions))
    ensures var w := Run(START, actions); HoldsFirst(w.outbox, w.log, |w.outbox|)
  {
    RunKeeps(actions);
    AllMarkedIsAllHeld(Run(START, actions));
  }

  // ---- the same, in the rows' own columns ----

  /** The id, task and tenant of a row's event: those of the body, or of the row's column when the body has none. */
  function RowId(row: OutboxRow): string
    requires row.body.Some?
  {
    if row.body.value.id != "" then row.body.value.id else row.eventId
  }

  function RowTask(row: OutboxRow): string
    requires row.body.Some?
  {
    if row.body.value.task != "" then row.body.value.task else row.task
  }

  function RowTenant(row: OutboxRow): string
    requires row.body.Some?
  {
    if row.body.value.tenant != "" then row.body.value.tenant else row.tenant
  }

  /** The row has a durable event with an id, a task and a tenant. */
  predicate MustBeLogged(row: OutboxRow) {
    row.body.Some? && row.body.value.durable && RowId(row) != "" && RowTask(row) != "" && RowTenant(row) != ""
  }

  /** The log entry says what the row says; only the number is the log's own. */
  predicate Carries(entry: Event, row: OutboxRow) {
    && row.body.Some?
    && var b := row.body.value;
       && entry.id == RowId(row) && entry.task == RowTask(row) && entry.tenant == RowTenant(row)
       && entry.change == b.change && entry.durable == b.durable && entry.occurred == b.occurred
       && entry.entityKind == b.entityKind && entry.entityId == b.entityId && entry.version == b.version
       && entry.follows == b.follows
  }

  predicate IsRowId(outbox: Outbox, id: string) {
    exists i | 0 <= i < |outbox| :: outbox[i].body.Some? && RowId(outbox[i]) == id
  }

  /** The ids of a task's log entries that are an outbox row's, in log order. */
  function LoggedIds(log: EventLog.Log, outbox: Outbox, task: string): seq<string> {
    if log == [] then [] else
      var last := log[|log| - 1];
      LoggedIds(log[..|log| - 1], outbox, task) + if last.task == task && IsRowId(outbox, last.id) then [last.id]
          else []
  }

  /** The ids of a task's rows among the first `n` that must be logged, in outbox order. */
  function RowIds(outbox: Outbox, n: nat, task: string): seq<string>
    requires n <= |outbox|
  {
    if n == 0 then [] else
      var row := outbox[n - 1];
      RowIds(outbox, n - 1, task) + if MustBeLogged(row) && RowTask(row) == task then [RowId(row)] else []
  }

  lemma SameRow(row: OutboxRow)
    requires row.body.Some?
    ensures Decoded(row).id == RowId(row) && Decoded(row).task == RowTask(row) && Decoded(row).tenant == RowTenant(row)
    ensures Publishable(row) <==> MustBeLogged(row)
    ensures forall n: nat :: Carries(Decoded(row).(number := n), row)
  {
  }

  lemma SameIds(outbox: Outbox)
    ensures forall id :: IsRowId(outbox, id) <==> HasId(outbox, id)
  {
    forall i | 0 <= i < |outbox| && outbox[i].body.Some? ensures Decoded(outbox[i]).id == RowId(outbox[i]) {
      SameRow(outbox[i]);
    }
  }

  lemma {:induction false} SameLogged(log: EventLog.Log, outbox: Outbox, task: string)
    ensures LoggedIds(log, outbox, task) == FromOutbox(log, outbox, task)
  {
    SameIds(outbox);
    if log != [] {
      SameLogged(log[..|log| - 1], outbox, task);
    }
  }

  lemma {:induction false} SameRows(outbox: Outbox, n: nat, task: string)
    requires n <= |outbox|
    ensures RowIds(outbox, n, task) == Published(outbox, n, task)
  {
    if n > 0 {
      SameRows(outbox, n - 1, task);
      if outbox[n - 1].body.Some? {
        SameRow(outbox[n - 1]);
      }
    }
  }

  /** For every task, the log has the ids of the first `n` rows that must be logged, once each and in outbox order. */
  ghost predicate LogsFirst(outbox: Outbox, log: EventLog.Log, n: nat) {
    n <= |outbox| && forall task :: LoggedIds(log, outbox, task) == RowIds(outbox, n, task)
  }

  lemma LogsWhatItHolds(outbox: Outbox, log: EventLog.Log, n: nat)
    requires HoldsFirst(outbox, log, n)
    ensures LogsFirst(outbox, log, n)
  {
    forall task ensures LoggedIds(log, outbox, task) == RowIds(outbox, n, task) {
      SameLogged(log, outbox, task);
      SameRows(outbox, n, task);
    }
  }

  lemma EntriesCarryTheirRows(outbox: Outbox, log: EventLog.Log, frontier: nat, k: nat, i: nat)
    requires EventLog.WellNumbered(log) && RowsSettled(outbox, log, frontier)
    requires k < |log| && i < |outbox| && outbox[i].body.Some? && log[k].id == RowId(outbox[i])
    ensures Carries(log[k], outbox[i])
  {
    SameRow(outbox[i]);
    assert EventLog.Holds(log, Decoded(outbox[i]).id);
    var m :| 0 <= m < |log| && log[m] == Decoded(outbox[i]).(number := log[m].number);
    assert m == k;
  }

  lemma SettledIsCarried(log: EventLog.Log, row: OutboxRow)
    requires Settled(log, row) && MustBeLogged(row)
    ensures exists k | 0 <= k < |log| :: Carries(log[k], row)
  {
    SameRow(row);
  }

  /**
   * After every safe run each marked row that must be logged has an entry of its own tenant, task and id, with what its
   * body says; an entry with a row's id says what that row says and no other entry has the id; and the entries that
   * came from the outbox are those of the first rows, once each, in outbox order.
   */
  lemma RowsAreLoggedAsWritten(actions: seq<Action>)
    requires SafeRun(START, actions)
    ensures var w := Run(START, actions);
      && (forall i: nat | i in w.projected :: i < |w.outbox| &&
            (MustBeLogged(w.outbox[i]) ==> exists k | 0 <= k < |w.log| :: Carries(w.log[k], w.outbox[i])))
      && (forall k, i | 0 <= k < |w.log| && 0 <= i < |w.outbox| && w.outbox[i].body.Some?
                        && w.log[k].id == RowId(w.outbox[i]) :: Carries(w.log[k], w.outbox[i]))
      && (forall k, m | 0 <= k < m < |w.log| :: w.log[k].id != w.log[m].id)
      && (exists n: nat :: LogsFirst(w.outbox, w.log, n) && forall i: nat | i in w.projected :: i < n)
  {
    RunKeeps(actions);
    ExactlyOnce(actions);
    var w := Run(START, actions);
    var n: nat :| HoldsFirst(w.outbox, w.log, n) && forall i: nat | i in w.projected :: i < n;
    LogsWhatItHolds(w.outbox, w.log, n);
    forall i: nat | i in w.projected && MustBeLogged(w.outbox[i])
      ensures exists k | 0 <= k < |w.log| :: Carries(w.log[k], w.outbox[i])
    {
      SettledIsCarried(w.log, w.outbox[i]);
    }
    forall k, i | 0 <= k < |w.log| && 0 <= i < |w.outbox| && w.outbox[i].body.Some? && w.log[k].id == RowId(w.outbox[i])
      ensures Carries(w.log[k], w.outbox[i])
    {
      EntriesCarryTheirRows(w.outbox, w.log, w.frontier, k, i);
    }
  }

  /** When every row is marked, the log has all rows of every task that must be logged, in order. */
  lemma NoRowIsLeftOut(actions: seq<Action>)
    requires SafeRun(START, actions) && AllMarked(Run(START, actions))
    ensures var w := Run(START, actions); LogsFirst(w.outbox, w.log, |w.outbox|)
  {
    NothingIsLeftOut(actions);
    var w := Run(START, actions);
    LogsWhatItHolds(w.outbox, w.log, |w.outbox|);
  }

  // ---- what a claim takes ----

  /**
   * The rows of a claim: not marked, in order, at most the limit; what is passed over is marked, or beyond the limit.
   */
  lemma {:induction false} ClaimTakesTheFirst(projected: set<nat>, from: nat, total: nat, limit: nat)
    requires from <= total
    ensures var rows := Pending(projected, from, total, limit);
      && |rows| <= limit
      && (forall k | 0 <= k < |rows| :: from <= rows[k] < total && rows[k] !in projected)
      && (forall k, m | 0 <= k < m < |rows| :: rows[k] < rows[m])
      && (forall i: nat | from <= i < total && i !in projected && i !in rows ::
            |rows| == limit && forall k | 0 <= k < |rows| :: rows[k] < i)
    decreases total - from
  {
    if from < total && limit > 0 {
      if from in projected {
        ClaimTakesTheFirst(projected, from + 1, total, limit);
      } else {
        ClaimTakesTheFirst(projected, from + 1, total, limit - 1);
      }
    }
  }

  // ---- the condition on failures is needed ----

  lemma FirstFailure(w: World, row: OutboxRow)
    requires w.outbox == [row] && w.log == [] && w.memory == EMPTY && w.batch == [0] && w.at == 0
    requires Publishable(row) && Versioned(Decoded(row))
    ensures var w' := ProcessStep(w, Before, false, 0);
      && w'.outbox == [row] && w'.log == [] && w'.batch == [] && w'.projected == w.projected
      && !Seen(w'.memory, Decoded(row)) && Outdated(w'.memory, Decoded(row))
  {
  }

  lemma Retry(w: World, row: OutboxRow)
    requires w.outbox == [row] && w.log == [] && w.batch == [0] && w.at == 0 && row.body.Some?
    requires !Seen(w.memory, Decoded(row)) && Outdated(w.memory, Decoded(row))
    ensures var w' := ProcessStep(w, NoFault, false, 0);
      w'.outbox == [row] && w'.log == [] && w'.batch == [0] && w'.at == 1
  {
  }

  lemma RunMore(w: World, actions: seq<Action>, a: Action)
    ensures Run(w, actions + [a]) == Step(Run(w, actions), a)
  {
  }

  lemma RunThree(w: World, actions: seq<Action>, a: Action, b: Action, c: Action)
    ensures Run(w, actions + [a] + [b] + [c]) == Step(Step(Step(Run(w, actions), a), b), c)
  {
    RunMore(w, actions, a);
    RunMore(w, actions + [a], b);
    RunMore(w, actions + [a] + [b], c);
  }

  lemma ClaimsTheRow()
    ensures Pending({}, 0, 1, 1) == [0]
  {
  }

  /** The row is in the outbox and not marked, its event is not in the log, and the memory would drop it. */
  predicate Doomed(w: World, row: OutboxRow) {
    && w.outbox == [row] && w.log == [] && w.batch == [] && w.projected == {} && row.body.Some?
    && !Seen(w.memory, Decoded(row)) && Outdated(w.memory, Decoded(row))
  }

  function FailingRun(row: OutboxRow): seq<Action> {
    [] + [Publish(row)] + [Claim(1)] + [Process(Before, false, 0)]
  }

  function RetryRun(row: OutboxRow): seq<Action> {
    FailingRun(row) + [Claim(1)] + [Process(NoFault, false, 0)] + [Mark(true)]
  }

  lemma UntilTheFailure(row: OutboxRow)
    requires Publishable(row) && Versioned(Decoded(row))
    ensures Doomed(Run(START, FailingRun(row)), row)
  {
    RunThree(START, [], Publish(row), Claim(1), Process(Before, false, 0));
    ClaimsTheRow();
    FirstFailure(Step(Step(START, Publish(row)), Claim(1)), row);
  }

  predicate Lost(w: World, row: OutboxRow) {
    w.outbox == [row] && 0 in w.projected && w.log == []
  }

  lemma UntilTheMark(w: World, row: OutboxRow)
    requires Doomed(w, row)
    ensures Lost(Step(Step(Step(w, Claim(1)), Process(NoFault, false, 0)), Mark(true)), row)
  {
    ClaimsTheRow();
    Retry(Step(w, Claim(1)), row);
  }

  /**
   * A versioned row whose append fails once, and is retried by the same process, is marked without its event ever
   * reaching the log.
   */
  lemma RetryLosesTheEvent(row: OutboxRow)
    requires Publishable(row) && Versioned(Decoded(row))
    ensures Lost(Run(START, RetryRun(row)), row)
  {
    UntilTheFailure(row);
    RunThree(START, FailingRun(row), Claim(1), Process(NoFault, false, 0), Mark(true));
    UntilTheMark(Run(START, FailingRun(row)), row);
  }

  // ---- a row the log table cannot hold ----

  /** The row at the frontier must enter the log, and the table refuses it. */
  predicate Stuck(w: World) {
    && w.frontier < |w.outbox| && Publishable(w.outbox[w.frontier])
    && !EventLog.Holds(w.log, Decoded(w.outbox[w.frontier]).id)
    && EventLog.Unholdable(w.log, Decoded(w.outbox[w.frontier]))
  }

  /** The store takes the event, or has it already. */
  predicate Storable(log: EventLog.Log, e: Event) {
    EventLog.Finds(log, e) || (!EventLog.Holds(log, e.id) && !EventLog.Unholdable(log, e))
  }

  /**
   * In every state, exactly when a turn passes the claimed row if nothing fails on the way: the row need not be in the
   * log, or the process's memory drops its event, or the store takes it.
   */
  lemma PassesExactly(w: World, dies: bool, cutoff: int)
    requires EventLog.WellNumbered(w.log) && w.at < |w.batch| && w.batch[w.at] < |w.outbox|
    ensures ProcessStep(w, NoFault, dies, cutoff).at == w.at + 1 <==>
              var row := w.outbox[w.batch[w.at]];
              Publishable(row) ==>
                || Seen(w.memory, Decoded(row)) || Outdated(w.memory, Decoded(row)) || Storable(w.log, Decoded(row))
  {
    var row := w.outbox[w.batch[w.at]];
    if row.body.Some? {
      AnswerExactly(w.memory, w.log, Decoded(row), cutoff);
    }
  }

  lemma AnswerExactly(m: Memory, log: EventLog.Log, e: Event, cutoff: int)
    requires EventLog.WellNumbered(log)
    ensures Append(m, log, e, NoFault, cutoff).reply != StoreError <==>
              || !e.durable || EventLog.IsMalformed(e) || Seen(m, e) || Outdated(m, e) || Storable(log, e)
  {
    NumberDoesNotMatter(log, e, NextOf(Noted(m, e), e.task) + 1);
    if e.durable && !EventLog.IsMalformed(e) {
      TakenExactly(log, e);
    }
  }

  lemma TakenExactly(log: EventLog.Log, e: Event)
    requires EventLog.WellNumbered(log) && e.durable && !EventLog.IsMalformed(e)
    ensures !EventLog.Append(log, e).1.Refused? <==> Storable(log, e)
  {
    if !EventLog.Holds(log, e.id) {
      EventLog.RefusedExactly(log, e);
    }
  }

  /** No attempt stores a stuck row, and each one is answered with an error. */
  lemma StuckIsRefused(w: World, fault: Fault, cutoff: int)
    requires Inv(w) && Stuck(w)
    ensures var r := Append(w.memory, w.log, Decoded(w.outbox[w.frontier]), fault, cutoff);
      r.log == w.log && r.reply == StoreError
  {
    var e := Decoded(w.outbox[w.frontier]);
    assert NotDropped(w.log, w.memory, w.outbox[w.frontier], true);
    StoresUnlessHeld(w.log, e);
    EventLog.RefusedExactly(w.log, e);
    NumberDoesNotMatter(w.log, e, NextOf(Noted(w.memory, e), e.task) + 1);
  }

  /** A row before the frontier is in the log, or leaves the log alone. */
  lemma EarlierRowLeavesTheLog(w: World, j: nat, fault: Fault, cutoff: int)
    requires Inv(w) && j < w.frontier && w.outbox[j].body.Some?
    ensures var r := Append(w.memory, w.log, Decoded(w.outbox[j]), fault, cutoff);
      r.log == w.log && (r.reply == StoreError ==> EventLog.Holds(r.log, Decoded(w.outbox[j]).id))
  {
    var e := Decoded(w.outbox[j]);
    LogEffect(w.memory, w.log, e, fault, cutoff);
    MemoryEffect(w.memory, w.log, e, fault, cutoff);
    if Publishable(w.outbox[j]) {
      PassedIsHeld(w.outbox, w.log, w.frontier, j);
      StoresUnlessHeld(w.log, e);
    }
  }

  /** The same row is at the frontier, and it is still stuck. */
  predicate StillStuck(w: World, w': World)
    requires w.frontier < |w.outbox|
  {
    w'.frontier == w.frontier && Stuck(w') && w'.outbox[w'.frontier] == w.outbox[w.frontier]
  }

  lemma UnholdableStays(log: EventLog.Log, row: Event, e: Event)
    requires EventLog.Unholdable(log, e)
    ensures EventLog.Unholdable(log + [row], e)
  {
    if i :| 0 <= i < |log| && log[i].task == e.task && log[i].tenant != e.tenant {
      assert (log + [row])[i] == log[i];
    }
  }

  lemma ForeignLeavesItStuck(w: World, e: Event)
    requires Inv(w) && Stuck(w) && Allowed(w, Foreign(e))
    ensures StillStuck(w, Step(w, Foreign(e)))
  {
    var after := EventLog.Append(w.log, e).0;
    var stuck := Decoded(w.outbox[w.frontier]);
    NumberedAfter(w.log, e);
    if after != w.log {
      LaterLog(w.log, after[|w.log|]);
      assert HasId(w.outbox, stuck.id);
      UnholdableStays(w.log, after[|w.log|], stuck);
    }
  }

  lemma ProcessLeavesItStuck(w: World, fault: Fault, dies: bool, cutoff: int)
    requires Inv(w) && Stuck(w)
    ensures StillStuck(w, ProcessStep(w, fault, dies, cutoff))
  {
    if w.at < |w.batch| {
      CursorPasses(w);
      var j := w.batch[w.at];
      if w.outbox[j].body.Some? {
        if j < w.frontier {
          EarlierRowLeavesTheLog(w, j, fault, cutoff);
        } else {
          StuckIsRefused(w, fault, cutoff);
        }
      }
    }
  }

  lemma StepLeavesItStuck(w: World, a: Action)
    requires Inv(w) && Stuck(w)
    ensures StillStuck(w, Step(w, a))
  {
    if Allowed(w, a) {
      match a
      case Foreign(e) => ForeignLeavesItStuck(w, e);
      case Own(e, fault, cutoff) =>
        LogOfAppend(w.memory, w.log, e, fault, cutoff);
        ForeignLeavesItStuck(w, e);
      case Process(fault, dies, cutoff) => ProcessLeavesItStuck(w, fault, dies, cutoff);
      case _ =>
    }
  }

  /** A stuck row without an entity version leaves no step unsafe. */
  lemma UnversionedIsSafe(w: World, a: Action)
    requires Inv(w) && Stuck(w) && !Versioned(Decoded(w.outbox[w.frontier]))
    ensures Safe(w, a)
  {
    if a.Process? && w.at < |w.batch| {
      CursorPasses(w);
      var j := w.batch[w.at];
      if j < w.frontier && w.outbox[j].body.Some? {
        EarlierRowLeavesTheLog(w, j, a.fault, a.cutoff);
      }
    }
  }

  lemma {:induction false} StuckForGood(w: World, actions: seq<Action>)
    requires Inv(w) && Stuck(w) && (Versioned(Decoded(w.outbox[w.frontier])) ==> SafeRun(w, actions))
    ensures Inv(Run(w, actions)) && StillStuck(w, Run(w, actions))
  {
    if actions != [] {
      var front, last := actions[..|actions| - 1], actions[|actions| - 1];
      assert forall i | 0 <= i < |front| :: front[..i] == actions[..i] && front[i] == actions[i];
      StuckForGood(w, front);
      var before := Run(w, front);
      if !Versioned(Decoded(w.outbox[w.frontier])) {
        UnversionedIsSafe(before, last);
      }
      StepKeeps(before, last);
      StepLeavesItStuck(before, last);
    }
  }

  /**
   * A publishable row that the log table cannot hold stops the projector. It is never passed: in every continuation no
   * row from it on is marked, and none is in the log. That holds of a row without an entity version, and of a versioned
   * one as long as each failed append ends the process.
   */
  lemma AStuckRowStopsTheProjector(actions: seq<Action>, later: seq<Action>)
    requires SafeRun(START, actions) && Stuck(Run(START, actions))
    requires var w := Run(START, actions); Versioned(Decoded(w.outbox[w.frontier])) ==> SafeRun(w, later)
    ensures var w := Run(START, actions); var w' := Run(w, later);
      && (forall i: nat | i in w'.projected :: i < w.frontier)
      && (forall i | w.frontier <= i < |w'.outbox| && w'.outbox[i].body.Some? ::
          !EventLog.Holds(w'.log, Decoded(w'.outbox[i]).id))
  {
    RunKeeps(actions);
    StuckForGood(Run(START, actions), later);
    var w' := Run(Run(START, actions), later);
    MarkedArePassed(w'.outbox, w'.log, w'.projected, w'.batch, w'.at, w'.marked, w'.frontier);
  }

  /** A first row whose event id lacks the prefix: whatever comes after it, no row is ever marked. */
  lemma OneBadRowIsEnough(later: seq<Action>)
    ensures var e := Event("1", "t", "task_1", true, 0, 0, 0, "", "", 0, Other);
            var w := Run(START, [Publish(OutboxRow("t", "task_1", "1", Some(e)))]);
            |w.outbox| == 1 && Run(w, later).projected == {}
  {
    var e := Event("1", "t", "task_1", true, 0, 0, 0, "", "", 0, Other);
    var publish := Publish(OutboxRow("t", "task_1", "1", Some(e)));
    RunMore(START, [], publish);
    assert [] + [publish] == [publish];
    var w := Run(START, [publish]);
    assert Stuck(w);
    AStuckRowStopsTheProjector([publish], later);
    assert forall i: nat :: i !in Run(w, later).projected;
  }

  // ---- a process that survives the failure of a versioned row ----

  /**
   * A stuck row whose failure the process survives, claimed and turned again: the second turn passes it if and only if
   * it is versioned, because the failure undoes the seen mark and not the version.
   */
  lemma RetryPassesExactly(w: World, fault: Fault, cutoff: int, again: World, dies: bool, cutoff': int)
    requires Inv(w) && Stuck(w) && w.at < |w.batch| && w.batch[w.at] == w.frontier
    requires var first := ProcessStep(w, fault, false, cutoff); again == first.(batch := again.batch, at := again.at)
    requires again.at < |again.batch| && again.batch[again.at] == w.frontier
    ensures var after := ProcessStep(again, NoFault, dies, cutoff');
      && (after.at == again.at + 1 <==> Versioned(Decoded(w.outbox[w.frontier])))
      && (after.frontier == w.frontier + 1 <==> Versioned(Decoded(w.outbox[w.frontier])))
  {
    var e := Decoded(w.outbox[w.frontier]);
    StuckIsRefused(w, fault, cutoff);
    MemoryAfterRefusal(w, fault, cutoff);
    PassesExactly(again, dies, cutoff');
  }

  lemma MemoryAfterRefusal(w: World, fault: Fault, cutoff: int)
    requires Inv(w) && Stuck(w)
    ensures var e := Decoded(w.outbox[w.frontier]); var m := Append(w.memory, w.log, e, fault, cutoff).memory;
      !Seen(m, e) && (Outdated(m, e) <==> Versioned(e))
  {
    var e := Decoded(w.outbox[w.frontier]);
    StuckIsRefused(w, fault, cutoff);
    assert NotDropped(w.log, w.memory, w.outbox[w.frontier], true);
    DurableEffect(Noted(w.memory, e), w.log, e, fault, cutoff);
  }

  /** The process would drop the row's event, and the log does not have it. */
  predicate Forgone(w: World, i: nat) {
    && i < |w.outbox| && w.outbox[i].body.Some? && OutboxFits(w.outbox)
    && Outdated(w.memory, Decoded(w.outbox[i])) && !EventLog.Holds(w.log, Decoded(w.outbox[i]).id)
  }

  /** A step that leaves the process alive. */
  predicate LivesOn(a: Action) {
    !a.Crash? && (a.Process? ==> !a.dies)
  }

  /** Every unsafe step forgoes its row: this is what the condition of a safe run excludes. */
  lemma UnsafeForgoes(w: World, a: Action)
    requires Inv(w) && !Safe(w, a)
    ensures w.at < |w.batch| && Forgone(Step(w, a), w.batch[w.at])
  {
    var e := Decoded(w.outbox[w.batch[w.at]]);
    if !Seen(w.memory, e) && !Outdated(w.memory, e) && e.durable {
      DurableEffect(Noted(w.memory, e), w.log, e, a.fault, a.cutoff);
    }
  }

  /** An entity's version in memory only grows. */
  lemma VersionsGrow(m: Memory, log: EventLog.Log, e: Event, fault: Fault, cutoff: int, key: EntityKey, after: Memory)
    requires after == Append(m, log, e, fault, cutoff).memory
    ensures VersionOf(after, key) >= VersionOf(m, key)
  {
    VersionEffect(m, log, e, fault, cutoff);
    if !Outdated(m, e) {
      NotingGrows(m, e, key);
    }
  }

  lemma NotingGrows(m: Memory, e: Event, key: EntityKey)
    requires !Outdated(m, e)
    ensures VersionOf(Noted(m, e), key) >= VersionOf(m, key)
  {
  }

  /** Appending an event with another id, or one the memory drops, does not bring the row's event into the log. */
  lemma StillNotHeld(m: Memory, log: EventLog.Log, e: Event, fault: Fault, cutoff: int, id: string)
    requires EventLog.WellNumbered(log) && !EventLog.Holds(log, id) && (e.id == id ==> Outdated(m, e))
    ensures !EventLog.Holds(Append(m, log, e, fault, cutoff).log, id)
    ensures EventLog.WellNumbered(Append(m, log, e, fault, cutoff).log)
  {
    LogOfAppend(m, log, e, fault, cutoff);
    NumberedAfter(log, e);
    var after := EventLog.Append(log, e).0;
    if after != log {
      LaterLog(log, after[|log|]);
    }
  }

  lemma ForgoneByAppend(w: World, i: nat, e: Event, fault: Fault, cutoff: int)
    requires Forgone(w, i) && EventLog.WellNumbered(w.log)
        && (e.id == Decoded(w.outbox[i]).id ==> e == Decoded(w.outbox[i]))
    ensures var r := Append(w.memory, w.log, e, fault, cutoff);
      && Outdated(r.memory, Decoded(w.outbox[i])) && !EventLog.Holds(r.log, Decoded(w.outbox[i]).id)
      && EventLog.WellNumbered(r.log)
  {
    var after := Append(w.memory, w.log, e, fault, cutoff).memory;
    VersionsGrow(w.memory, w.log, e, fault, cutoff, EntityOf(Decoded(w.outbox[i])), after);
    StillNotHeld(w.memory, w.log, e, fault, cutoff, Decoded(w.outbox[i]).id);
  }

  lemma ForgoneByForeign(w: World, i: nat, e: Event)
    requires Forgone(w, i) && EventLog.WellNumbered(w.log) && !HasId(w.outbox, e.id)
    ensures Forgone(w.(log := EventLog.Append(w.log, e).0), i) && EventLog.WellNumbered(EventLog.Append(w.log, e).0)
  {
    assert HasId(w.outbox, Decoded(w.outbox[i]).id);
    NumberedAfter(w.log, e);
    var after := EventLog.Append(w.log, e).0;
    if after != w.log {
      LaterLog(w.log, after[|w.log|]);
    }
  }

  lemma ForgoneByProcess(w: World, i: nat, fault: Fault, cutoff: int)
    requires Forgone(w, i) && EventLog.WellNumbered(w.log)
    ensures var w' := ProcessStep(w, fault, false, cutoff); Forgone(w', i) && EventLog.WellNumbered(w'.log)
  {
    if w.at < |w.batch| && w.batch[w.at] < |w.outbox| && w.outbox[w.batch[w.at]].body.Some? {
      var r := Attempt(w, fault, cutoff);
      ForgoneByAppend(w, i, Decoded(w.outbox[w.batch[w.at]]), fault, cutoff);
      var w' := ProcessStep(w, fault, false, cutoff);
      assert w'.outbox == w.outbox && w'.memory == r.memory && w'.log == r.log;
    }
  }

  lemma ForgoneStays(w: World, i: nat, a: Action)
    requires Forgone(w, i) && EventLog.WellNumbered(w.log) && LivesOn(a)
    ensures Forgone(Step(w, a), i) && EventLog.WellNumbered(Step(w, a).log)
    ensures Step(w, a).outbox[i] == w.outbox[i]
  {
    if Allowed(w, a) {
      match a
      case Publish(row) => PublishOutbox(w, row);
      case Foreign(e) => ForgoneByForeign(w, i, e);
      case Own(e, fault, cutoff) =>
        assert HasId(w.outbox, Decoded(w.outbox[i]).id);
        ForgoneByAppend(w, i, e, fault, cutoff);
      case Process(fault, dies, cutoff) => ForgoneByProcess(w, i, fault, cutoff);
      case _ =>
    }
  }

  lemma {:induction false} ForgoneForGood(w: World, i: nat, actions: seq<Action>)
    requires Forgone(w, i) && EventLog.WellNumbered(w.log) && forall a | a in actions :: LivesOn(a)
    ensures Forgone(Run(w, actions), i) && EventLog.WellNumbered(Run(w, actions).log)
    ensures Run(w, actions).outbox[i] == w.outbox[i]
  {
    if actions != [] {
      ForgoneForGood(w, i, actions[..|actions| - 1]);
      ForgoneStays(Run(w, actions[..|actions| - 1]), i, actions[|actions| - 1]);
    }
  }

  /**
   * The first unsafe step of a run loses its row for as long as the process lives: in every continuation the log never
   * gets the row's event, and whenever the row is turned again it is passed, without a word.
   */
  lemma SurvivedFailureLosesTheRow(actions: seq<Action>, a: Action, later: seq<Action>, fault: Fault, dies: bool,
                                   cutoff: int)
    requires SafeRun(START, actions) && !Safe(Run(START, actions), a) && forall b | b in later :: LivesOn(b)
    ensures var w := Run(START, actions); var w' := Run(Step(w, a), later);
      && w.at < |w.batch| && w.batch[w.at] < |w'.outbox| && w'.outbox[w.batch[w.at]].body.Some?
      && !EventLog.Holds(w'.log, Decoded(w'.outbox[w.batch[w.at]]).id)
      && (w'.at < |w'.batch| && w'.batch[w'.at] == w.batch[w.at] ==>
            var after := ProcessStep(w', fault, dies, cutoff); after.at == w'.at + 1 && after.log == w'.log)
  {
    RunKeeps(actions);
    var w := Run(START, actions);
    UnsafeForgoes(w, a);
    UnsafeStaysNumbered(w, a);
    ForgoneForGood(Step(w, a), w.batch[w.at], later);
    ForgoneIsPassed(Run(Step(w, a), later), w.batch[w.at], fault, dies, cutoff);
  }

  lemma UnsafeStaysNumbered(w: World, a: Action)
    requires Inv(w) && !Safe(w, a)
    ensures EventLog.WellNumbered(Step(w, a).log)
  {
    LogOfAppend(w.memory, w.log, Decoded(w.outbox[w.batch[w.at]]), a.fault, a.cutoff);
    NumberedAfter(w.log, Decoded(w.outbox[w.batch[w.at]]));
  }

  lemma ForgoneIsPassed(w: World, i: nat, fault: Fault, dies: bool, cutoff: int)
    requires Forgone(w, i)
    ensures w.at < |w.batch| && w.batch[w.at] == i ==>
              var after := ProcessStep(w, fault, dies, cutoff); after.at == w.at + 1 && after.log == w.log
  {
  }

  /**
   * A concrete row of both kinds: versioned, and not to be held by the table. The process that survives it marks it.
   */
  lemma VersionedBadRowIsLost()
    ensures var e := Event("1", "t", "task_1", true, 0, 0, 0, "node", "n_1", 1, Other);
            var row := OutboxRow("t", "task_1", "1", Some(e));
            EventLog.Unholdable([], Decoded(row)) && Lost(Run(START, RetryRun(row)), row)
  {
    var row := OutboxRow("t", "task_1", "1", Some(Event("1", "t", "task_1", true, 0, 0, 0, "node", "n_1", 1, Other)));
    RetryLosesTheEvent(row);
  }

  // ---- the projector itself ----

  const DEFAULT_BATCH := 100

  function BatchLimit(limit: int): nat {
    if limit <= 0 then DEFAULT_BATCH else limit
  }

  class RuntimeOutbox {
    var rows: Outbox
    var projected: set<nat>

    constructor ()
      ensures rows == [] && projected == {}
    {
      rows, projected := [], {};
    }

    method ClaimRuntimeOutbox(limit: int) returns (ids: seq<nat>)
      ensures ids == Pending(projected, 0, |rows|, BatchLimit(limit))
      ensures |ids| <= if limit <= 0 then 100 else limit
      ensures forall i: nat | i < |rows| && i !in projected && i !in ids :: |ids| == if limit <= 0 then 100 else limit
    {
      var most := BatchLimit(limit);
      ClaimTakesTheFirst(projected, 0, |rows|, most);
      ids := [];
      var next: nat := 0;
      while next < |rows| && |ids| < most
        invariant next <= |rows| && |ids| <= most
        invariant ids + Pending(projected, next, |rows|, most - |ids|) == Pending(projected, 0, |rows|, most)
      {
        if next !in projected {
          ids := ids + [next];
        }
        next := next + 1;
      }
    }

    method MarkRuntimeOutboxProjected(ids: seq<nat>)
      modifies this`projected
      ensures projected == old(projected) + (set id | id in ids)
    {
      projected := projected + (set id | id in ids);
    }
  }

  /** What goes on beside the projector while it has claimed a batch. */
  predicate IsOther(a: Action) {
    a.Publish? || a.Foreign? || a.Own? || a.Evict?
  }

  lemma OthersLeaveTheBatch(w: World, a: Action)
    requires EventLog.WellNumbered(w.log) && IsOther(a)
    ensures var w' := Step(w, a);
      && w'.batch == w.batch && w'.at == w.at && w'.projected == w.projected && |w'.outbox| >= |w.outbox|
      && EventLog.WellNumbered(w'.log)
  {
    if a.Foreign? || a.Own? {
      EventLog.AppendKeeps(w.log, a.e);
    }
    if a.Own? {
      LogOfAppend(w.memory, w.log, a.e, a.fault, a.cutoff);
    }
  }

  lemma SafeMore(start: World, script: seq<Action>, a: Action)
    requires Safe(Run(start, script), a)
    ensures SafeRun(start, script) ==> SafeRun(start, script + [a])
  {
    var more := script + [a];
    if SafeRun(start, script) {
      forall i | 0 <= i < |more| ensures Safe(Run(start, more[..i]), more[i]) {
        assert more[..i] == script[..i];
        if i == |script| {
          assert script[..i] == script;
        }
      }
    }
  }

  lemma PendingInRange(projected: set<nat>, from: nat, total: nat, limit: nat)
    ensures forall id | id in Pending(projected, from, total, limit) :: id < total
    decreases total - from
  {
  }

  /** The next turn of the loop fails: the row has an event, and its append is answered with an error of the store. */
  predicate FailsAt(w: World, fault: Fault, cutoff: int) {
    && w.at < |w.batch| && w.batch[w.at] < |w.outbox| && w.outbox[w.batch[w.at]].body.Some?
    && Attempt(w, fault, cutoff).reply == StoreError
  }

  /** The last step of the run was a turn that failed, with what goes wrong at one of the `n` rows. */
  predicate EndsInFailure(start: World, script: seq<Action>, n: nat, faults: nat -> Fault) {
    && script != []
    && var front, last := script[..|script| - 1], script[|script| - 1];
       && last.Process? && FailsAt(Run(start, front), last.fault, last.cutoff)
       && exists k | 0 <= k < n :: last.fault == faults(k)
  }

  /**
   * One projector over the outbox table, the service and its log. `world` is what all of them hold; between any two of
   * its steps the runtime may commit rows, other writers and the service itself may append, and the service may evict
   * what it remembers.
   */
  class OutboxProjector {
    const table: RuntimeOutbox
    const tasks: TaskService
    var world: World
    ghost var start: World
    ghost var script: seq<Action>

    ghost predicate Valid()
      reads this, table, tasks, tasks.store
    {
      && world == Run(start, script) && tasks.store.Valid()
      && world.outbox == table.rows && world.projected == table.projected
      && world.log == tasks.store.log && world.memory == tasks.State()
    }

    constructor (table: RuntimeOutbox, tasks: TaskService, world: World)
      requires world.outbox == table.rows && world.projected == table.projected
      requires tasks.store.Valid() && world.log == tasks.store.log && world.memory == tasks.State()
      ensures Valid() && this.table == table && this.tasks == tasks && this.world == world && start == world
          && script == []
    {
      this.table, this.tasks, this.world := table, tasks, world;
      start, script := world, [];
    }

    /** The machine's step for what the projector just did. */
    method Follow(a: Action)
      requires world == Run(start, script) && tasks.store.Valid()
      requires var next := Step(world, a);
        && next.outbox == table.rows && next.projected == table.projected
        && next.log == tasks.store.log && next.memory == tasks.State()
      modifies this
      ensures Valid() && start == old(start) && world == Step(old(world), a) && script == old(script) + [a]
      ensures Safe(old(world), a) && SafeRun(start, old(script)) ==> SafeRun(start, script)
    {
      RunMore(start, script, a);
      if Safe(world, a) {
        SafeMore(start, script, a);
      }
      world := Step(world, a);
      script := script + [a];
    }

    method Others()
      requires Valid()
      modifies this, table`rows, tasks, tasks.store
      ensures Valid() && start == old(start) && |table.rows| >= old(|table.rows|) && |script| >= |old(script)|
      ensures world.batch == old(world.batch) && world.at == old(world.at) && world.projected == old(world.projected)
      ensures SafeRun(start, old(script)) ==> SafeRun(start, script)
    {
      var others: seq<Action> := *;
      for k := 0 to |others|
        invariant Valid() && start == old(start) && |table.rows| >= old(|table.rows|) && |script| >= |old(script)|
        invariant world.batch == old(world.batch) && world.at == old(world.at)
            && world.projected == old(world.projected)
        invariant SafeRun(start, old(script)) ==> SafeRun(start, script)
      {
        if IsOther(others[k]) {
          OthersLeaveTheBatch(world, others[k]);
          var next := Step(world, others[k]);
          table.rows, tasks.store.log := next.outbox, next.log;
          tasks.Recall(next.memory);
          Follow(others[k]);
        }
      }
    }

    /** Append the event of one claimed row, or drop the row; `fault` is what goes wrong with the append. */
    method ProjectRow(id: nat, dies: bool, cutoff: int, fault: Fault) returns (failed: bool)
      requires Valid() && world.at < |world.batch| && world.batch[world.at] == id < |table.rows|
      modifies this, tasks, tasks.store
      ensures Valid() && start == old(start) && script == old(script) + [Process(fault, dies, cutoff)]
      ensures failed <==> FailsAt(old(world), fault, cutoff)
      ensures failed ==> world.batch == [] && world.at == 0
      ensures !failed ==> world.batch == old(world.batch) && world.at == old(world.at) + 1
      ensures dies && SafeRun(start, old(script)) ==> SafeRun(start, script)
    {
      var row := table.rows[id];
      if row.body.None? {
        Follow(Process(fault, dies, cutoff));
        return false;
      }
      var reply := tasks.AppendEvent(Decoded(row), fault, cutoff);
      failed := reply == StoreError;
      if failed && dies {
        tasks.Restart();
      }
      Follow(Process(fault, dies, cutoff));
    }

    /** The loop over the claimed rows; it stops at the first failure, and at nothing else. */
    method ProjectRows(ids: seq<nat>, dies: bool, cutoff: int, faults: nat -> Fault) returns (failed: bool)
      requires Valid() && world.batch == ids && world.at == 0 && forall id | id in ids :: id < |table.rows|
      modifies this, table`rows, tasks, tasks.store
      ensures Valid() && start == old(start) && table.projected == old(table.projected)
      ensures if failed then world.batch == [] && world.at == 0 else world.batch == ids && world.at == |ids|
      ensures failed ==> |script| > |old(script)| && EndsInFailure(start, script, |ids|, faults)
      ensures dies && SafeRun(start, old(script)) ==> SafeRun(start, script)
    {
      for k := 0 to |ids|
        invariant Valid() && start == old(start) && world.batch == ids && world.at == k
            && |table.rows| >= old(|table.rows|) && |script| >= |old(script)|
        invariant dies && SafeRun(start, old(script)) ==> SafeRun(start, script)
      {
        Others();
        assert ids[k] in ids;
        ghost var before := script;
        failed := ProjectRow(ids[k], dies, cutoff, faults(k));
        if failed {
          assert script[..|script| - 1] == before;
          return;
        }
      }
      failed := false;
    }

    /** The statement that marks the batch; it may not be applied, and its answer may be lost. */
    method MarkRows(ids: seq<nat>, applied: bool, confirmed: bool) returns (failed: bool)
      requires Valid() && ids != [] && world.batch == ids && world.at == |ids|
      modifies this, table`projected
      ensures Valid() && start == old(start) && world.batch == [] && world.at == 0
      ensures table.projected == if applied then old(table.projected) + (set id | id in ids) else old(table.projected)
      ensures failed <==> !applied || !confirmed
      ensures |script| > |old(script)| && (SafeRun(start, old(script)) ==> SafeRun(start, script))
    {
      if applied {
        table.MarkRuntimeOutboxProjected(ids);
      }
      Follow(Mark(applied));
      failed := !applied || !confirmed;
    }

    /**
     * `project`: whatever fails and whatever goes on beside it, the pass is a run of the machine, and a safe one when a
     * failed append ends the process, so ExactlyOnce holds of it. It fails only when the claim, an append or the mark
     * fails; a pass that succeeds has marked all it claimed, and none marks more.
     */
    method Project(limit: int, dies: bool, cutoff: int, reached: bool, faults: nat -> Fault, applied: bool,
                   confirmed: bool)
        returns (failed: bool)
      requires Valid() && world.batch == [] && world.at == 0
      modifies this, table, tasks, tasks.store
      ensures Valid() && start == old(start) && world.batch == [] && world.at == 0
      ensures dies && SafeRun(start, old(script)) ==> SafeRun(start, script)
      ensures var claimed := Pending(old(table.projected), 0, old(|table.rows|), BatchLimit(limit));
        && table.projected in {old(table.projected), old(table.projected) + (set id | id in claimed)}
        && (!failed ==> forall id | id in claimed :: id in table.projected)
        && (failed ==>
              || !reached || !applied || !confirmed
              || (|script| > |old(script)| && EndsInFailure(start, script, |claimed|, faults)))
        && (claimed == [] ==> failed == !reached)
      ensures !reached ==> failed && script == old(script)
    {
      if !reached {
        return true;
      }
      var ids := table.ClaimRuntimeOutbox(limit);
      PendingInRange(table.projected, 0, |table.rows|, BatchLimit(limit));
      Follow(Claim(BatchLimit(limit)));
      if ids == [] {
        return false;
      }
      failed := ProjectRows(ids, dies, cutoff, faults);
      if failed {
        return;
      }
      Others();
      failed := MarkRows(ids, applied, confirmed);
    }
  }
}
