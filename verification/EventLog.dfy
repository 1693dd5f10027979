/**
 * The durable log of task events: the table task_events, `AppendTaskEvent` without its projections
 * (internal/store/pgstore/task_events.go) and `ListTaskEvents` (internal/store/pgstore/task_projection.go). The
 * advisory lock makes one append one step, so the log is a sequence in the order of the appends; an event in it carries
 * its sequence number.
 */
module EventLog {
  import opened Common
  import opened Events

  type Log = seq<Event>

  datatype Outcome =
    | Skipped          // not durable: nothing is written
    | Malformed        // no tenant, task or event id
    | Duplicate(number: nat)
    | Refused          // a constraint of the table: the append fails
    | Stored(number: nat)

  /** The events of one task, in log order. */
  function Of(log: Log, task: string): Log {
    if log == [] then []
    else Of(log[..|log| - 1], task) + if log[|log| - 1].task == task then [log[|log| - 1]] else []
  }

  predicate Holds(log: Log, id: string) {
    exists i | 0 <= i < |log| :: log[i].id == id
  }

  /** COALESCE(MAX(seq), 0) over the rows of a tenant's task. */
  function MaxNumber(log: Log, tenant: string, task: string): nat {
    if log == [] then 0 else
      var rest := MaxNumber(log[..|log| - 1], tenant, task);
      var last := log[|log| - 1];
      if last.tenant == tenant && last.task == task && last.number > rest then last.number else rest
  }

  predicate IsMalformed(e: Event) {
    e.tenant == "" || e.task == "" || e.id == ""
  }

  /** The row would break the primary key (task_id, seq), the unique event_id or the check on its prefix. */
  predicate Breaks(log: Log, e: Event) {
    || (exists i | 0 <= i < |log| :: log[i].task == e.task && log[i].number == e.number)
    || Holds(log, e.id)
    || !HasPrefix(e.id, "evt_")
  }

  /** The stored events with this id that the tenant may see. */
  predicate Finds(log: Log, e: Event) {
    exists i | 0 <= i < |log| :: log[i].id == e.id && log[i].tenant == e.tenant
  }

  function NumberOf(log: Log, e: Event): nat
    requires Finds(log, e)
  {
    var last := log[|log| - 1];
    if last.id == e.id && last.tenant == e.tenant then last.number else NumberOf(log[..|log| - 1], e)
  }

  /** The log and the answer of one append. */
  function Append(log: Log, e: Event): (Log, Outcome) {
    if !e.durable then (log, Skipped)
    else if IsMalformed(e) then (log, Malformed)
    else if Finds(log, e) then (log, Duplicate(NumberOf(log, e)))
    else
      var row := e.(number := MaxNumber(log, e.tenant, e.task) + 1);
      if Breaks(log, row) then (log, Refused) else (log + [row], Stored(row.number))
  }

  /** Each task's events are numbered 1, 2, 3, ... without gaps, belong to one tenant, and no event id comes twice. */
  ghost predicate WellNumbered(log: Log) {
    && (forall task, k | 0 <= k < |Of(log, task)| :: Of(log, task)[k].number == k + 1)
    && (forall i, j | 0 <= i < |log| && 0 <= j < |log| && log[i].task == log[j].task :: log[i].tenant == log[j].tenant)
    && (forall i, j | 0 <= i < j < |log| :: log[i].id != log[j].id)
    && (forall i | 0 <= i < |log| :: log[i].durable && log[i].number > 0 && !IsMalformed(log[i]))
  }

  lemma {:induction false} OfFacts(log: Log, task: string)
    ensures forall e :: e in Of(log, task) <==> e in log && e.task == task
    ensures |Of(log, task)| <= |log|
  {
    if log != [] {
      OfFacts(log[..|log| - 1], task);
      assert log == log[..|log| - 1] + [log[|log| - 1]];
    }
  }

  lemma MaxNumberIsLength(log: Log, tenant: string, task: string)
    requires WellNumbered(log)
    ensures (forall e | e in log && e.task == task :: e.tenant == tenant)
        ==> MaxNumber(log, tenant, task) == |Of(log, task)|
    ensures (exists e | e in log :: e.task == task && e.tenant != tenant) ==> MaxNumber(log, tenant, task) == 0
  {
    if forall e | e in log && e.task == task :: e.tenant == tenant {
      MaxOfOwnTask(log, tenant, task);
    } else {
      NoneOfTenant(log, tenant, task);
    }
  }

  lemma {:induction false} MaxOfOwnTask(log: Log, tenant: string, task: string)
    requires WellNumbered(log) && forall e | e in log && e.task == task :: e.tenant == tenant
    ensures MaxNumber(log, tenant, task) == |Of(log, task)|
  {
    if log != [] {
      var front, last := log[..|log| - 1], log[|log| - 1];
      assert log == front + [last];
      FrontIsWellNumbered(log);
      MaxOfOwnTask(front, tenant, task);
      assert last.task == task ==> Of(log, task)[|Of(log, task)| - 1] == last;
    }
  }

  lemma {:induction false} NoneOfTenant(log: Log, tenant: string, task: string)
    requires forall e | e in log && e.task == task :: e.tenant != tenant
    ensures MaxNumber(log, tenant, task) == 0
  {
    if log != [] {
      NoneOfTenant(log[..|log| - 1], tenant, task);
    }
  }

  lemma FrontIsWellNumbered(log: Log)
    requires WellNumbered(log) && log != []
    ensures WellNumbered(log[..|log| - 1])
  {
    var front := log[..|log| - 1];
    forall task, k | 0 <= k < |Of(front, task)| ensures Of(front, task)[k].number == k + 1 {
      assert Of(log, task)[k] == Of(front, task)[k];
    }
  }

  lemma FirstOfTask(log: Log, d: Event)
    requires WellNumbered(log) && d in log
    ensures exists i | 0 <= i < |log| :: log[i].task == d.task && log[i].number == 1
  {
    OfFacts(log, d.task);
    assert d in Of(log, d.task);
    var first := Of(log, d.task)[0];
    assert first in Of(log, d.task) && first.number == 1;
    assert first in log;
  }

  /** An append that no constraint stops goes to a task of the event's own tenant, so it takes the next number. */
  lemma NextNumber(log: Log, e: Event)
    requires WellNumbered(log) && !Breaks(log, e.(number := MaxNumber(log, e.tenant, e.task) + 1))
    ensures MaxNumber(log, e.tenant, e.task) == |Of(log, e.task)|
    ensures forall d | d in log && d.task == e.task :: d.tenant == e.tenant
  {
    if d :| d in log && d.task == e.task && d.tenant != e.tenant {
      NoneOfTenant(log, e.tenant, e.task);
      FirstOfTask(log, d);
      assert false;
    }
    MaxOfOwnTask(log, e.tenant, e.task);
  }

  /** The table can never hold the event: its id lacks the prefix, or its task has events of another tenant. */
  predicate Unholdable(log: Log, e: Event) {
    !HasPrefix(e.id, "evt_") || exists i | 0 <= i < |log| :: log[i].task == e.task && log[i].tenant != e.tenant
  }

  /** A well-formed event with a new id is refused exactly when the table can never hold it. */
  lemma RefusedExactly(log: Log, e: Event)
    requires WellNumbered(log) && e.durable && !IsMalformed(e) && !Holds(log, e.id)
    ensures Append(log, e).1.Refused? <==> Unholdable(log, e)
  {
    var row := e.(number := MaxNumber(log, e.tenant, e.task) + 1);
    if i :| 0 <= i < |log| && log[i].task == e.task && log[i].tenant != e.tenant {
      MaxNumberIsLength(log, e.tenant, e.task);
      assert log[i] in log;
      FirstOfTask(log, log[i]);
    } else {
      OwnNumberIsFree(log, e);
    }
  }

  lemma OwnNumberIsFree(log: Log, e: Event)
    requires WellNumbered(log) && forall i | 0 <= i < |log| && log[i].task == e.task :: log[i].tenant == e.tenant
    ensures forall i | 0 <= i < |log| && log[i].task == e.task :: log[i].number != MaxNumber(log, e.tenant, e.task) + 1
  {
    MaxNumberIsLength(log, e.tenant, e.task);
    OfFacts(log, e.task);
    forall i | 0 <= i < |log| && log[i].task == e.task ensures log[i].number != MaxNumber(log, e.tenant, e.task) + 1 {
      assert log[i] in Of(log, e.task);
    }
  }

  lemma NumbersKept(log: Log, row: Event)
    requires WellNumbered(log) && row.number == |Of(log, row.task)| + 1
    ensures forall task, k | 0 <= k < |Of(log + [row], task)| :: Of(log + [row], task)[k].number == k + 1
  {
  }

  /** The next event of a task, with a new id and of the task's tenant, keeps the log well numbered. */
  lemma NextKeeps(log: Log, row: Event)
    requires WellNumbered(log) && row.number == |Of(log, row.task)| + 1
    requires row.durable && !IsMalformed(row) && !Holds(log, row.id)
    requires forall d | d in log && d.task == row.task :: d.tenant == row.tenant
    ensures WellNumbered(log + [row])
  {
    NumbersKept(log, row);
    assert forall i | 0 <= i < |log| :: log[i] in log;
  }

  /** Every append keeps the log well numbered; a stored event is its task's next one. */
  lemma AppendKeeps(log: Log, e: Event)
    requires WellNumbered(log)
    ensures WellNumbered(Append(log, e).0) && log <= Append(log, e).0
    ensures Append(log, e).1.Stored? ==>
              && Append(log, e).1.number == |Of(log, e.task)| + 1
              && Append(log, e).0 == log + [e.(number := |Of(log, e.task)| + 1)]
  {
    if Append(log, e).1.Stored? {
      NextNumber(log, e);
      NextKeeps(log, e.(number := |Of(log, e.task)| + 1));
    }
  }

  /** Appending an event again changes nothing and answers with the number it has. */
  lemma AppendTwice(log: Log, e: Event)
    requires WellNumbered(log) && Append(log, e).1.Stored?
    ensures Append(Append(log, e).0, e) == (Append(log, e).0, Duplicate(Append(log, e).1.number))
  {
  }

  // ---- reading the log ----

  /** `WHERE tenant_id = ? AND task_id = ? AND seq > ?`. */
  function Selected(tenant: string, task: string, after: nat): Event -> bool {
    (e: Event) => e.tenant == tenant && e.task == task && e.number > after
  }

  // ---- one append, told from the log alone ----

  /** The task has events of another tenant. */
  predicate OthersTask(log: Log, e: Event) {
    exists i | 0 <= i < |log| :: log[i].task == e.task && log[i].tenant != e.tenant
  }

  lemma {:induction false} NumberOfStored(log: Log, e: Event, i: nat)
    requires WellNumbered(log) && i < |log| && log[i].id == e.id && log[i].tenant == e.tenant
    ensures NumberOf(log, e) == log[i].number
  {
    if i < |log| - 1 {
      assert log[|log| - 1].id != log[i].id;
      FrontIsWellNumbered(log);
      NumberOfStored(log[..|log| - 1], e, i);
    }
  }

  /**
   * What one append does to a log: an ephemeral event is skipped, one without tenant, task or id is malformed, one
   * whose id the tenant has stored gets its number again, one that the table can hold becomes its task's next event,
   * and any other is refused. Only a stored event changes the log.
   */
  lemma AppendSays(log: Log, e: Event)
    requires WellNumbered(log)
    ensures var (after, outcome) := Append(log, e);
      if !e.durable then outcome == Skipped && after == log
      else if e.tenant == "" || e.task == "" || e.id == "" then outcome == Malformed && after == log
      else if exists i | 0 <= i < |log| :: log[i].id == e.id && log[i].tenant == e.tenant then
        && after == log && outcome.Duplicate?
        && forall i | 0 <= i < |log| && log[i].id == e.id && log[i].tenant == e.tenant ::
            outcome.number == log[i].number
      else if (exists i | 0 <= i < |log| :: log[i].id == e.id) || !("evt_" <= e.id) || OthersTask(log, e) then
        outcome == Refused && after == log
      else outcome == Stored(|Of(log, e.task)| + 1) && after == log + [e.(number := |Of(log, e.task)| + 1)]
  {
    if e.durable && !IsMalformed(e) {
      if Finds(log, e) {
        forall i | 0 <= i < |log| && log[i].id == e.id && log[i].tenant == e.tenant
          ensures NumberOf(log, e) == log[i].number
        {
          NumberOfStored(log, e, i);
        }
      } else if !Holds(log, e.id) {
        RefusedExactly(log, e);
        if !OthersTask(log, e) {
          forall d | d in log && d.task == e.task ensures d.tenant == e.tenant {
            var i :| 0 <= i < |log| && log[i] == d;
          }
          MaxOfOwnTask(log, e.tenant, e.task);
        }
      }
    }
  }

  // ---- reading ----

  /** The task's events after the cursor, in order. */
  function ListedAfter(log: Log, task: string, after: nat): Log {
    Beyond(Of(log, task), after)
  }

  function Beyond(events: Log, after: nat): Log {
    if after <= |events| then events[after..] else []
  }

  lemma OneBeyond(events: Log, last: Event, after: nat)
    ensures Beyond(events + [last], after) == Beyond(events, after) + if |events| >= after then [last] else []
  {
  }

  predicate BelongsTo(log: Log, task: string, tenant: string) {
    forall e | e in log && e.task == task :: e.tenant == tenant
  }

  lemma {:induction false} OwnSelected(log: Log, tenant: string, task: string, after: nat)
    requires WellNumbered(log) && BelongsTo(log, task, tenant)
    ensures Filter(Selected(tenant, task, after), log) == ListedAfter(log, task, after)
  {
    if log != [] {
      var front, last := log[..|log| - 1], log[|log| - 1];
      assert log == front + [last];
      FrontIsWellNumbered(log);
      OwnSelected(front, tenant, task, after);
      FilterLast(Selected(tenant, task, after), front, last);
      if last.task == task {
        LastNumber(log);
        OneBeyond(Of(front, task), last, after);
      }
    }
  }

  lemma LastNumber(log: Log)
    requires WellNumbered(log) && log != []
    ensures log[|log| - 1].number == |Of(log[..|log| - 1], log[|log| - 1].task)| + 1
  {
    var front, last := log[..|log| - 1], log[|log| - 1];
    assert Of(log, last.task)[|Of(front, last.task)|] == last;
  }

  lemma OthersSelected(log: Log, tenant: string, task: string, after: nat)
    requires WellNumbered(log) && !BelongsTo(log, task, tenant)
    ensures Filter(Selected(tenant, task, after), log) == []
  {
    var other :| other in log && other.task == task && other.tenant != tenant;
    forall e | e in log ensures !Selected(tenant, task, after)(e) {
      assert e.task == task ==> e.tenant == other.tenant;
    }
    FilterNone(Selected(tenant, task, after), log);
  }

  /** The tenant's own task is listed in full, without a gap; of another tenant's nothing is. */
  lemma SelectedFacts(log: Log, tenant: string, task: string, after: nat)
    requires WellNumbered(log)
    ensures var items := Filter(Selected(tenant, task, after), log);
      && items == (if BelongsTo(log, task, tenant) then ListedAfter(log, task, after) else [])
      && forall k | 0 <= k < |items| :: items[k].number == after + k + 1
  {
    if BelongsTo(log, task, tenant) {
      OwnSelected(log, tenant, task, after);
    } else {
      OthersSelected(log, tenant, task, after);
    }
  }

  class TaskEvents {
    var log: Log

    ghost predicate Valid()
      reads this
    {
      WellNumbered(log)
    }

    constructor ()
      ensures Valid() && log == []
    {
      log := [];
    }

    /** SELECT seq ... WHERE event_id = ? AND tenant_id = ?. */
    method FindStored(e: Event) returns (stored: Option<nat>)
      ensures stored.Some? <==> Finds(log, e)
      ensures stored.Some? ==> stored.value == NumberOf(log, e)
    {
      stored := None;
      for i := 0 to |log|
        invariant stored.Some? <==> Finds(log[..i], e)
        invariant stored.Some? ==> stored.value == NumberOf(log[..i], e)
      {
        assert log[..i + 1][..i] == log[..i];
        if log[i].id == e.id && log[i].tenant == e.tenant {
          stored := Some(log[i].number);
          assert Finds(log[..i + 1], e) by { assert log[..i + 1][i] == log[i]; }
        } else if stored.Some? {
          var k :| 0 <= k < i && log[..i][k].id == e.id && log[..i][k].tenant == e.tenant;
          assert log[..i + 1][k] == log[..i][k];
        }
      }
      assert log[..|log|] == log;
    }

    /** SELECT COALESCE(MAX(seq), 0) ... WHERE tenant_id = ? AND task_id = ?. */
    method Head(tenant: string, task: string) returns (head: nat)
      ensures head == MaxNumber(log, tenant, task)
    {
      head := 0;
      for k := 0 to |log|
        invariant head == MaxNumber(log[..k], tenant, task)
      {
        assert log[..k + 1][..k] == log[..k];
        if log[k].tenant == tenant && log[k].task == task && log[k].number > head {
          head := log[k].number;
        }
      }
      assert log[..|log|] == log;
    }

    method AppendTaskEvent(e: Event) returns (outcome: Outcome)
      requires Valid()
      modifies this
      ensures Valid() && (log, outcome) == Append(old(log), e)
    {
      AppendKeeps(log, e);
      if !e.durable {
        return Skipped;
      }
      if e.tenant == "" || e.task == "" || e.id == "" {
        return Malformed;
      }
      var existing := FindStored(e);
      if existing.Some? {
        return Duplicate(existing.value);
      }
      var head := Head(e.tenant, e.task);
      var row := e.(number := head + 1);
      if Breaks(log, row) {
        return Refused;
      }
      log := log + [row];
      outcome := Stored(row.number);
    }

    method SelectEvents(tenant: string, task: string, after: nat) returns (items: Log)
      ensures items == Filter(Selected(tenant, task, after), log)
    {
      items := [];
      for i := 0 to |log|
        invariant items == Filter(Selected(tenant, task, after), log[..i])
      {
        assert log[..i + 1] == log[..i] + [log[i]];
        FilterLast(Selected(tenant, task, after), log[..i], log[i]);
        if log[i].tenant == tenant && log[i].task == task && log[i].number > after {
          items := items + [log[i]];
        }
      }
      assert log[..|log|] == log;
    }

    /** The head of the tenant's task, and its events after the cursor in the order of their numbers. */
    method ListTaskEvents(tenant: string, task: string, after: nat) returns (items: Log, head: nat)
      requires Valid()
      ensures items == if BelongsTo(log, task, tenant) then ListedAfter(log, task, after) else []
      ensures head == if BelongsTo(log, task, tenant) then |Of(log, task)| else 0
      ensures forall k | 0 <= k < |items| :: items[k].number == after + k + 1
    {
      head := Head(tenant, task);
      MaxNumberIsLength(log, tenant, task);
      items := SelectEvents(tenant, task, after);
      SelectedFacts(log, tenant, task, after);
    }
  }
}
