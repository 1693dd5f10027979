/**
 * The projector over the whole store: the log and the projections change in one transaction, so what is exactly once in
 * the log is exactly once in the projections.
 */
module EndToEnd {
  import opened Common
  import opened Events
  import Service
  import Projector
  import EventLog
  import TaskStore
  import Accumulators
  import Approvals
  import NodeRows

  datatype System = System(world: Projector.World, projections: TaskStore.Projections)

  /** The event a step brings to the store, if it brings one there. */
  function Brought(w: Projector.World, a: Projector.Action): Option<Event> {
    match a
    case Foreign(e) => if Projector.Allowed(w, a) then Some(e) else None
    case Own(e, fault, _) =>
      if !Projector.Allowed(w, a) || fault == Service.Before || Service.Seen(w.memory, e)
          || Service.Outdated(w.memory, e)
      then None else Some(e)
    case Process(fault, _, _) =>
      if w.at >= |w.batch| || w.batch[w.at] >= |w.outbox| || w.outbox[w.batch[w.at]].body.None?
          || fault == Service.Before then None
      else
        var e := Projector.Decoded(w.outbox[w.batch[w.at]]);
        if Service.Seen(w.memory, e) || Service.Outdated(w.memory, e) then None else Some(e)
    case _ => None
  }

  /** What the transaction of `AppendTaskEvent` leaves. */
  function Transacted(store: TaskStore.Store, brought: Option<Event>): TaskStore.Store {
    if brought.Some? then TaskStore.Appended(store, brought.value).0 else store
  }

  function Step(s: System, a: Projector.Action): System {
    System(Projector.Step(s.world, a),
           Transacted(TaskStore.Store(s.world.log, s.projections), Brought(s.world, a)).projections)
  }

  function Run(initial: TaskStore.Projections, actions: seq<Projector.Action>): System {
    if actions == [] then System(Projector.START, initial)
    else Step(Run(initial, actions[..|actions| - 1]), actions[|actions| - 1])
  }

  lemma ProcessLog(w: Projector.World, fault: Service.Fault, dies: bool, cutoff: int)
    requires w.at < |w.batch| && w.batch[w.at] < |w.outbox| && w.outbox[w.batch[w.at]].body.Some?
    ensures var e := Projector.Decoded(w.outbox[w.batch[w.at]]);
      Projector.ProcessStep(w, fault, dies, cutoff).log == Service.Append(w.memory, w.log, e, fault, cutoff).log
  {
  }

  lemma ProcessBrings(w: Projector.World, a: Projector.Action)
    requires a.Process?
    ensures Projector.ProcessStep(w, a.fault, a.dies, a.cutoff).log ==
            if Brought(w, a).Some? then EventLog.Append(w.log, Brought(w, a).value).0 else w.log
  {
    if w.at < |w.batch| && w.batch[w.at] < |w.outbox| && w.outbox[w.batch[w.at]].body.Some? {
      ProcessLog(w, a.fault, a.dies, a.cutoff);
      Service.LogOfAppend(w.memory, w.log, Projector.Decoded(w.outbox[w.batch[w.at]]), a.fault, a.cutoff);
    }
  }

  /** The machine's log moves as the transaction's does. */
  lemma OneTransaction(s: System, a: Projector.Action)
    ensures Projector.Step(s.world, a).log ==
            Transacted(TaskStore.Store(s.world.log, s.projections), Brought(s.world, a)).log
  {
    if a.Process? {
      ProcessBrings(s.world, a);
    } else if a.Own? {
      Service.LogOfAppend(s.world.memory, s.world.log, a.e, a.fault, a.cutoff);
    }
  }

  /** The projections are always the fold of the log. */
  lemma {:induction false} AlwaysAFold(initial: TaskStore.Projections, actions: seq<Projector.Action>)
    ensures var s := Run(initial, actions);
      && s.world == Projector.Run(Projector.START, actions)
      && s.projections == TaskStore.Fold(initial, s.world.log)
  {
    if actions != [] {
      var front, last := actions[..|actions| - 1], actions[|actions| - 1];
      AlwaysAFold(initial, front);
      OneTransaction(Run(initial, front), last);
      FoldGrows(Run(initial, front), initial, Brought(Run(initial, front).world, last));
    }
  }

  lemma FoldGrows(s: System, initial: TaskStore.Projections, brought: Option<Event>)
    requires s.projections == TaskStore.Fold(initial, s.world.log)
    ensures var after := Transacted(TaskStore.Store(s.world.log, s.projections), brought);
      after.projections == TaskStore.Fold(initial, after.log)
  {
    var after := Transacted(TaskStore.Store(s.world.log, s.projections), brought);
    if after.log != s.world.log {
      assert after.log[..|after.log| - 1] == s.world.log;
    }
  }

  /**
   * After any safe run the projections are the fold of a log that holds the outbox events of the first rows, once each
   * and in outbox order, task by task, among them every marked row that must be there.
   */
  lemma ProjectedExactlyOnce(initial: TaskStore.Projections, actions: seq<Projector.Action>)
    requires Projector.SafeRun(Projector.START, actions)
    ensures var s := Run(initial, actions); var w := s.world;
      && s.projections == TaskStore.Fold(initial, w.log)
      && (exists n: nat :: Projector.HoldsFirst(w.outbox, w.log, n) && forall i: nat | i in w.projected :: i < n)
      && (forall i: nat | i in w.projected :: i < |w.outbox| && Projector.Settled(w.log, w.outbox[i]))
  {
    AlwaysAFold(initial, actions);
    Projector.ExactlyOnce(actions);
  }

  // ---- usage and budgets come from the outbox ----

  /** The task's publishable events among the first `n` rows. */
  function PublishedEvents(outbox: Projector.Outbox, n: nat, task: string): seq<Event>
    requires n <= |outbox|
  {
    if n == 0 then [] else
      PublishedEvents(outbox, n - 1, task) +
      if Projector.Publishable(outbox[n - 1]) && Projector.Decoded(outbox[n - 1]).task == task
      then [Projector.Decoded(outbox[n - 1])] else []
  }

  function IdsOf(events: seq<Event>): seq<string> {
    seq(|events|, i requires 0 <= i < |events| => events[i].id)
  }

  lemma {:induction false} PublishedIds(outbox: Projector.Outbox, n: nat, task: string)
    requires n <= |outbox|
    ensures IdsOf(PublishedEvents(outbox, n, task)) == Projector.Published(outbox, n, task)
    ensures forall e | e in PublishedEvents(outbox, n, task) ::
              exists i | 0 <= i < n :: outbox[i].body.Some? && e == Projector.Decoded(outbox[i])
  {
    if n > 0 {
      PublishedIds(outbox, n - 1, task);
    }
  }

  /** Every event of the task came through the outbox. */
  predicate OnlyFromOutbox(w: Projector.World, task: string) {
    forall e | e in w.log && e.task == task :: Projector.HasId(w.outbox, e.id)
  }

  lemma {:induction false} LoggedIds(log: EventLog.Log, outbox: Projector.Outbox, task: string)
    requires forall e | e in log && e.task == task :: Projector.HasId(outbox, e.id)
    ensures IdsOf(EventLog.Of(log, task)) == Projector.FromOutbox(log, outbox, task)
  {
    if log != [] {
      var front, last := log[..|log| - 1], log[|log| - 1];
      assert log == front + [last];
      LoggedIds(front, outbox, task);
    }
  }

  /** An event of the log with an outbox row's id says what the row says. */
  lemma LoggedAsPublished(w: Projector.World, e: Event, i: nat)
    requires Projector.Inv(w) && e in w.log && i < |w.outbox| && w.outbox[i].body.Some?
        && Projector.Decoded(w.outbox[i]).id == e.id
    ensures e.change == Projector.Decoded(w.outbox[i]).change
  {
    var k :| 0 <= k < |w.log| && w.log[k] == e;
    assert EventLog.Holds(w.log, Projector.Decoded(w.outbox[i]).id);
    assert Projector.InLog(w.log, Projector.Decoded(w.outbox[i]));
    var m :| 0 <= m < |w.log| && w.log[m] == Projector.Decoded(w.outbox[i]).(number := w.log[m].number);
    assert m == k;
  }

  lemma {:induction false} SameTotal(a: seq<Event>, b: seq<Event>, kind: Accumulators.Kind, key: string)
    requires |a| == |b| && forall i | 0 <= i < |a| :: a[i].change == b[i].change
    ensures Accumulators.Total(a, kind, key) == Accumulators.Total(b, kind, key)
  {
    if a != [] {
      SameTotal(a[..|a| - 1], b[..|b| - 1], kind, key);
    }
  }

  /** The log of a task that only the outbox feeds has the changes of its published rows, in their order. */
  lemma LogSaysWhatTheOutboxSays(w: Projector.World, task: string, n: nat)
    requires Projector.Inv(w) && Projector.HoldsFirst(w.outbox, w.log, n) && OnlyFromOutbox(w, task)
    ensures var logged, published := EventLog.Of(w.log, task), PublishedEvents(w.outbox, n, task);
      |logged| == |published| && forall k | 0 <= k < |logged| :: logged[k].change == published[k].change
  {
    var logged, published := EventLog.Of(w.log, task), PublishedEvents(w.outbox, n, task);
    LoggedIds(w.log, w.outbox, task);
    PublishedIds(w.outbox, n, task);
    EventLog.OfFacts(w.log, task);
    assert IdsOf(logged) == IdsOf(published);
    assert |logged| == |IdsOf(logged)| == |published|;
    forall k | 0 <= k < |logged| ensures logged[k].change == published[k].change {
      assert IdsOf(logged)[k] == IdsOf(published)[k];
      assert logged[k] in logged && published[k] in published;
      var i :| 0 <= i < n && w.outbox[i].body.Some? && published[k] == Projector.Decoded(w.outbox[i]);
      LoggedAsPublished(w, logged[k], i);
    }
  }

  function AmountsIn(account: TaskStore.Account, kind: Accumulators.Kind): Amounts {
    if kind == Accumulators.Budget then account.budgets else account.usage
  }

  /** Only the outbox feeds the task, its events are the tenant's, and no amount of this name is a text. */
  predicate OnlyPublishedNumbers(w: Projector.World, key: Approvals.TaskKey, kind: Accumulators.Kind, name: string) {
    && OnlyFromOutbox(w, key.task) && EventLog.BelongsTo(w.log, key.task, key.tenant)
    && Accumulators.Numeric(EventLog.Of(w.log, key.task), kind, name)
  }

  lemma FoldedAmount(initial: TaskStore.Projections, w: Projector.World, key: Approvals.TaskKey,
                     kind: Accumulators.Kind,
                     name: string, n: nat)
    requires Projector.Inv(w) && Projector.HoldsFirst(w.outbox, w.log, n)
    requires key in initial.amounts && OnlyPublishedNumbers(w, key, kind, name)
    ensures key in TaskStore.Fold(initial, w.log).amounts
    ensures Accumulators.AmountOf(AmountsIn(TaskStore.Fold(initial, w.log).amounts[key], kind), name) ==
            Accumulators.AmountOf(AmountsIn(initial.amounts[key], kind), name) +
            Accumulators.Total(PublishedEvents(w.outbox, n, key.task), kind, name)
  {
    TaskStore.FoldAmounts(initial, w.log, key);
    Accumulators.Conservation(AmountsIn(initial.amounts[key], kind), EventLog.Of(w.log, key.task), kind, name);
    LogSaysWhatTheOutboxSays(w, key.task, n);
    SameTotal(EventLog.Of(w.log, key.task), PublishedEvents(w.outbox, n, key.task), kind, name);
  }

  /** Each amount is its initial value plus the deltas of the task's published rows among the first `n`. */
  predicate Accounts(initial: TaskStore.Projections, s: System, key: Approvals.TaskKey, kind: Accumulators.Kind,
                     name: string, n: nat)
    requires key in initial.amounts
  {
    && n <= |s.world.outbox| && key in s.projections.amounts
    && Accumulators.AmountOf(AmountsIn(s.projections.amounts[key], kind), name) ==
       Accumulators.AmountOf(AmountsIn(initial.amounts[key], kind), name) +
       Accumulators.Total(PublishedEvents(s.world.outbox, n, key.task), kind, name)
  }

  /**
   * Usage and budgets end to end: after any safe run each amount of a task that only the outbox feeds is its initial
   * value plus the deltas of the task's rows, each counted once however often it was claimed and appended, up to a row
   * no marked one is behind.
   */
  lemma AmountsComeFromTheOutbox(initial: TaskStore.Projections, actions: seq<Projector.Action>, key: Approvals.TaskKey,
                                 kind: Accumulators.Kind, name: string)
    requires Projector.SafeRun(Projector.START, actions) && key in initial.amounts
    requires OnlyPublishedNumbers(Run(initial, actions).world, key, kind, name)
    ensures var s := Run(initial, actions);
      exists n: nat :: Accounts(initial, s, key, kind, name, n) && forall i: nat | i in s.world.projected :: i < n
  {
    ProjectedExactlyOnce(initial, actions);
    AlwaysAFold(initial, actions);
    Projector.RunKeeps(actions);
    var s := Run(initial, actions);
    var n: nat :| Projector.HoldsFirst(s.world.outbox, s.world.log, n) && forall i: nat | i in s.world.projected ::
        i < n;
    FoldedAmount(initial, s.world, key, kind, name, n);
    assert Accounts(initial, s, key, kind, name, n);
  }

  // ---- the same, in the rows' own columns ----

  /** What the rows of a task among the first `n` say, of those that must be logged. */
  function Bodies(outbox: Projector.Outbox, n: nat, task: string): seq<Event>
    requires n <= |outbox|
  {
    if n == 0 then [] else
      var row := outbox[n - 1];
      Bodies(outbox, n - 1, task) +
      if Projector.MustBeLogged(row) && Projector.RowTask(row) == task then [row.body.value] else []
  }

  lemma {:induction false} BodiesArePublished(outbox: Projector.Outbox, n: nat, task: string)
    requires n <= |outbox|
    ensures var bodies, published := Bodies(outbox, n, task), PublishedEvents(outbox, n, task);
      |bodies| == |published| && forall k | 0 <= k < |bodies| :: bodies[k].change == published[k].change
  {
    if n > 0 {
      BodiesArePublished(outbox, n - 1, task);
      if outbox[n - 1].body.Some? {
        Projector.SameRow(outbox[n - 1]);
      }
    }
  }

  /** Every event of the task has an outbox row's id, and the task's tenant. */
  predicate OnlyRows(w: Projector.World, key: Approvals.TaskKey) {
    forall e | e in w.log && e.task == key.task :: Projector.IsRowId(w.outbox, e.id) && e.tenant == key.tenant
  }

  /** The budget is its initial value plus what the task's rows among the first `n` grant. */
  predicate BudgetCounts(before: Amounts, after: Amounts, outbox: Projector.Outbox, logged: seq<Event>, task: string,
                         name: string, n: nat)
    requires n <= |outbox|
  {
    Accumulators.NoTextGranted(logged, name) ==>
      Accumulators.AmountOf(after, name) ==
      Accumulators.AmountOf(before, name) + Accumulators.Granted(Bodies(outbox, n, task), name)
  }

  /** The usage is its initial value plus what the task's rows among the first `n` record. */
  predicate UsageCounts(before: Amounts, after: Amounts, outbox: Projector.Outbox, logged: seq<Event>, task: string,
                        name: string, n: nat)
    requires n <= |outbox|
  {
    Accumulators.NoTextRecorded(logged, name) ==>
      Accumulators.AmountOf(after, name) ==
      Accumulators.AmountOf(before, name) + Accumulators.Recorded(Bodies(outbox, n, task), name)
  }

  predicate CountsRows(initial: TaskStore.Projections, s: System, key: Approvals.TaskKey, name: string, n: nat)
    requires key in initial.amounts
  {
    && n <= |s.world.outbox| && key in s.projections.amounts
    && var logged := EventLog.Of(s.world.log, key.task);
       var before, after := initial.amounts[key], s.projections.amounts[key];
       && BudgetCounts(before.budgets, after.budgets, s.world.outbox, logged, key.task, name, n)
       && UsageCounts(before.usage, after.usage, s.world.outbox, logged, key.task, name, n)
  }

  lemma OneAccountCounts(initial: TaskStore.Projections, w: Projector.World, key: Approvals.TaskKey,
                         kind: Accumulators.Kind, name: string, n: nat)
    requires Projector.Inv(w) && Projector.HoldsFirst(w.outbox, w.log, n) && key in initial.amounts && OnlyRows(w, key)
    requires Accumulators.Numeric(EventLog.Of(w.log, key.task), kind, name)
    ensures key in TaskStore.Fold(initial, w.log).amounts
    ensures Accumulators.AmountOf(AmountsIn(TaskStore.Fold(initial, w.log).amounts[key], kind), name) ==
            Accumulators.AmountOf(AmountsIn(initial.amounts[key], kind), name) +
            Accumulators.Total(Bodies(w.outbox, n, key.task), kind, name)
  {
    Projector.SameIds(w.outbox);
    assert OnlyFromOutbox(w, key.task);
    EventLog.OfFacts(w.log, key.task);
    FoldedAmount(initial, w, key, kind, name, n);
    BodiesArePublished(w.outbox, n, key.task);
    SameTotal(PublishedEvents(w.outbox, n, key.task), Bodies(w.outbox, n, key.task), kind, name);
  }

  lemma BudgetIsCounted(initial: TaskStore.Projections, w: Projector.World, key: Approvals.TaskKey, name: string,
                        n: nat)
    requires Projector.Inv(w) && Projector.HoldsFirst(w.outbox, w.log, n) && key in initial.amounts && OnlyRows(w, key)
    requires key in TaskStore.Fold(initial, w.log).amounts
    ensures BudgetCounts(initial.amounts[key].budgets, TaskStore.Fold(initial, w.log).amounts[key].budgets, w.outbox,
                         EventLog.Of(w.log, key.task), key.task, name, n)
  {
    Accumulators.TotalsAreTheSums(EventLog.Of(w.log, key.task), name);
    Accumulators.TotalsAreTheSums(Bodies(w.outbox, n, key.task), name);
    if Accumulators.NoTextGranted(EventLog.Of(w.log, key.task), name) {
      OneAccountCounts(initial, w, key, Accumulators.Budget, name, n);
    }
  }

  lemma UsageIsCounted(initial: TaskStore.Projections, w: Projector.World, key: Approvals.TaskKey, name: string, n: nat)
    requires Projector.Inv(w) && Projector.HoldsFirst(w.outbox, w.log, n) && key in initial.amounts && OnlyRows(w, key)
    requires key in TaskStore.Fold(initial, w.log).amounts
    ensures UsageCounts(initial.amounts[key].usage, TaskStore.Fold(initial, w.log).amounts[key].usage, w.outbox,
                        EventLog.Of(w.log, key.task), key.task, name, n)
  {
    Accumulators.TotalsAreTheSums(EventLog.Of(w.log, key.task), name);
    Accumulators.TotalsAreTheSums(Bodies(w.outbox, n, key.task), name);
    if Accumulators.NoTextRecorded(EventLog.Of(w.log, key.task), name) {
      OneAccountCounts(initial, w, key, Accumulators.Usage, name, n);
    }
  }

  lemma RowsAreCounted(initial: TaskStore.Projections, s: System, key: Approvals.TaskKey, name: string, n: nat)
    requires Projector.Inv(s.world) && Projector.HoldsFirst(s.world.outbox, s.world.log, n) && key in initial.amounts
    requires OnlyRows(s.world, key) && s.projections == TaskStore.Fold(initial, s.world.log)
    ensures CountsRows(initial, s, key, name, n)
  {
    TaskStore.FoldAmounts(initial, s.world.log, key);
    BudgetIsCounted(initial, s.world, key, name, n);
    UsageIsCounted(initial, s.world, key, name, n);
  }

  /**
   * Budgets and usage from the written rows to the task row: after any safe run the budget of a task that only the
   * outbox feeds is its initial value plus what the bodies of the task's rows grant, and its usage is its initial value
   * plus what they record, each row once, up to a row that no marked one is behind.
   */
  lemma AccountsComeFromTheRows(initial: TaskStore.Projections, actions: seq<Projector.Action>, key: Approvals.TaskKey,
                                name: string)
    requires Projector.SafeRun(Projector.START, actions) && key in initial.amounts
    requires OnlyRows(Run(initial, actions).world, key)
    ensures var s := Run(initial, actions);
      exists n: nat :: CountsRows(initial, s, key, name, n) && forall i: nat | i in s.world.projected :: i < n
  {
    ProjectedExactlyOnce(initial, actions);
    AlwaysAFold(initial, actions);
    Projector.RunKeeps(actions);
    var s := Run(initial, actions);
    var n: nat :| Projector.HoldsFirst(s.world.outbox, s.world.log, n) && forall i: nat | i in s.world.projected ::
        i < n;
    RowsAreCounted(initial, s, key, name, n);
  }

  // ---- approvals and nodes come from what was written ----

  function RowEvents(outbox: Projector.Outbox): seq<Event> {
    if outbox == [] then [] else
      var last := outbox[|outbox| - 1];
      RowEvents(outbox[..|outbox| - 1]) + if last.body.Some? then [Projector.Decoded(last)] else []
  }

  function OtherEvents(actions: seq<Projector.Action>): seq<Event> {
    if actions == [] then [] else
      var last := actions[|actions| - 1];
      OtherEvents(actions[..|actions| - 1]) + if last.Foreign? || last.Own? then [last.e] else []
  }

  /** All that was written in a run: the events of the outbox, and those that others append. */
  function Written(actions: seq<Projector.Action>): seq<Event> {
    RowEvents(Projector.Run(Projector.START, actions).outbox) + OtherEvents(actions)
  }

  lemma {:induction false} RowIsWritten(outbox: Projector.Outbox, i: nat)
    requires i < |outbox| && outbox[i].body.Some?
    ensures Projector.Decoded(outbox[i]) in RowEvents(outbox)
  {
    if i < |outbox| - 1 {
      RowIsWritten(outbox[..|outbox| - 1], i);
    }
  }

  lemma OutboxGrows(w: Projector.World, a: Projector.Action)
    ensures RowEvents(w.outbox) <= RowEvents(Projector.Step(w, a).outbox)
  {
    var after := Projector.Step(w, a).outbox;
    if after != w.outbox {
      assert after[..|after| - 1] == w.outbox;
    }
  }

  lemma WrittenGrows(actions: seq<Projector.Action>, a: Projector.Action)
    ensures forall e | e in Written(actions) :: e in Written(actions + [a])
    ensures a.Foreign? || a.Own? ==> a.e in Written(actions + [a])
  {
    var all := actions + [a];
    assert all[..|all| - 1] == actions;
    OutboxGrows(Projector.Run(Projector.START, actions), a);
  }

  lemma BroughtIsWritten(actions: seq<Projector.Action>, a: Projector.Action)
    requires Brought(Projector.Run(Projector.START, actions), a).Some?
    ensures Brought(Projector.Run(Projector.START, actions), a).value in Written(actions + [a])
  {
    var w := Projector.Run(Projector.START, actions);
    WrittenGrows(actions, a);
    if a.Process? {
      RowIsWritten(w.outbox, w.batch[w.at]);
    }
  }

  /** What reaches the store was written. */
  lemma TransactedComes(log: EventLog.Log, projections: TaskStore.Projections, brought: Option<Event>,
                        sources: seq<Event>)
    requires TaskStore.ComesFrom(log, sources) && (brought.Some? ==> brought.value in sources)
    ensures TaskStore.ComesFrom(Transacted(TaskStore.Store(log, projections), brought).log, sources)
  {
  }

  lemma MoreSources(log: EventLog.Log, sources: seq<Event>, more: seq<Event>)
    requires TaskStore.ComesFrom(log, sources) && forall e | e in sources :: e in more
    ensures TaskStore.ComesFrom(log, more)
  {
  }

  lemma {:induction false} LogIsWritten(initial: TaskStore.Projections, actions: seq<Projector.Action>)
    ensures EventLog.WellNumbered(Run(initial, actions).world.log)
    ensures TaskStore.ComesFrom(Run(initial, actions).world.log, Written(actions))
  {
    if actions != [] {
      var front, last := actions[..|actions| - 1], actions[|actions| - 1];
      assert actions == front + [last];
      var s := Run(initial, front);
      LogIsWritten(initial, front);
      AlwaysAFold(initial, front);
      WrittenGrows(front, last);
      MoreSources(s.world.log, Written(front), Written(actions));
      if Brought(s.world, last).Some? {
        BroughtIsWritten(front, last);
        EventLog.AppendKeeps(s.world.log, Brought(s.world, last).value);
      }
      OneTransaction(s, last);
      TransactedComes(s.world.log, s.projections, Brought(s.world, last), Written(actions));
    }
  }

  /**
   * Approvals end to end: when what the writers wrote is orderly, both views of a task's approvals agree after every
   * run of the projector, whatever is claimed again, fails or is lost.
   */
  lemma ApprovalViewsAgree(tasks: TaskStore.Accounts, actions: seq<Projector.Action>, key: Approvals.TaskKey)
    requires key in tasks && TaskStore.OrderlyDeliveries(Written(actions))
    ensures TaskStore.OneView(Run(TaskStore.Fresh(tasks), actions).projections.board, key)
  {
    AlwaysAFold(TaskStore.Fresh(tasks), actions);
    LogIsWritten(TaskStore.Fresh(tasks), actions);
    TaskStore.FoldedViews(tasks, Run(TaskStore.Fresh(tasks), actions).world.log, Written(actions), key);
  }

  lemma SettledIsShown(log: EventLog.Log, row: Projector.OutboxRow, nodes: NodeRows.Table, key: NodeRows.NodeKey)
    requires TaskStore.ShowsNewest(nodes, log, key) && Projector.Settled(log, row)
    requires Projector.Publishable(row) && NodeRows.Concerns(Projector.Decoded(row), key)
    ensures key in nodes && Projector.Decoded(row).version <= nodes[key].version
  {
    var e := Projector.Decoded(row);
    var k :| 0 <= k < |log| && log[k] == e.(number := log[k].number);
    assert log[k] in log && NodeRows.Concerns(log[k], key);
  }

  /** No marked row of the node has a version above the one that shows. */
  predicate MarkedAreShown(w: Projector.World, nodes: NodeRows.Table, key: NodeRows.NodeKey) {
    forall i: nat | i in w.projected ::
      i < |w.outbox| &&
      (Projector.Publishable(w.outbox[i]) && NodeRows.Concerns(Projector.Decoded(w.outbox[i]), key) ==>
         key in nodes && Projector.Decoded(w.outbox[i]).version <= nodes[key].version)
  }

  lemma SettledAreShown(w: Projector.World, nodes: NodeRows.Table, key: NodeRows.NodeKey)
    requires TaskStore.ShowsNewest(nodes, w.log, key)
    requires forall i: nat | i in w.projected :: i < |w.outbox| && Projector.Settled(w.log, w.outbox[i])
    ensures MarkedAreShown(w, nodes, key)
  {
    forall i: nat | i in w.projected && Projector.Publishable(w.outbox[i])
                    && NodeRows.Concerns(Projector.Decoded(w.outbox[i]), key)
      ensures key in nodes && Projector.Decoded(w.outbox[i]).version <= nodes[key].version
    {
      SettledIsShown(w.log, w.outbox[i], nodes, key);
    }
  }

  lemma ShownIsWritten(nodes: NodeRows.Table, log: EventLog.Log, sources: seq<Event>, key: NodeRows.NodeKey)
    requires TaskStore.ShowsNewest(nodes, log, key) && TaskStore.ComesFrom(log, sources) && key in nodes
    ensures exists d | d in sources :: NodeRows.Concerns(d, key) && NodeRows.Shows(nodes[key], d)
  {
    var e :| e in log && NodeRows.Concerns(e, key) && NodeRows.Shows(nodes[key], e);
    var d :| d in sources && d.durable && e == d.(number := e.number);
    assert NodeRows.Concerns(d, key) && NodeRows.Shows(nodes[key], d);
  }

  /**
   * Nodes end to end: after any safe run a node's row shows an event that was written, and none of the node's marked
   * outbox rows has a higher version, in whatever order and however often the rows were appended.
   */
  lemma NodesShowTheNewest(tasks: TaskStore.Accounts, actions: seq<Projector.Action>, key: NodeRows.NodeKey)
    requires Projector.SafeRun(Projector.START, actions) && TaskStore.VersionedDeliveries(Written(actions), key)
    ensures var s := Run(TaskStore.Fresh(tasks), actions); var nodes := s.projections.nodes;
      && MarkedAreShown(s.world, nodes, key)
      && (key in nodes ==>
            exists d | d in Written(actions) :: NodeRows.Concerns(d, key) && NodeRows.Shows(nodes[key], d))
  {
    var s := Run(TaskStore.Fresh(tasks), actions);
    ProjectedExactlyOnce(TaskStore.Fresh(tasks), actions);
    LogIsWritten(TaskStore.Fresh(tasks), actions);
    TaskStore.FoldedNodes(tasks, s.world.log, Written(actions), key);
    SettledAreShown(s.world, s.projections.nodes, key);
    if key in s.projections.nodes {
      ShownIsWritten(s.projections.nodes, s.world.log, Written(actions), key);
    }
  }
}
