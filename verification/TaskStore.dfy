/**
 * `AppendTaskEvent` as a whole (internal/store/pgstore/task_events.go): one transaction stores an event in the log and
 * applies it to the projections, or finds that it is there already and does neither.
 */
module TaskStore {
  import opened Common
  import opened Events
  import EventLog
  import NodeRows
  import AttemptRows
  import Approvals
  import Accumulators

  datatype Account = Account(budgets: Amounts, usage: Amounts)

  type Accounts = map<Approvals.TaskKey, Account>

  /** `amounts` holds the budgets and the usage of every task that has a task row. */
  datatype Projections = Projections(nodes: NodeRows.Table, attempts: AttemptRows.Table, board: Approvals.Board,
                                     amounts: Accounts)

  datatype Store = Store(log: EventLog.Log, projections: Projections)

  function AmountsAfter(amounts: Accounts, e: Event): Accounts {
    var key := Approvals.TaskKey(e.tenant, e.task);
    if key in amounts && (e.change.BudgetGranted? || e.change.UsageRecorded?)
    then amounts[key := Account(Accumulators.Added(amounts[key].budgets, Accumulators.DeltaOf(e, Accumulators.Budget)),
                                Accumulators.Added(amounts[key].usage, Accumulators.DeltaOf(e, Accumulators.Usage)))]
    else amounts
  }

  /** `applyEvent`. */
  function Applied(p: Projections, e: Event): Projections {
    Projections(NodeRows.Applied(p.nodes, e), AttemptRows.Applied(p.attempts, e), Approvals.Applied(p.board, e),
        AmountsAfter(p.amounts, e))
  }

  function Appended(s: Store, e: Event): (Store, EventLog.Outcome) {
    var (log, outcome) := EventLog.Append(s.log, e);
    if outcome.Stored? then (Store(log, Applied(s.projections, log[|log| - 1])), outcome) else (s, outcome)
  }

  /** The projections before any event, for tasks with the given budgets and usage. */
  function Fresh(tasks: Accounts): Projections {
    Projections(map[], map[], Approvals.Board(map[], map key | key in tasks :: []), tasks)
  }

  class Database {
    const events: EventLog.TaskEvents
    const nodes: NodeRows.NodeTable
    const attempts: AttemptRows.AttemptTable
    const board: Approvals.ApprovalBoard
    var amounts: Accounts

    ghost predicate Valid()
      reads this, events
    {
      events.Valid()
    }

    ghost function State(): Store
      reads this, events, nodes, attempts, board
    {
      Store(events.log, Projections(nodes.table, attempts.table, Approvals.Board(board.rows, board.pending), amounts))
    }

    constructor (tasks: Accounts)
      ensures Valid() && State() == Store([], Fresh(tasks))
      ensures fresh(events) && fresh(nodes) && fresh(attempts) && fresh(board)
    {
      events := new EventLog.TaskEvents();
      nodes := new NodeRows.NodeTable();
      attempts := new AttemptRows.AttemptTable();
      board := new Approvals.ApprovalBoard(tasks.Keys);
      amounts := tasks;
    }

    method UpdateAmounts(e: Event)
      requires e.change.BudgetGranted? || e.change.UsageRecorded?
      modifies this`amounts
      ensures amounts == AmountsAfter(old(amounts), e)
    {
      var key := Approvals.TaskKey(e.tenant, e.task);
      if key !in amounts {
        return;
      }
      var budgets := Accumulators.AddJsonNumbers(amounts[key].budgets, Accumulators.DeltaOf(e, Accumulators.Budget));
      var usage := Accumulators.AddJsonNumbers(amounts[key].usage, Accumulators.DeltaOf(e, Accumulators.Usage));
      amounts := amounts[key := Account(budgets, usage)];
    }

    method ApplyEvent(e: Event)
      modifies this, nodes, attempts, board
      ensures State().projections == Applied(old(State().projections), e)
    {
      Untouched(State().projections, e);
      match e.change {
        case NodeStatusChanged(_, _, _, _) => nodes.ProjectNodeStatus(e);
        case AttemptStarted(_, _, _, _) => attempts.InsertAttempt(e);
        case AttemptParked(_, _) => attempts.ProjectAttemptEvent(e);
        case AttemptResumed(_, _, _) => attempts.ProjectAttemptEvent(e);
        case AttemptFinished(_, _, _, _, _, _, _) => attempts.ProjectAttemptEvent(e);
        case ApprovalRequested(_, _) => board.Project(e);
        case ApprovalDecided(_, _, _) => board.Project(e);
        case BudgetGranted(_) => UpdateAmounts(e);
        case UsageRecorded(_) => UpdateAmounts(e);
        case Other =>
      }
    }

    method AppendTaskEvent(e: Event) returns (outcome: EventLog.Outcome)
      requires Valid()
      modifies this, events, nodes, attempts, board
      ensures Valid() && (State(), outcome) == Appended(old(State()), e)
    {
      EventLog.AppendKeeps(events.log, e);
      outcome := events.AppendTaskEvent(e);
      if outcome.Stored? {
        ApplyEvent(events.log[|events.log| - 1]);
      }
    }
  }

  /** An event changes only the projection of its type. */
  lemma Untouched(p: Projections, e: Event)
    ensures !e.change.NodeStatusChanged? ==> NodeRows.Applied(p.nodes, e) == p.nodes
    ensures !(|| e.change.AttemptStarted? || e.change.AttemptParked?
              || e.change.AttemptResumed? || e.change.AttemptFinished?) ==>
              AttemptRows.Applied(p.attempts, e) == p.attempts
    ensures !(e.change.ApprovalRequested? || e.change.ApprovalDecided?) ==> Approvals.Applied(p.board, e) == p.board
  {
  }

  // ---- over every run of deliveries, with redeliveries ----

  function Run(s: Store, deliveries: seq<Event>): Store {
    if deliveries == [] then s else Appended(Run(s, deliveries[..|deliveries| - 1]), deliveries[|deliveries| - 1]).0
  }

  function Fold(p: Projections, log: EventLog.Log): Projections {
    if log == [] then p else Applied(Fold(p, log[..|log| - 1]), log[|log| - 1])
  }

  /**
   * The projections are rebuildable: after any deliveries, in any order and repeated at will, they are the fold of the
   * log, in which every event stands once.
   */
  lemma {:induction false} ProjectionsAreAFold(initial: Projections, deliveries: seq<Event>)
    ensures var s := Run(Store([], initial), deliveries);
            s.projections == Fold(initial, s.log) && EventLog.WellNumbered(s.log)
  {
    if deliveries != [] {
      var front, last := deliveries[..|deliveries| - 1], deliveries[|deliveries| - 1];
      ProjectionsAreAFold(initial, front);
      var before := Run(Store([], initial), front);
      EventLog.AppendKeeps(before.log, last);
      var after := Appended(before, last).0;
      if after.log != before.log {
        assert after.log[..|after.log| - 1] == before.log;
      }
    }
  }

  lemma {:induction false} FoldParts(p: Projections, log: EventLog.Log)
    ensures Fold(p, log).nodes == NodeRows.AppliedAll(p.nodes, log)
    ensures Fold(p, log).board == Approvals.AppliedAll(p.board, log)
  {
    if log != [] {
      FoldParts(p, log[..|log| - 1]);
    }
  }

  function Projected(log: EventLog.Log): seq<AttemptRows.Op> {
    seq(|log|, i requires 0 <= i < |log| => AttemptRows.Project(log[i]))
  }

  /** The attempt rows are those of a run of projections alone; the maintenance is another writer. */
  lemma {:induction false} FoldAttempts(p: Projections, log: EventLog.Log)
    ensures Fold(p, log).attempts == AttemptRows.Run(p.attempts, Projected(log))
  {
    if log != [] {
      var front := log[..|log| - 1];
      FoldAttempts(p, front);
      assert Projected(log)[..|log| - 1] == Projected(front);
    }
  }

  lemma AccountStep(accounts: Accounts, e: Event, key: Approvals.TaskKey)
    requires key in accounts && (e.task == key.task ==> e.tenant == key.tenant)
    ensures key in AmountsAfter(accounts, e)
    ensures AmountsAfter(accounts, e)[key] ==
      if e.task == key.task
      then Account(Accumulators.Added(accounts[key].budgets, Accumulators.DeltaOf(e, Accumulators.Budget)),
                   Accumulators.Added(accounts[key].usage, Accumulators.DeltaOf(e, Accumulators.Usage)))
      else accounts[key]
  {
  }

  lemma FoldedLast(initial: Amounts, events: seq<Event>, e: Event, kind: Accumulators.Kind)
    ensures Accumulators.Folded(initial, events + [e], kind) ==
            Accumulators.Added(Accumulators.Folded(initial, events, kind), Accumulators.DeltaOf(e, kind))
  {
    assert (events + [e])[..|events|] == events;
  }

  lemma {:induction false} FoldAmounts(p: Projections, log: EventLog.Log, key: Approvals.TaskKey)
    requires key in p.amounts && forall e | e in log && e.task == key.task :: e.tenant == key.tenant
    ensures key in Fold(p, log).amounts
    ensures Fold(p, log).amounts[key].budgets ==
        Accumulators.Folded(p.amounts[key].budgets, EventLog.Of(log, key.task), Accumulators.Budget)
    ensures Fold(p, log).amounts[key].usage ==
        Accumulators.Folded(p.amounts[key].usage, EventLog.Of(log, key.task), Accumulators.Usage)
  {
    if log != [] {
      var front, last := log[..|log| - 1], log[|log| - 1];
      assert last in log && forall e | e in front :: e in log;
      FoldAmounts(p, front, key);
      AccountStep(Fold(p, front).amounts, last, key);
      if last.task == key.task {
        FoldedLast(p.amounts[key].budgets, EventLog.Of(front, key.task), last, Accumulators.Budget);
        FoldedLast(p.amounts[key].usage, EventLog.Of(front, key.task), last, Accumulators.Usage);
      } else {
        assert EventLog.Of(front, key.task) + [] == EventLog.Of(front, key.task);
      }
    }
  }

  /**
   * Conservation of usage and budgets: after any run with redeliveries, each amount of a task is its initial value plus
   * the sum of that key's deltas over the distinct events in the task's log.
   */
  lemma AmountsAreConserved(initial: Projections, deliveries: seq<Event>, key: Approvals.TaskKey, name: string)
    requires key in initial.amounts
    requires forall e | e in deliveries && e.task == key.task :: e.tenant == key.tenant
    ensures var s := Run(Store([], initial), deliveries); var events := EventLog.Of(s.log, key.task);
      && key in s.projections.amounts
      && (Accumulators.Numeric(events, Accumulators.Budget, name) ==>
            Accumulators.AmountOf(s.projections.amounts[key].budgets, name) ==
            Accumulators.AmountOf(initial.amounts[key].budgets, name) + Accumulators.Total(events, Accumulators.Budget,
                name))
      && (Accumulators.Numeric(events, Accumulators.Usage, name) ==>
            Accumulators.AmountOf(s.projections.amounts[key].usage, name) ==
            Accumulators.AmountOf(initial.amounts[key].usage, name) + Accumulators.Total(events, Accumulators.Usage,
                name))
  {
    ProjectionsAreAFold(initial, deliveries);
    LogComesFromDeliveries(initial, deliveries);
    var s := Run(Store([], initial), deliveries);
    FoldAmounts(initial, s.log, key);
    var events := EventLog.Of(s.log, key.task);
    if Accumulators.Numeric(events, Accumulators.Budget, name) {
      Accumulators.Conservation(initial.amounts[key].budgets, events, Accumulators.Budget, name);
    }
    if Accumulators.Numeric(events, Accumulators.Usage, name) {
      Accumulators.Conservation(initial.amounts[key].usage, events, Accumulators.Usage, name);
    }
  }

  /**
   * The two accounts of a task after any run with redeliveries, in the events' own words: budgets move by what was
   * granted and nothing else, usage by what was recorded and nothing else, each event of the log once. What stands
   * under a key, with texts and nulls, is what entering them one by one leaves.
   */
  lemma GrantsAndUsageAreConserved(initial: Projections, deliveries: seq<Event>, key: Approvals.TaskKey, name: string)
    requires key in initial.amounts
    requires forall e | e in deliveries && e.task == key.task :: e.tenant == key.tenant
    ensures var s := Run(Store([], initial), deliveries); var events := EventLog.Of(s.log, key.task);
      && key in s.projections.amounts
      && var before, after := initial.amounts[key], s.projections.amounts[key];
         && Accumulators.AmountAt(after.budgets, name) ==
            Accumulators.BudgetShown(Accumulators.AmountAt(before.budgets, name), events, name)
         && Accumulators.AmountAt(after.usage, name) ==
            Accumulators.UsageShown(Accumulators.AmountAt(before.usage, name), events, name)
         && (Accumulators.NoTextGranted(events, name) ==>
               Accumulators.AmountOf(after.budgets, name) ==
               Accumulators.AmountOf(before.budgets, name) + Accumulators.Granted(events, name))
         && (Accumulators.NoTextRecorded(events, name) ==>
               Accumulators.AmountOf(after.usage, name) ==
               Accumulators.AmountOf(before.usage, name) + Accumulators.Recorded(events, name))
  {
    var s := Run(Store([], initial), deliveries);
    var events := EventLog.Of(s.log, key.task);
    ProjectionsAreAFold(initial, deliveries);
    LogComesFromDeliveries(initial, deliveries);
    FoldAmounts(initial, s.log, key);
    Accumulators.FoldShows(initial.amounts[key].budgets, events, name);
    Accumulators.FoldShows(initial.amounts[key].usage, events, name);
    Accumulators.TotalsAreTheSums(events, name);
    AmountsAreConserved(initial, deliveries, key, name);
  }

  lemma {:induction false} LogComesFromDeliveries(initial: Projections, deliveries: seq<Event>)
    ensures ComesFrom(Run(Store([], initial), deliveries).log, deliveries)
  {
    if deliveries != [] {
      var front, last := deliveries[..|deliveries| - 1], deliveries[|deliveries| - 1];
      assert deliveries == front + [last];
      LogComesFromDeliveries(initial, front);
      forall e | e in Run(Store([], initial), deliveries).log
        ensures exists d | d in deliveries :: d.durable && e == d.(number := e.number)
      {
        if e in Run(Store([], initial), front).log {
          var d :| d in front && d.durable && e == d.(number := e.number);
          assert d in deliveries;
        } else {
          assert last in deliveries && e == last.(number := e.number);
        }
      }
    }
  }

  // ---- what the deliveries owe ----

  /** Every stored event is one of the deliveries, with its number. */
  ghost predicate ComesFrom(log: EventLog.Log, deliveries: seq<Event>) {
    forall e | e in log :: exists d | d in deliveries :: d.durable && e == d.(number := e.number)
  }

  predicate OfApproval(e: Event) {
    e.durable && (e.change.ApprovalRequested? || e.change.ApprovalDecided?)
  }

  /** Deliveries of one approval. */
  predicate SameApproval(d: Event, e: Event) {
    OfApproval(d) && OfApproval(e) && d.change.approvalId == e.change.approvalId
  }

  /**
   * Typed payloads, one task for each approval, and one event that requests it, delivered as often as may be; a
   * decision without a version, or with a greater one than the request.
   */
  predicate OrderlyDeliveries(deliveries: seq<Event>) {
    && (forall d | d in deliveries && OfApproval(d) :: d.change.typed)
    && (forall d, e | d in deliveries && e in deliveries && SameApproval(d, e) ::
          && d.tenant == e.tenant && d.task == e.task
          && (d.change.ApprovalRequested? && e.change.ApprovalRequested? ==> d.id == e.id)
          && (d.change.ApprovalDecided? && e.change.ApprovalRequested? ==> d.version <= 0 || d.version > e.version))
  }

  /** The events of one node: positive versions, one tenant, and one event a version, delivered as often as may be. */
  predicate VersionedDeliveries(deliveries: seq<Event>, key: NodeRows.NodeKey) {
    && (forall d | d in deliveries && d.durable && NodeRows.Concerns(d, key) :: d.version > 0)
    && (forall d, e | d in deliveries && e in deliveries && d.durable && e.durable
                      && NodeRows.Concerns(d, key) && NodeRows.Concerns(e, key) ::
          d.tenant == e.tenant && (d.version == e.version ==> d.id == e.id))
  }

  /** What two stored events owe each other, from their deliveries. */
  lemma StoredPair(log: EventLog.Log, deliveries: seq<Event>, d: Event, e: Event)
    requires ComesFrom(log, deliveries) && OrderlyDeliveries(deliveries)
    requires d in log && e in log && OfApproval(d) && OfApproval(e) && d.change.approvalId == e.change.approvalId
    ensures d.change.typed && d.tenant == e.tenant && d.task == e.task
    ensures d.change.ApprovalRequested? && e.change.ApprovalRequested? ==> d.id == e.id
    ensures d.change.ApprovalDecided? && e.change.ApprovalRequested? ==> d.version <= 0 || d.version > e.version
  {
    var c :| c in deliveries && c.durable && d == c.(number := d.number);
    var f :| f in deliveries && f.durable && e == f.(number := e.number);
    assert SameApproval(c, f);
  }

  lemma StoredAreOrderly(log: EventLog.Log, deliveries: seq<Event>)
    requires ComesFrom(log, deliveries) && OrderlyDeliveries(deliveries)
    ensures OrderlyDeliveries(log)
  {
    forall d, e | d in log && e in log && SameApproval(d, e)
      ensures d.change.typed && d.tenant == e.tenant && d.task == e.task
      ensures d.change.ApprovalRequested? && e.change.ApprovalRequested? ==> d.id == e.id
      ensures d.change.ApprovalDecided? && e.change.ApprovalRequested? ==> d.version <= 0 || d.version > e.version
    {
      StoredPair(log, deliveries, d, e);
    }
    assert forall d | d in log && OfApproval(d) :: SameApproval(d, d);
  }

  lemma RequestsDiffer(log: EventLog.Log, i: nat, j: nat)
    requires EventLog.WellNumbered(log) && OrderlyDeliveries(log) && i < j < |log|
    requires log[i].change.ApprovalRequested? && log[j].change.ApprovalRequested?
    ensures log[i].change.approvalId != log[j].change.approvalId
  {
    assert log[i] in log && log[j] in log;
    if log[i].change.approvalId == log[j].change.approvalId {
      assert SameApproval(log[i], log[j]);
    }
  }

  lemma OrderlyPair(log: EventLog.Log, d: Event, e: Event)
    requires OrderlyDeliveries(log) && d in log && e in log && d.durable && e.durable
    requires (d.change.ApprovalRequested? || d.change.ApprovalDecided?) && Approvals.About(e, d.change.approvalId)
    ensures d.change.typed && d.tenant == e.tenant && d.task == e.task
    ensures d.change.ApprovalDecided? && e.change.ApprovalRequested? ==> d.version <= 0 || d.version > e.version
  {
    assert SameApproval(d, e);
  }

  /** Redeliveries are not stored again, so the log has each request once. */
  lemma OrderlyLog(log: EventLog.Log)
    requires EventLog.WellNumbered(log) && OrderlyDeliveries(log)
    ensures Approvals.Orderly(log)
  {
    forall d, e | d in log && e in log && (d.change.ApprovalRequested? || d.change.ApprovalDecided?)
                  && Approvals.About(e, d.change.approvalId)
      ensures d.change.typed && d.tenant == e.tenant && d.task == e.task
      ensures d.change.ApprovalDecided? && e.change.ApprovalRequested? ==> d.version <= 0 || d.version > e.version
    {
      OrderlyPair(log, d, e);
    }
    assert forall e | e in log && (e.change.ApprovalRequested? || e.change.ApprovalDecided?) ::
        Approvals.About(e, e.change.approvalId);
    forall i, j | 0 <= i < j < |log| && log[i].change.ApprovalRequested? && log[j].change.ApprovalRequested?
      ensures log[i].change.approvalId != log[j].change.approvalId
    {
      RequestsDiffer(log, i, j);
    }
  }

  lemma SameStored(log: EventLog.Log, d: Event, e: Event)
    requires EventLog.WellNumbered(log) && d in log && e in log && d.id == e.id
    ensures d == e
  {
  }

  lemma VersionedLog(log: EventLog.Log, deliveries: seq<Event>, key: NodeRows.NodeKey)
    requires EventLog.WellNumbered(log) && ComesFrom(log, deliveries) && VersionedDeliveries(deliveries, key)
    ensures NodeRows.Versioned(log, key)
  {
    forall d, e | d in log && e in log && NodeRows.Concerns(d, key) && NodeRows.Concerns(e, key)
      ensures d.version > 0 && d.tenant == e.tenant && (d.version == e.version ==> d == e)
    {
      var c :| c in deliveries && c.durable && d == c.(number := d.number);
      var f :| f in deliveries && f.durable && e == f.(number := e.number);
      assert NodeRows.Concerns(c, key) && NodeRows.Concerns(f, key);
      if d.version == e.version {
        SameStored(log, d, e);
      }
    }
  }

  // ---- approvals and nodes, over every run of deliveries ----

  /** Both views of a task's approvals: the pending rows are exactly the list, each once. */
  ghost predicate OneView(board: Approvals.Board, key: Approvals.TaskKey) {
    && key in board.pending && Distinct(board.pending[key])
    && forall id :: id in board.pending[key] <==> Approvals.IsPending(board, key, id)
  }

  lemma FoldedViews(tasks: Accounts, log: EventLog.Log, deliveries: seq<Event>, key: Approvals.TaskKey)
    requires key in tasks && EventLog.WellNumbered(log) && ComesFrom(log, deliveries) && OrderlyDeliveries(deliveries)
    ensures OneView(Fold(Fresh(tasks), log).board, key)
  {
    StoredAreOrderly(log, deliveries);
    OrderlyLog(log);
    FoldParts(Fresh(tasks), log);
    Approvals.ViewsAgree(tasks.Keys, log, key);
    assert Fresh(tasks).board == Approvals.Board(map[], map k | k in tasks.Keys :: []);
  }

  /** Both views of a task's approvals agree after any run of orderly deliveries, in any order and repeated at will. */
  lemma ApprovalViewsAgree(tasks: Accounts, deliveries: seq<Event>, key: Approvals.TaskKey)
    requires key in tasks && OrderlyDeliveries(deliveries)
    ensures OneView(Run(Store([], Fresh(tasks)), deliveries).projections.board, key)
  {
    ProjectionsAreAFold(Fresh(tasks), deliveries);
    LogComesFromDeliveries(Fresh(tasks), deliveries);
    FoldedViews(tasks, Run(Store([], Fresh(tasks)), deliveries).log, deliveries, key);
  }

  /** The node's row shows the stored event with the highest version; without such an event there is no row. */
  ghost predicate ShowsNewest(nodes: NodeRows.Table, log: EventLog.Log, key: NodeRows.NodeKey) {
    && (key in nodes <==> exists e | e in log :: NodeRows.Concerns(e, key))
    && (key in nodes ==>
          && (exists e | e in log :: NodeRows.Concerns(e, key) && NodeRows.Shows(nodes[key], e))
          && forall e | e in log && NodeRows.Concerns(e, key) :: e.version <= nodes[key].version)
  }

  lemma FoldedNodes(tasks: Accounts, log: EventLog.Log, deliveries: seq<Event>, key: NodeRows.NodeKey)
    requires EventLog.WellNumbered(log) && ComesFrom(log, deliveries) && VersionedDeliveries(deliveries, key)
    ensures ShowsNewest(Fold(Fresh(tasks), log).nodes, log, key)
  {
    VersionedLog(log, deliveries, key);
    FoldParts(Fresh(tasks), log);
    NodeRows.LastWriterWins(log, key);
  }

  /** A node's row after any run of versioned deliveries, in any order and repeated at will. */
  lemma NodesShowTheNewest(tasks: Accounts, deliveries: seq<Event>, key: NodeRows.NodeKey)
    requires VersionedDeliveries(deliveries, key)
    ensures var s := Run(Store([], Fresh(tasks)), deliveries); ShowsNewest(s.projections.nodes, s.log, key)
  {
    ProjectionsAreAFold(Fresh(tasks), deliveries);
    LogComesFromDeliveries(Fresh(tasks), deliveries);
    FoldedNodes(tasks, Run(Store([], Fresh(tasks)), deliveries).log, deliveries, key);
  }
}
