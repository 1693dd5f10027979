/**
 * The attempt projection (`insertAttempt`, `createAttempt`, `moveAttempt`, `projectAttemptEvent`, `resumeAttempt` in
 * internal/store/pgstore/task_structure.go), with the worker's maintenance, which closes abandoned attempts, beside it.
 */
module AttemptRows {
  import opened Common
  import opened Events

  datatype Status = Starting | Running | ParkedForApproval | ParkedForInput | Accepted | Rejected | Aborted | Lost

  /** `changedAt` is status_changed_at; (`resumedAttempt`, `resumedState`) is the resumed key. */
  datatype Row = Row(tenant: string, task: string, node: string, no: int, status: Status, profile: string, version: int,
                     startedAt: int, finishedAt: Option<int>, changedAt: Option<int>, resumedAttempt: int,
                         resumedState: int,
                     failure: Option<string>, usage: Option<string>)

  type Table = map<string, Row>

  predicate Terminal(s: Status) {
    s in {Accepted, Rejected, Aborted, Lost}
  }

  predicate Parked(s: Status) {
    s in {ParkedForApproval, ParkedForInput}
  }

  function ParkStatus(reason: string): Option<Status> {
    if reason == "approval" then Some(ParkedForApproval) else if reason == "input" then Some(ParkedForInput) else None
  }

  function Outcome(outcome: string): Option<Status> {
    if outcome == "completed" then Some(Accepted)
    else if outcome == "failed" then Some(Rejected)
    else if outcome == "cancelled" then Some(Aborted)
    else None
  }

  // ---- one event ----

  /** INSERT ... ON CONFLICT DO NOTHING over the primary key and the unique (task, node, attempt_no). */
  function Created(table: Table, id: string, row: Row): Table {
    if id in table || Taken(table, row) then table else table[id := row]
  }

  /** The node has an attempt of that number. */
  predicate Taken(table: Table, row: Row) {
    exists id | id in table :: table[id].task == row.task && table[id].node == row.node && table[id].no == row.no
  }

  /** The WHERE of moveAttempt. */
  predicate Movable(table: Table, e: Event, id: string) {
    && id in table && table[id].tenant == e.tenant && table[id].task == e.task && !Terminal(table[id].status)
    && (e.version > 0 ==> table[id].version < e.version)
  }

  /** The WHERE of resumeAttempt, with the check constraint that the resumed key is not negative. */
  predicate Resumable(table: Table, e: Event, id: string, activity: int, state: int) {
    && id in table && table[id].tenant == e.tenant && table[id].task == e.task
    && (table[id].status == Starting || Parked(table[id].status))
    && (table[id].changedAt.None? || table[id].changedAt.value <= e.occurred)
    && (activity > 0 ==>
          table[id].resumedAttempt < activity
              || (table[id].resumedAttempt == activity && table[id].resumedState < state))
    && (activity > 0 ==> state >= 0)
  }

  function StartedRow(e: Event): Row
    requires e.change.AttemptStarted?
  {
    Row(e.tenant, e.task, e.change.startedNode, e.change.startedNo, Running, e.change.startedProfile, e.version,
        e.occurred, None, Some(e.occurred), 0, 0, None, Some("{}"))
  }

  function ParkedRow(row: Row, e: Event, status: Status): Row {
    row.(status := status, version := e.version, changedAt := Some(e.occurred), resumedAttempt := 0, resumedState := 0)
  }

  function ResumedRow(row: Row, activity: int, state: int): Row {
    if activity > 0 then row.(status := Running, resumedAttempt := activity, resumedState := state)
        else row.(status := Running)
  }

  function FinishedRow(row: Row, e: Event, status: Status): Row
    requires e.change.AttemptFinished?
  {
    row.(status := status, version := e.version, finishedAt := Some(e.occurred), changedAt := Some(e.occurred),
         failure := if e.change.failure.Some? then e.change.failure else row.failure,
         usage := if e.change.usage.Some? then e.change.usage else row.usage)
  }

  /** The row of an attempt whose start was missed. */
  function LateRow(e: Event, status: Status): Row
    requires e.change.AttemptFinished?
  {
    Row(e.tenant, e.task, e.change.node, e.change.no, status, e.change.profile, e.version, e.occurred, Some(e.occurred),
        Some(e.occurred), 0, 0, e.change.failure, if e.change.usage.Some? then e.change.usage else Some("{}"))
  }

  function Applied(table: Table, e: Event): Table {
    match e.change
    case AttemptStarted(id, node, no, _) =>
      if HasPrefix(id, "att_") && HasPrefix(node, "n_") && no >= 1 then Created(table, id, StartedRow(e)) else table
    case AttemptParked(id, reason) =>
      if HasPrefix(id, "att_") && ParkStatus(reason).Some? && Movable(table, e, id)
      then table[id := ParkedRow(table[id], e, ParkStatus(reason).value)] else table
    case AttemptResumed(id, activity, state) =>
      if HasPrefix(id, "att_") && Resumable(table, e, id, activity, state)
      then table[id := ResumedRow(table[id], activity, state)] else table
    case AttemptFinished(id, node, no, profile, outcome, _, _) =>
      if !HasPrefix(id, "att_") || Outcome(outcome).None? then table
      else if Movable(table, e, id) then table[id := FinishedRow(table[id], e, Outcome(outcome).value)]
      else if HasPrefix(node, "n_") && no >= 1 && profile != ""
          then Created(table, id, LateRow(e, Outcome(outcome).value))
      else table
    case _ => table
  }

  class AttemptTable {
    var table: Table

    constructor ()
      ensures table == map[]
    {
      table := map[];
    }

    method CreateAttempt(id: string, row: Row)
      modifies this
      ensures table == Created(old(table), id, row)
    {
      if id !in table && !Taken(table, row) {
        table := table[id := row];
      }
    }

    method InsertAttempt(e: Event)
      requires e.change.AttemptStarted?
      modifies this
      ensures table == Applied(old(table), e)
    {
      if !HasPrefix(e.change.attemptId, "att_") || !HasPrefix(e.change.startedNode, "n_") || e.change.startedNo < 1 {
        return;
      }
      CreateAttempt(e.change.attemptId, StartedRow(e));
    }

    method ResumeAttempt(e: Event)
      requires e.change.AttemptResumed?
      modifies this
      ensures table == if Resumable(old(table), e, e.change.attemptId, e.change.activityAttempt, e.change.stateVersion)
        then old(table)[e.change.attemptId := ResumedRow(old(table)[e.change.attemptId], e.change.activityAttempt,
            e.change.stateVersion)]
        else old(table)
    {
      var id, activity, state := e.change.attemptId, e.change.activityAttempt, e.change.stateVersion;
      if !Resumable(table, e, id, activity, state) {
        return;
      }
      var row := table[id].(status := Running);
      if activity > 0 {
        row := row.(resumedAttempt := activity, resumedState := state);
      }
      table := table[id := row];
    }

    method ProjectAttemptEvent(e: Event)
      requires e.change.AttemptParked? || e.change.AttemptResumed? || e.change.AttemptFinished?
      modifies this
      ensures table == Applied(old(table), e)
    {
      var id := e.change.attemptId;
      if !HasPrefix(id, "att_") {
        return;
      }
      match e.change
      case AttemptParked(_, reason) =>
        var status := ParkStatus(reason);
        if status.Some? && Movable(table, e, id) {
          table := table[id := ParkedRow(table[id], e, status.value)];
        }
      case AttemptResumed(_, _, _) =>
        ResumeAttempt(e);
      case AttemptFinished(_, node, no, profile, outcome, _, _) =>
        var status := Outcome(outcome);
        if status.None? {
          return;
        }
        if Movable(table, e, id) {
          table := table[id := FinishedRow(table[id], e, status.value)];
          return;
        }
        if !HasPrefix(node, "n_") || no < 1 || profile == "" {
          return;
        }
        CreateAttempt(id, LateRow(e, status.value));
    }
  }

  // ---- runs ----

  /** Events as they are projected, and attempts the maintenance closes because their workflow is gone. */
  datatype Op = Project(e: Event) | Close(id: string, lost: bool, version: int, at: int, failure: string)

  function Done(table: Table, op: Op): Table {
    match op
    case Project(e) => Applied(table, e)
    case Close(id, lost, version, at, failure) =>
      if id in table && table[id].status in {Starting, Running}
      then table[id := table[id].(status := if lost then Lost
          else Aborted, version := version, finishedAt := Some(at), failure := Some(failure))]
      else table
  }

  function Run(table: Table, ops: seq<Op>): Table {
    if ops == [] then table else Done(Run(table, ops[..|ops| - 1]), ops[|ops| - 1])
  }

  /** Projecting `op` parks, or resumes, the attempt. */
  predicate Parks(table: Table, op: Op, id: string) {
    && op.Project? && op.e.change.AttemptParked? && op.e.change.attemptId == id
    && HasPrefix(id, "att_") && ParkStatus(op.e.change.parkReason).Some? && Movable(table, op.e, id)
  }

  predicate Resumes(table: Table, op: Op, id: string) {
    && op.Project? && op.e.change.AttemptResumed? && op.e.change.attemptId == id
    && HasPrefix(id, "att_") && Resumable(table, op.e, id, op.e.change.activityAttempt, op.e.change.stateVersion)
  }

  /** A parked row has a clear resumed key and the time of its park; no projected event leaves a row starting. */
  predicate Sound(table: Table) {
    forall id | id in table ::
      && table[id].status != Starting
      && (Parked(table[id].status) ==>
            table[id].resumedAttempt == 0 && table[id].resumedState == 0 && table[id].changedAt.Some?)
  }

  lemma DoneKeepsSound(table: Table, op: Op)
    requires Sound(table)
    ensures Sound(Done(table, op))
  {
  }

  lemma {:induction false} RunIsSound(ops: seq<Op>)
    ensures Sound(Run(map[], ops))
  {
    if ops != [] {
      RunIsSound(ops[..|ops| - 1]);
      DoneKeepsSound(Run(map[], ops[..|ops| - 1]), ops[|ops| - 1]);
    }
  }

  lemma TerminalStep(table: Table, op: Op, id: string)
    requires id in table && Terminal(table[id].status)
    ensures id in Done(table, op) && Done(table, op)[id] == table[id]
  {
  }

  /** A terminal attempt never changes again, whatever is projected or closed after it. */
  lemma {:induction false} TerminalIsFinal(table: Table, ops: seq<Op>, id: string)
    requires id in table && Terminal(table[id].status)
    ensures id in Run(table, ops) && Run(table, ops)[id] == table[id]
  {
    if ops != [] {
      TerminalIsFinal(table, ops[..|ops| - 1], id);
      TerminalStep(Run(table, ops[..|ops| - 1]), ops[|ops| - 1], id);
    }
  }

  /** How a row came to be parked: by the last park applied to it, with no resume applied since. */
  ghost predicate ParkedBy(ops: seq<Op>, i: nat, id: string) {
    && i < |ops| && Parks(Run(map[], ops[..i]), ops[i], id)
    && forall j | i < j < |ops| :: !Resumes(Run(map[], ops[..j]), ops[j], id)
  }

  lemma ParkedStep(table: Table, op: Op, id: string)
    requires id in Done(table, op) && Parked(Done(table, op)[id].status)
    ensures if Parks(table, op, id) then Done(table, op)[id].changedAt == Some(op.e.occurred)
            else && id in table && Parked(table[id].status) && !Resumes(table, op, id)
                 && table[id].changedAt == Done(table, op)[id].changedAt
  {
  }

  lemma ParkedByStays(ops: seq<Op>, op: Op, i: nat, id: string)
    requires ParkedBy(ops, i, id) && !Resumes(Run(map[], ops), op, id)
    ensures ParkedBy(ops + [op], i, id) && (ops + [op])[i] == ops[i]
  {
    var more := ops + [op];
    assert forall j | 0 <= j < |ops| :: more[..j] == ops[..j];
    assert more[..|ops|] == ops;
  }

  lemma {:induction false} ParkedRowsWereParked(ops: seq<Op>, id: string)
    requires id in Run(map[], ops) && Parked(Run(map[], ops)[id].status)
    ensures exists i: nat :: ParkedBy(ops, i, id) && Run(map[], ops)[id].changedAt == Some(ops[i].e.occurred)
  {
    if ops != [] {
      var front, last := ops[..|ops| - 1], ops[|ops| - 1];
      assert ops == front + [last];
      ParkedStep(Run(map[], front), last, id);
      if Parks(Run(map[], front), last, id) {
        assert ParkedBy(ops, |front|, id);
      } else {
        ParkedRowsWereParked(front, id);
        var i: nat :| ParkedBy(front, i, id) && Run(map[], front)[id].changedAt == Some(front[i].e.occurred);
        ParkedByStays(front, last, i, id);
      }
    }
  }

  /**
   * Every resume that is applied answers a park of the same attempt that was applied before it, is not older than that
   * park, and is the only resume since, so no two resumes answer one park.
   */
  lemma ResumesAnswerParks(ops: seq<Op>, j: nat, id: string)
    requires j < |ops| && Resumes(Run(map[], ops[..j]), ops[j], id)
    ensures exists i | 0 <= i < j ::
              && Parks(Run(map[], ops[..i]), ops[i], id) && ops[i].e.occurred <= ops[j].e.occurred
              && forall k | i < k < j :: !Resumes(Run(map[], ops[..k]), ops[k], id)
  {
    var before := ops[..j];
    RunIsSound(before);
    ParkedRowsWereParked(before, id);
    var i: nat :| ParkedBy(before, i, id) && Run(map[], before)[id].changedAt == Some(before[i].e.occurred);
    ParkedInPrefix(ops, j, i, id);
  }

  lemma ParkedInPrefix(ops: seq<Op>, j: nat, i: nat, id: string)
    requires j <= |ops| && ParkedBy(ops[..j], i, id)
    ensures i < j && ops[..j][i] == ops[i] && Parks(Run(map[], ops[..i]), ops[i], id)
    ensures forall k | i < k < j :: !Resumes(Run(map[], ops[..k]), ops[k], id)
  {
    var before := ops[..j];
    assert before[..i] == ops[..i];
    forall k | i < k < j ensures !Resumes(Run(map[], ops[..k]), ops[k], id) {
      assert before[..k] == ops[..k] && before[k] == ops[k];
    }
  }

  /**
   * In every reachable state the comparison of resumed keys decides nothing: a resume is applied exactly when its
   * attempt is parked and the event is not older than the park (and its state version is not negative).
   */
  lemma ResumedKeyDecidesNothing(ops: seq<Op>, e: Event, id: string, activity: int, state: int)
    ensures var table := Run(map[], ops);
      Resumable(table, e, id, activity, state) <==>
        && id in table && table[id].tenant == e.tenant && table[id].task == e.task && Parked(table[id].status)
        && table[id].changedAt.Some? && table[id].changedAt.value <= e.occurred && (activity > 0 ==> state >= 0)
  {
    RunIsSound(ops);
  }

  /** The order of events matters: a resume that arrives before its park is lost, and the attempt stays parked. */
  lemma EarlyResumeIsLost(table: Table, park: Event, resume: Event, id: string)
    requires id in table && table[id].status == Running && Parks(table, Project(park), id)
    requires resume.change.AttemptResumed? && resume.change.attemptId == id
    requires park.occurred <= resume.occurred && resume.tenant == park.tenant && resume.task == park.task
    requires resume.change.activityAttempt > 0 && resume.change.stateVersion >= 0
    ensures var ordered, reversed := Run(table, [Project(park), Project(resume)]),
        Run(table, [Project(resume), Project(park)]);
            id in ordered && ordered[id].status == Running && id in reversed && Parked(reversed[id].status)
  {
    assert [Project(park), Project(resume)][..1] == [Project(park)] && [Project(park)][..0] == [];
    assert [Project(resume), Project(park)][..1] == [Project(resume)] && [Project(resume)][..0] == [];
    assert Run(table, [Project(park)]) == Applied(table, park);
    assert Run(table, [Project(resume)]) == table;
  }

  // ---- what each row says, and which event said it ----

  /** The row of an attempt before a step; a missing one is None. */
  function RowOf(table: Table, id: string): Option<Row> {
    if id in table then Some(table[id]) else None
  }

  /** The status that an outcome, or the reason of a park, stands for. */
  predicate StatusSays(status: Status, outcome: string) {
    match status
    case Accepted => outcome == "completed"
    case Rejected => outcome == "failed"
    case Aborted => outcome == "cancelled"
    case ParkedForApproval => outcome == "approval"
    case ParkedForInput => outcome == "input"
    case _ => false
  }

  /**
   * The event may still move the row: it is the tenant's and the task's, not terminal, and not newer than the event.
   */
  predicate Open(row: Row, e: Event) {
    && row.tenant == e.tenant && row.task == e.task && row.status !in {Accepted, Rejected, Aborted, Lost}
    && (e.version <= 0 || row.version < e.version)
  }

  /** No other attempt has the node's number, and the event may name one. */
  predicate Free(table: Table, task: string, node: string, no: int) {
    && "n_" <= node && no >= 1
    && forall id | id in table :: !(table[id].task == task && table[id].node == node && table[id].no == no)
  }

  /** What the finish says: the outcome's status, its time and version, and the failure and usage it has. */
  predicate SaysFinish(row: Row, e: Event)
    requires e.change.AttemptFinished?
  {
    && StatusSays(row.status, e.change.outcome) && row.status in {Accepted, Rejected, Aborted}
    && row.tenant == e.tenant && row.task == e.task && row.version == e.version
    && row.finishedAt == Some(e.occurred) && row.changedAt == Some(e.occurred)
    && (e.change.failure.Some? ==> row.failure == e.change.failure)
    && (e.change.usage.Some? ==> row.usage == e.change.usage)
  }

  /** The step that wrote `row` over `before`, told from the step alone. */
  predicate Wrote(op: Op, id: string, before: Option<Row>, row: Row) {
    match op
    case Close(closed, lost, version, at, failure) =>
      && closed == id && before.Some? && before.value.status in {Starting, Running}
      && row.status == (if lost then Lost else Aborted)
      && row.version == version && row.finishedAt == Some(at) && row.failure == Some(failure)
      && row == before.value.(status := row.status, version := version, finishedAt := Some(at),
          failure := Some(failure))
    case Project(e) =>
      match e.change
      case AttemptStarted(attempt, node, no, profile) =>
        && attempt == id && before.None?
        && row == Row(e.tenant, e.task, node, no, Running, profile, e.version, e.occurred, None, Some(e.occurred), 0, 0,
            None, Some("{}"))
      case AttemptParked(attempt, reason) =>
        && attempt == id && before.Some? && Open(before.value, e)
        && StatusSays(row.status, reason) && row.status in {ParkedForApproval, ParkedForInput}
        && row == before.value.(status := row.status, version := e.version, changedAt := Some(e.occurred),
            resumedAttempt := 0, resumedState := 0)
      case AttemptResumed(attempt, activity, state) =>
        && attempt == id && before.Some? && before.value.tenant == e.tenant && before.value.task == e.task
        && before.value.status in {Starting, ParkedForApproval, ParkedForInput} && row.status == Running
        && row == before.value.(status := Running, resumedAttempt := row.resumedAttempt,
            resumedState := row.resumedState)
        && (if activity > 0 then row.resumedAttempt == activity && row.resumedState == state
            else row.resumedAttempt == before.value.resumedAttempt && row.resumedState == before.value.resumedState)
      case AttemptFinished(attempt, node, no, profile, outcome, failure, usage) =>
        && attempt == id && SaysFinish(row, e)
        && (before.Some? ==>
              && Open(before.value, e)
              && (failure.None? ==> row.failure == before.value.failure)
              && (usage.None? ==> row.usage == before.value.usage)
              && row == before.value.(status := row.status, version := row.version, finishedAt := row.finishedAt,
                  changedAt := row.changedAt, failure := row.failure, usage := row.usage))
        && (before.None? ==>
              && row == Row(e.tenant, e.task, node, no, row.status, profile, e.version, e.occurred, Some(e.occurred),
                  Some(e.occurred), 0, 0, failure, row.usage)
              && (usage.None? ==> row.usage == Some("{}")))
      case _ => false
  }

  /** No row goes away, and a row that a step changes was written by it. */
  lemma ChangedWasWritten(table: Table, op: Op, id: string)
    ensures id in table ==> id in Done(table, op)
    ensures id in Done(table, op) && RowOf(table, id) != Some(Done(table, op)[id]) ==>
              Wrote(op, id, RowOf(table, id), Done(table, op)[id])
  {
  }

  /** The `i`th step wrote the row that is there at the end, and nothing has changed it since. */
  predicate LastWrote(ops: seq<Op>, i: nat, id: string) {
    && i < |ops| && id in Run(map[], ops)
    && Wrote(ops[i], id, RowOf(Run(map[], ops[..i]), id), Run(map[], ops)[id])
    && forall j | i < j <= |ops| :: RowOf(Run(map[], ops[..j]), id) == RowOf(Run(map[], ops), id)
  }

  /**
   * Every row of every run was written by one step as that step says: an accepted row by a finish with the outcome
   * "completed", a rejected one by "failed", an aborted one by "cancelled" or a close, a lost one by a close, a parked
   * one by a park with its reason, a running one by a start or a resume, each with the values of its event.
   */
  lemma {:induction false} EveryRowWasWritten(ops: seq<Op>, id: string)
    requires id in Run(map[], ops)
    ensures exists i: nat :: LastWrote(ops, i, id)
  {
    var front, last := ops[..|ops| - 1], ops[|ops| - 1];
    assert ops == front + [last];
    if RowOf(Run(map[], front), id) == RowOf(Run(map[], ops), id) {
      EveryRowWasWritten(front, id);
      var i: nat :| LastWrote(front, i, id);
      LastWroteStays(front, last, i, id);
    } else {
      WrittenNow(front, last, id);
    }
  }

  lemma LastWroteStays(front: seq<Op>, last: Op, i: nat, id: string)
    requires LastWrote(front, i, id) && RowOf(Run(map[], front), id) == RowOf(Run(map[], front + [last]), id)
    ensures LastWrote(front + [last], i, id)
  {
    var ops := front + [last];
    assert ops[..i] == front[..i] && ops[..|ops|] == ops;
    forall j | i < j <= |ops| ensures RowOf(Run(map[], ops[..j]), id) == RowOf(Run(map[], ops), id) {
      if j < |ops| {
        assert ops[..j] == front[..j];
      }
    }
  }

  lemma WrittenNow(front: seq<Op>, last: Op, id: string)
    requires id in Run(map[], front + [last]) && RowOf(Run(map[], front), id) != RowOf(Run(map[], front + [last]), id)
    ensures LastWrote(front + [last], |front|, id)
  {
    var ops := front + [last];
    assert ops[..|front|] == front && ops[..|ops|] == ops;
    ChangedWasWritten(Run(map[], front), last, id);
  }

  /** A finish moves a row that is there if and only if the row is open and the outcome is one of the three. */
  lemma FinishMoves(table: Table, e: Event, id: string)
    requires e.change.AttemptFinished? && e.change.attemptId == id && id in table && "att_" <= id
    ensures Applied(table, e)[id] != table[id] ==>
              Open(table[id], e) && e.change.outcome in {"completed", "failed", "cancelled"}
    ensures Open(table[id], e) && e.change.outcome in {"completed", "failed", "cancelled"} ==>
              SaysFinish(Applied(table, e)[id], e)
  {
  }

  /** A finish of a missing attempt creates its row if and only if it names a free number of a node and a profile. */
  lemma FinishCreates(table: Table, e: Event, id: string)
    requires e.change.AttemptFinished? && e.change.attemptId == id && id !in table
    ensures id in Applied(table, e) <==>
              && "att_" <= id && e.change.outcome in {"completed", "failed", "cancelled"} && e.change.profile != ""
              && Free(table, e.task, e.change.node, e.change.no)
  {
  }

  /** A start creates a row if and only if the attempt is new and its number of the node is free. */
  lemma StartCreates(table: Table, e: Event, id: string)
    requires e.change.AttemptStarted? && e.change.attemptId == id && id !in table
    ensures id in Applied(table, e) <==>
              "att_" <= id && Free(table, e.task, e.change.startedNode, e.change.startedNo)
  {
  }

  /** A park parks a row if and only if the row is open and the reason is one of the two. */
  lemma ParkMoves(table: Table, e: Event, id: string)
    requires e.change.AttemptParked? && e.change.attemptId == id && id in table && "att_" <= id
    ensures Wrote(Project(e), id, Some(table[id]), Applied(table, e)[id]) <==>
              Open(table[id], e) && e.change.parkReason in {"approval", "input"}
  {
  }

  /** In every run a resume makes a row running if and only if the row is parked, and no later than the event. */
  lemma ResumeMoves(ops: seq<Op>, e: Event, id: string)
    requires e.change.AttemptResumed? && e.change.attemptId == id && id in Run(map[], ops) && "att_" <= id
    ensures var row := Run(map[], ops)[id];
      Wrote(Project(e), id, Some(row), Applied(Run(map[], ops), e)[id]) <==>
        && row.tenant == e.tenant && row.task == e.task && row.status in {ParkedForApproval, ParkedForInput}
        && row.changedAt.Some? && row.changedAt.value <= e.occurred
            && (e.change.activityAttempt > 0 ==> e.change.stateVersion >= 0)
  {
    RunIsSound(ops);
  }

  /** No two attempts of a task share a number of a node, in any run. */
  lemma {:induction false} NumbersAreUnique(ops: seq<Op>, a: string, b: string)
    requires a in Run(map[], ops) && b in Run(map[], ops) && a != b
    ensures var t := Run(map[], ops); !(t[a].task == t[b].task && t[a].node == t[b].node && t[a].no == t[b].no)
  {
    var front, last := ops[..|ops| - 1], ops[|ops| - 1];
    var before := Run(map[], front);
    if a in before && b in before {
      NumbersAreUnique(front, a, b);
    }
    NumberStays(before, last, a);
    NumberStays(before, last, b);
  }

  lemma NumberStays(table: Table, op: Op, id: string)
    requires id in Done(table, op)
    ensures var row := Done(table, op)[id];
      if id in table then row.task == table[id].task && row.node == table[id].node && row.no == table[id].no
      else Free(table, row.task, row.node, row.no) && Done(table, op).Keys == table.Keys + {id}
  {
  }
}
