/**
 * Running API commands on many replicas at once (`UpdateChecked` in internal/task/commands.go over the SQL ledger). A
 * run is any interleaving of the single steps of any number of requests: the statements of their claims, the check, the
 * send to the workflow, the completion and the release, each of which may fail, and crashes at any point.
 */
module CommandRuns {
  import opened Common
  import opened CommandLedger

  const LEASE := 30

  // ---- requests ----

  datatype Answer =
    | Returned(raw: Body)                // the workflow's answer
    | Replayed(result: Option<Body>)     // the stored answer of an earlier run
    | Refused(claim: Claim)              // the ledger refused the claim
    | Failed                             // the check, the workflow or the completion failed

  datatype Phase =
    | Inserting | Reading | TakingOver   // the three statements of a claim
    | Holding                            // the claim is granted: check, then send
    | Accepted(raw: Body)                // the workflow answered: complete
    | Releasing                          // something failed: give the claim up
    | Finished(answer: Answer)
    | Dead

  /** One request; `begun` is now() of its claim's transaction. */
  datatype Client = Client(key: string, tenant: string, hash: string, owner: string, begun: int, phase: Phase)

  /** What happened to a ledger row, in order. */
  datatype Mark =
    | Grant(key: string, owner: string, hash: string, begun: int)
    | GiveUp(key: string, owner: string)
    | Success(key: string, owner: string, result: Body)

  /** `applied` is the hash of the request the workflow applied under each Update ID, `executed` the order it did so. */
  datatype World = World(table: Table, clients: map<nat, Client>, now: int, history: seq<Mark>,
                         applied: map<string, string>, executed: seq<string>)

  const START := World(map[], map[], 0, [], map[], [])

  datatype Action =
    | Tick(elapsed: nat)
    | Begin(c: nat, key: string, tenant: string, hash: string, owner: string)
    | DoInsert(c: nat)
    | DoRead(c: nat)
    | DoTakeOver(c: nat)
    | CheckFails(c: nat)
    | Send(c: nat, reached: bool, answered: Option<Body>)
    | DoComplete(c: nat, stored: bool, confirmed: bool)
    | DoRelease(c: nat, reached: bool)
    | Crash(c: nat)

  function At(w: World, c: nat, phase: Phase): World
    requires c in w.clients
  {
    w.(clients := w.clients[c := w.clients[c].(phase := phase)])
  }

  /** A request whose next step is the given one; any other action is no step of the system and changes nothing. */
  predicate Ready(w: World, a: Action) {
    match a
    case Tick(_) => true
    case Begin(c, _, _, _, _) => c !in w.clients
    case DoInsert(c) => c in w.clients && w.clients[c].phase == Inserting
    case DoRead(c) => c in w.clients && w.clients[c].phase == Reading
    case DoTakeOver(c) => c in w.clients && w.clients[c].phase == TakingOver
    case CheckFails(c) => c in w.clients && w.clients[c].phase == Holding
    case Send(c, _, _) => c in w.clients && w.clients[c].phase == Holding
    case DoComplete(c, _, _) => c in w.clients && w.clients[c].phase.Accepted?
    case DoRelease(c, _) => c in w.clients && w.clients[c].phase == Releasing
    case Crash(c) => c in w.clients && !w.clients[c].phase.Finished?
  }

  function InsertStep(w: World, c: nat): World
    requires c in w.clients
  {
    var me := w.clients[c];
    var table := Inserted(w.table, me.key, me.tenant, me.hash, me.owner, me.begun);
    if me.key in w.table then At(w, c, Reading)
    else At(w.(table := table, history := w.history + [Grant(me.key, me.owner, me.hash, me.begun)]), c, Holding)
  }

  function ReadStep(w: World, c: nat): World
    requires c in w.clients
  {
    var me := w.clients[c];
    match Decide(w.table, me.key, me.tenant, me.hash)
    case None => At(w, c, TakingOver)
    case Some(Stored(result)) => At(w, c, Finished(Replayed(result)))
    case Some(claim) => At(w, c, Finished(Refused(claim)))
  }

  function TakeOverStep(w: World, c: nat): World
    requires c in w.clients
  {
    var me := w.clients[c];
    if Takeable(w.table, me.key, me.tenant, me.begun, LEASE)
    then At(w.(table := TakenOver(w.table, me.key, me.tenant, me.owner, me.begun, LEASE),
               history := w.history + [Grant(me.key, me.owner, me.hash, me.begun)]), c, Holding)
    else At(w, c, Finished(Refused(InProgress)))
  }

  /** The workflow applies an update whose id it has not seen; the id is the command's. */
  function SendStep(w: World, c: nat, reached: bool, answered: Option<Body>): World
    requires c in w.clients
  {
    var me := w.clients[c];
    var sent := if reached && me.key !in w.applied
      then w.(applied := w.applied[me.key := me.hash], executed := w.executed + [me.key]) else w;
    At(sent, c, if reached && answered.Some? then Accepted(answered.value) else Releasing)
  }

  function CompleteStep(w: World, c: nat, stored: bool, confirmed: bool): World
    requires c in w.clients && w.clients[c].phase.Accepted?
  {
    var me := w.clients[c];
    var raw := me.phase.raw;
    var done := if stored && HeldBy(w.table, me.key, me.tenant, me.owner)
      then w.(table := Completed(w.table, me.key, me.tenant, me.owner, raw, w.now),
              history := w.history + [Success(me.key, me.owner, raw)])
      else w;
    At(done, c, if stored && confirmed then Finished(Returned(raw)) else Releasing)
  }

  function ReleaseStep(w: World, c: nat, reached: bool): World
    requires c in w.clients
  {
    var me := w.clients[c];
    var freed := if reached && HeldBy(w.table, me.key, me.tenant, me.owner)
      then w.(table := Released(w.table, me.key, me.tenant, me.owner),
          history := w.history + [GiveUp(me.key, me.owner)])
      else w;
    At(freed, c, Finished(Failed))
  }

  function Step(w: World, a: Action): World {
    if !Ready(w, a) then w else
      match a
      case Tick(elapsed) => w.(now := w.now + elapsed)
      case Begin(c, key, tenant, hash, owner) =>
        w.(clients := w.clients[c := Client(key, tenant, hash, owner, w.now, Inserting)])
      case DoInsert(c) => InsertStep(w, c)
      case DoRead(c) => ReadStep(w, c)
      case DoTakeOver(c) => TakeOverStep(w, c)
      case CheckFails(c) => At(w, c, Releasing)
      case Send(c, reached, answered) => SendStep(w, c, reached, answered)
      case DoComplete(c, stored, confirmed) => CompleteStep(w, c, stored, confirmed)
      case DoRelease(c, reached) => ReleaseStep(w, c, reached)
      case Crash(c) => At(w, c, Dead)
  }

  function Run(w: World, actions: seq<Action>): World {
    if actions == [] then w else Step(Run(w, actions[..|actions| - 1]), actions[|actions| - 1])
  }

  // ---- mutual exclusion, as a property of the history ----

  function Last(history: seq<Mark>, key: string): Option<Mark> {
    if history == [] then None
    else if history[|history| - 1].key == key then Some(history[|history| - 1])
    else Last(history[..|history| - 1], key)
  }

  /** What may happen to a command after what happened to it last. */
  predicate May(last: Option<Mark>, next: Mark) {
    match next
    case Grant(_, _, _, begun) =>
      last.None? || last.value.GiveUp? || (last.value.Grant? && last.value.begun + 30 < begun)
    case GiveUp(_, owner) => last.Some? && last.value.Grant? && last.value.owner == owner
    case Success(_, owner, _) => last.Some? && last.value.Grant? && last.value.owner == owner
  }

  /** Every mark of a history may follow the mark of its command before it. */
  predicate Exclusive(history: seq<Mark>) {
    forall i | 0 <= i < |history| :: May(Last(history[..i], history[i].key), history[i])
  }

  // ---- what every step keeps ----

  /** The row and the last mark of its command tell the same story. */
  predicate RowTells(row: Row, last: Option<Mark>) {
    && last.Some?
    && match row.status
       case Started =>
         (match row.owner
          case Some(owner) => last.value.Grant? && last.value.owner == owner && last.value.begun == row.lastSeen
              && last.value.hash == row.hash
          case None => last.value.GiveUp?)
       case Succeeded => last.value.Success? && row.result == Some(last.value.result)
       case FailedPermanently => false
  }

  /** What a request may rely on, whatever the other requests do. */
  predicate ClientFits(w: World, me: Client) {
    match me.phase
    case Inserting => true
    case Reading => me.key in w.table
    case TakingOver => me.key in w.table && w.table[me.key].hash == me.hash && w.table[me.key].tenant == me.tenant
    case Holding => me.key in w.table && w.table[me.key].hash == me.hash
    case Accepted(_) => me.key in w.table && w.table[me.key].hash == me.hash && me.key in w.applied
    case Releasing => me.key in w.table && w.table[me.key].hash == me.hash
    case Finished(answer) =>
      me.key in w.table &&
      (match answer
       case Returned(_) => w.table[me.key].hash == me.hash && me.key in w.applied
       case Replayed(result) => w.table[me.key].hash == me.hash && w.table[me.key].status == Succeeded
           && w.table[me.key].result == result
       case Refused(Conflict) => w.table[me.key].hash != me.hash
       case Refused(InProgress) => w.table[me.key].hash == me.hash && w.table[me.key].tenant == me.tenant
       case Refused(NoSuchRow) => w.table[me.key].tenant != me.tenant
       case Refused(_) => false
       case Failed => w.table[me.key].hash == me.hash)
    case Dead => true
  }

  ghost predicate Consistent(w: World) {
    && Exclusive(w.history)
    && (forall key :: key in w.table <==> Last(w.history, key).Some?)
    && (forall key | key in w.table :: RowTells(w.table[key], Last(w.history, key)))
    && (forall i | 0 <= i < |w.history| && w.history[i].Grant? ::
          w.history[i].key in w.table && w.history[i].hash == w.table[w.history[i].key].hash)
    && (forall c | c in w.clients :: ClientFits(w, w.clients[c]))
    && (forall key | key in w.applied :: key in w.table && w.applied[key] == w.table[key].hash)
    && (forall i, j | 0 <= i < j < |w.executed| :: w.executed[i] != w.executed[j])
    && (forall key :: key in w.executed <==> key in w.applied)
  }

  /** A later table: no row goes away, no request hash or tenant changes, and a stored success is final. */
  predicate Grown(before: Table, after: Table) {
    forall key | key in before ::
      && key in after && after[key].hash == before[key].hash && after[key].tenant == before[key].tenant
      && (before[key].status == Succeeded ==> after[key] == before[key])
  }

  lemma ClientStays(w: World, w': World, me: Client)
    requires ClientFits(w, me) && Grown(w.table, w'.table) && w.applied.Keys <= w'.applied.Keys
    ensures ClientFits(w', me)
  {
  }

  lemma Marked(history: seq<Mark>, m: Mark)
    requires Exclusive(history) && May(Last(history, m.key), m)
    ensures Exclusive(history + [m])
    ensures forall key :: Last(history + [m], key) == if key == m.key then Some(m) else Last(history, key)
  {
    var more := history + [m];
    assert more[..|history|] == history;
    forall i | 0 <= i < |more| ensures May(Last(more[..i], more[i].key), more[i]) {
      assert more[..i] == history[..i];
      assert i == |history| ==> more[..i] == history;
    }
  }

  /** A step that changes one row, writes its mark and moves one request keeps the invariant. */
  lemma RowStepKeeps(w: World, c: nat, row: Row, m: Mark, phase: Phase)
    requires Consistent(w) && c in w.clients
    requires m.key == w.clients[c].key && May(Last(w.history, m.key), m)
    requires Grown(w.table, w.table[m.key := row]) && RowTells(row, Some(m))
    requires m.Grant? ==> m.hash == row.hash
    requires ClientFits(w.(table := w.table[m.key := row]), w.clients[c].(phase := phase))
    ensures var w' := At(w.(table := w.table[m.key := row], history := w.history + [m]), c, phase);
            Consistent(w') && Grown(w.table, w'.table)
  {
    var w' := At(w.(table := w.table[m.key := row], history := w.history + [m]), c, phase);
    Marked(w.history, m);
    forall d | d in w'.clients ensures ClientFits(w', w'.clients[d]) {
      if d != c {
        ClientStays(w, w', w.clients[d]);
      }
    }
  }

  /** A step that only moves one request keeps the invariant. */
  lemma MoveKeeps(w: World, c: nat, phase: Phase)
    requires Consistent(w) && c in w.clients && ClientFits(w, w.clients[c].(phase := phase))
    ensures Consistent(At(w, c, phase))
  {
    var w' := At(w, c, phase);
    forall d | d in w'.clients ensures ClientFits(w', w'.clients[d]) {
      if d != c {
        ClientStays(w, w', w.clients[d]);
      }
    }
  }

  lemma InsertKeeps(w: World, c: nat)
    requires Consistent(w) && Ready(w, DoInsert(c))
    ensures Consistent(InsertStep(w, c)) && Grown(w.table, InsertStep(w, c).table)
  {
    var me := w.clients[c];
    if me.key in w.table {
      MoveKeeps(w, c, Reading);
    } else {
      RowStepKeeps(w, c, Row(me.tenant, me.hash, Started, Some(me.owner), me.begun, Option.None),
                   Grant(me.key, me.owner, me.hash, me.begun), Holding);
    }
  }

  lemma TakeOverKeeps(w: World, c: nat)
    requires Consistent(w) && Ready(w, DoTakeOver(c))
    ensures Consistent(TakeOverStep(w, c)) && Grown(w.table, TakeOverStep(w, c).table)
  {
    var me := w.clients[c];
    if Takeable(w.table, me.key, me.tenant, me.begun, LEASE) {
      assert ClientFits(w, me);
      RowStepKeeps(w, c, w.table[me.key].(owner := Some(me.owner), lastSeen := me.begun),
                   Grant(me.key, me.owner, me.hash, me.begun), Holding);
    } else {
      MoveKeeps(w, c, Finished(Refused(InProgress)));
    }
  }

  lemma SendKeeps(w: World, c: nat, reached: bool, answered: Option<Body>)
    requires Consistent(w) && Ready(w, Send(c, reached, answered))
    ensures Consistent(SendStep(w, c, reached, answered)) && SendStep(w, c, reached, answered).table == w.table
  {
    var me := w.clients[c];
    var w' := SendStep(w, c, reached, answered);
    assert ClientFits(w, me);
    forall d | d in w'.clients ensures ClientFits(w', w'.clients[d]) {
      if d != c {
        ClientStays(w, w', w.clients[d]);
      }
    }
  }

  lemma CompleteKeeps(w: World, c: nat, stored: bool, confirmed: bool)
    requires Consistent(w) && Ready(w, DoComplete(c, stored, confirmed))
    ensures Consistent(CompleteStep(w, c, stored, confirmed))
        && Grown(w.table, CompleteStep(w, c, stored, confirmed).table)
  {
    var me := w.clients[c];
    var phase := if stored && confirmed then Finished(Returned(me.phase.raw)) else Releasing;
    assert ClientFits(w, me);
    if stored && HeldBy(w.table, me.key, me.tenant, me.owner) {
      RowStepKeeps(w, c, w.table[me.key].(status := Succeeded, result := Some(me.phase.raw), lastSeen := w.now),
                   Success(me.key, me.owner, me.phase.raw), phase);
    } else {
      MoveKeeps(w, c, phase);
    }
  }

  lemma ReleaseKeeps(w: World, c: nat, reached: bool)
    requires Consistent(w) && Ready(w, DoRelease(c, reached))
    ensures Consistent(ReleaseStep(w, c, reached)) && Grown(w.table, ReleaseStep(w, c, reached).table)
  {
    var me := w.clients[c];
    assert ClientFits(w, me);
    if reached && HeldBy(w.table, me.key, me.tenant, me.owner) {
      RowStepKeeps(w, c, w.table[me.key].(owner := Option.None), GiveUp(me.key, me.owner), Finished(Failed));
    } else {
      MoveKeeps(w, c, Finished(Failed));
    }
  }

  lemma ReadKeeps(w: World, c: nat)
    requires Consistent(w) && Ready(w, DoRead(c))
    ensures Consistent(ReadStep(w, c)) && ReadStep(w, c).table == w.table
  {
    var me := w.clients[c];
    assert ClientFits(w, me);
    var phase := ReadStep(w, c).clients[c].phase;
    assert ReadStep(w, c) == At(w, c, phase);
    MoveKeeps(w, c, phase);
  }

  /** Time passing, or a request arriving: nothing that is there changes. */
  lemma QuietKeeps(w: World, w': World)
    requires Consistent(w) && w' == w.(now := w'.now, clients := w'.clients)
    requires forall c | c in w'.clients :: if c in w.clients then w'.clients[c] == w.clients[c]
        else w'.clients[c].phase == Inserting
    ensures Consistent(w')
  {
    forall c | c in w'.clients ensures ClientFits(w', w'.clients[c]) {
      if c in w.clients {
        ClientStays(w, w', w.clients[c]);
      }
    }
  }

  lemma StepKeeps(w: World, a: Action)
    requires Consistent(w)
    ensures Consistent(Step(w, a)) && Grown(w.table, Step(w, a).table)
  {
    if Ready(w, a) {
      match a
      case Tick(_) => QuietKeeps(w, Step(w, a));
      case Begin(_, _, _, _, _) => QuietKeeps(w, Step(w, a));
      case DoInsert(c) => InsertKeeps(w, c);
      case DoRead(c) => ReadKeeps(w, c);
      case DoTakeOver(c) => TakeOverKeeps(w, c);
      case CheckFails(c) => MoveKeeps(w, c, Releasing);
      case Send(c, reached, answered) => SendKeeps(w, c, reached, answered);
      case DoComplete(c, stored, confirmed) => CompleteKeeps(w, c, stored, confirmed);
      case DoRelease(c, reached) => ReleaseKeeps(w, c, reached);
      case Crash(c) => MoveKeeps(w, c, Dead);
    }
  }

  lemma {:induction false} RunKeeps(w: World, actions: seq<Action>)
    requires Consistent(w)
    ensures Consistent(Run(w, actions)) && Grown(w.table, Run(w, actions).table)
  {
    if actions != [] {
      RunKeeps(w, actions[..|actions| - 1]);
      StepKeeps(Run(w, actions[..|actions| - 1]), actions[|actions| - 1]);
    }
  }

  // ---- the guarantees, over every run ----

  /**
   * Mutual exclusion: in the history of every run two claims of one command are separated by the holder's release or by
   * more than the lease since the holder was last seen, nothing follows a stored success, only the holder releases or
   * completes, and all claims that were granted for one command carried the same request.
   */
  lemma MutualExclusion(actions: seq<Action>)
    ensures Exclusive(Run(START, actions).history)
    ensures forall i, j | 0 <= i < j < |Run(START, actions).history| ::
              var h := Run(START, actions).history; h[i].key == h[j].key ==> !h[i].Success?
    ensures forall i, j | 0 <= i < j < |Run(START, actions).history| ::
              var h := Run(START, actions).history;
              h[i].key == h[j].key && h[i].Grant? && h[j].Grant? ==> h[i].hash == h[j].hash
  {
    RunKeeps(START, actions);
    var h := Run(START, actions).history;
    forall i, j | 0 <= i < j < |h| && h[i].key == h[j].key ensures !h[i].Success? {
      if h[i].Success? {
        SuccessStays(h, i, j);
      }
    }
  }

  lemma LastOfPrefix(history: seq<Mark>, n: nat, key: string)
    requires n < |history|
    ensures Last(history[..n + 1], key) == if history[n].key == key then Some(history[n]) else Last(history[..n], key)
  {
    assert history[..n + 1][..n] == history[..n];
  }

  lemma {:induction false} LastStays(history: seq<Mark>, i: nat, j: nat)
    requires i < j <= |history| && forall k | i < k < j :: history[k].key != history[i].key
    ensures Last(history[..j], history[i].key) == Some(history[i])
  {
    LastOfPrefix(history, j - 1, history[i].key);
    if j > i + 1 {
      LastStays(history, i, j - 1);
    }
  }

  lemma {:induction false} SuccessStays(history: seq<Mark>, i: nat, j: nat)
    requires Exclusive(history) && i < j < |history| && history[i].Success?
    ensures history[j].key != history[i].key
    decreases j
  {
    forall k | i < k < j ensures history[k].key != history[i].key {
      SuccessStays(history, i, k);
    }
    LastStays(history, i, j);
    NothingAfterSuccess(history, j, history[i]);
  }

  lemma NothingAfterSuccess(history: seq<Mark>, j: nat, m: Mark)
    requires Exclusive(history) && j < |history| && m.Success? && Last(history[..j], m.key) == Some(m)
    ensures history[j].key != m.key
  {
    assert May(Last(history[..j], history[j].key), history[j]);
  }

  /**
   * Whatever crashes, expires or is sent again: what the workflow applied for a command is the request in its ledger
   * row, every request that got an answer was applied as it was asked, and no command was applied twice.
   */
  lemma AppliedAtMostOnce(actions: seq<Action>)
    ensures var w := Run(START, actions);
      && (forall key | key in w.executed :: key in w.table && key in w.applied && w.applied[key] == w.table[key].hash)
      && (forall c | c in w.clients && w.clients[c].phase.Finished? && w.clients[c].phase.answer.Returned? ::
            w.clients[c].key in w.executed && w.applied[w.clients[c].key] == w.clients[c].hash)
      && (forall i, j | 0 <= i < j < |w.executed| :: w.executed[i] != w.executed[j])
  {
    RunKeeps(START, actions);
    var w := Run(START, actions);
    forall c | c in w.clients && w.clients[c].phase.Finished? && w.clients[c].phase.answer.Returned?
      ensures w.clients[c].key in w.executed && w.applied[w.clients[c].key] == w.clients[c].hash
    {
      assert ClientFits(w, w.clients[c]);
    }
  }

  // ---- whose answer it is ----

  /** The answers of the workflow in a run: who got which body. */
  function Replies(actions: seq<Action>): set<(nat, Body)> {
    if actions == [] then {} else
      var front, last := actions[..|actions| - 1], actions[|actions| - 1];
      Replies(front) +
      if last.Send? && last.reached && last.answered.Some? && Ready(Run(START, front), last)
      then {(last.c, last.answered.value)} else {}
  }

  /** The request sent its command, and the workflow answered with this body. */
  ghost predicate WasAnswered(actions: seq<Action>, c: nat, raw: Body) {
    exists i | 0 <= i < |actions| :: actions[i] == Send(c, true, Some(raw))
        && Ready(Run(START, actions[..i]), actions[i])
  }

  lemma {:induction false} RepliesWereSent(actions: seq<Action>, c: nat, raw: Body)
    requires (c, raw) in Replies(actions)
    ensures WasAnswered(actions, c, raw)
  {
    var front, last := actions[..|actions| - 1], actions[|actions| - 1];
    if (c, raw) in Replies(front) {
      RepliesWereSent(front, c, raw);
      var i :| 0 <= i < |front| && front[i] == Send(c, true, Some(raw)) && Ready(Run(START, front[..i]), front[i]);
      assert actions[i] == front[i] && actions[..i] == front[..i];
    } else {
      assert last == Send(c, true, Some(raw)) && Ready(Run(START, front), last);
    }
  }

  predicate ClientsAnswered(clients: map<nat, Client>, replies: set<(nat, Body)>) {
    forall c | c in clients ::
      var phase := clients[c].phase;
      && (phase.Accepted? ==> (c, phase.raw) in replies)
      && (phase.Finished? && phase.answer.Returned? ==> (c, phase.answer.raw) in replies)
  }

  predicate Stores(clients: map<nat, Client>, c: nat, key: string, result: Option<Body>, replies: set<(nat, Body)>) {
    c in clients && clients[c].key == key && result.Some? && (c, result.value) in replies
  }

  ghost predicate RowsAnswered(table: Table, clients: map<nat, Client>, replies: set<(nat, Body)>) {
    forall key | key in table && table[key].status == Succeeded ::
      exists c :: Stores(clients, c, key, table[key].result, replies)
  }

  lemma ClientsStayAnswered(w: World, a: Action, replies: set<(nat, Body)>, more: set<(nat, Body)>)
    requires ClientsAnswered(w.clients, replies) && replies <= more
    requires a.Send? && a.reached && a.answered.Some? && Ready(w, a) ==> (a.c, a.answered.value) in more
    ensures ClientsAnswered(Step(w, a).clients, more)
  {
    forall c | c in Step(w, a).clients && !ActsFor(a, c)
        ensures c in w.clients && Step(w, a).clients[c] == w.clients[c] {
      OtherStep(w, c, a);
    }
  }

  /** A row changes to a success only by the completion of an accepted request for it. */
  lemma SuccessIsStored(w: World, a: Action, key: string)
    requires key in Step(w, a).table && Step(w, a).table[key].status == Succeeded
    ensures || (key in w.table && w.table[key] == Step(w, a).table[key])
            || (a.DoComplete? && Ready(w, a) && w.clients[a.c].key == key
                && Step(w, a).table[key].result == Some(w.clients[a.c].phase.raw))
  {
    if Ready(w, a) {
      match a
      case DoComplete(c, stored, confirmed) => CompleteFacts(w, c, stored, confirmed);
      case _ =>
    }
  }

  lemma RowsStayAnswered(w: World, a: Action, replies: set<(nat, Body)>, more: set<(nat, Body)>)
    requires RowsAnswered(w.table, w.clients, replies) && ClientsAnswered(w.clients, replies) && replies <= more
    ensures RowsAnswered(Step(w, a).table, Step(w, a).clients, more)
  {
    var w' := Step(w, a);
    forall key | key in w'.table && w'.table[key].status == Succeeded
      ensures exists c :: Stores(w'.clients, c, key, w'.table[key].result, more)
    {
      SuccessIsStored(w, a, key);
      if key in w.table && w.table[key] == w'.table[key] {
        var c :| Stores(w.clients, c, key, w.table[key].result, replies);
        StepKeepsRequest(w, a, c);
        assert Stores(w'.clients, c, key, w'.table[key].result, more);
      } else {
        StepKeepsRequest(w, a, a.c);
        assert Stores(w'.clients, a.c, key, w'.table[key].result, more);
      }
    }
  }

  lemma {:induction false} AnswersComeFromReplies(actions: seq<Action>)
    ensures var w := Run(START, actions);
      ClientsAnswered(w.clients, Replies(actions)) && RowsAnswered(w.table, w.clients, Replies(actions))
  {
    if actions != [] {
      var front, last := actions[..|actions| - 1], actions[|actions| - 1];
      AnswersComeFromReplies(front);
      ClientsStayAnswered(Run(START, front), last, Replies(front), Replies(actions));
      RowsStayAnswered(Run(START, front), last, Replies(front), Replies(actions));
    }
  }

  /** Some request for the command was answered with this body. */
  ghost predicate AnsweredFor(actions: seq<Action>, key: string, body: Option<Body>) {
    exists c | c in Run(START, actions).clients ::
      Run(START, actions).clients[c].key == key && body.Some? && WasAnswered(actions, c, body.value)
  }

  /**
   * What a caller gets is what the workflow said. A request that returns a body sent its command, and the workflow
   * answered that body; a stored success, and so every replayed answer, is the body with which the workflow answered a
   * request for the same command.
   */
  lemma AnswersAreTheWorkflows(actions: seq<Action>)
    ensures var w := Run(START, actions);
      && (forall c | c in w.clients && w.clients[c].phase.Finished? && w.clients[c].phase.answer.Returned? ::
            WasAnswered(actions, c, w.clients[c].phase.answer.raw))
      && (forall key | key in w.table && w.table[key].status == Succeeded ::
            AnsweredFor(actions, key, w.table[key].result))
      && (forall c | c in w.clients && w.clients[c].phase.Finished? && w.clients[c].phase.answer.Replayed? ::
            AnsweredFor(actions, w.clients[c].key, w.clients[c].phase.answer.result))
  {
    AnswersComeFromReplies(actions);
    var w := Run(START, actions);
    forall c | c in w.clients && w.clients[c].phase.Finished? && w.clients[c].phase.answer.Returned?
      ensures WasAnswered(actions, c, w.clients[c].phase.answer.raw)
    {
      RepliesWereSent(actions, c, w.clients[c].phase.answer.raw);
    }
    forall key | key in w.table && w.table[key].status == Succeeded
      ensures AnsweredFor(actions, key, w.table[key].result)
    {
      var c :| Stores(w.clients, c, key, w.table[key].result, Replies(actions));
      RepliesWereSent(actions, c, w.table[key].result.value);
    }
    RunKeeps(START, actions);
    forall c | c in w.clients && w.clients[c].phase.Finished? && w.clients[c].phase.answer.Replayed?
      ensures AnsweredFor(actions, w.clients[c].key, w.clients[c].phase.answer.result)
    {
      assert ClientFits(w, w.clients[c]);
    }
  }

  /** A request that begins after the success was stored, at any later point of any run. */
  predicate Late(w: World, c: nat, key: string, row: Row) {
    c in w.clients && w.clients[c].key == key ==>
      match w.clients[c].phase
      case Inserting => true
      case Reading => true
      case Dead => true
      case Finished(answer) =>
        if w.clients[c].tenant != row.tenant then answer == Refused(NoSuchRow)
        else if w.clients[c].hash == row.hash then answer == Replayed(row.result)
        else answer == Refused(Conflict)
      case _ => false
  }

  lemma LateStep(w: World, c: nat, key: string, row: Row, a: Action)
    requires key in w.table && w.table[key] == row && row.status == Succeeded && Late(w, c, key, row)
    ensures Late(Step(w, a), c, key, row)
  {
    if ActsFor(a, c) {
      OwnStepStaysLate(w, c, key, row, a);
    } else {
      OtherStep(w, c, a);
    }
  }

  lemma OwnStepStaysLate(w: World, c: nat, key: string, row: Row, a: Action)
    requires key in w.table && w.table[key] == row && row.status == Succeeded && Late(w, c, key, row)
    requires ActsFor(a, c)
    ensures Late(Step(w, a), c, key, row)
  {
  }

  // ---- whose step it is ----

  predicate ActsFor(a: Action, c: nat) {
    !a.Tick? && a.c == c
  }

  /** A step of another request leaves this one as it is. */
  lemma OtherStep(w: World, c: nat, a: Action)
    requires !ActsFor(a, c)
    ensures c in Step(w, a).clients <==> c in w.clients
    ensures c in w.clients ==> Step(w, a).clients[c] == w.clients[c]
  {
    if Ready(w, a) && !a.Tick? {
      assert a.c in Step(w, a).clients && Step(w, a).clients == w.clients[a.c := Step(w, a).clients[a.c]];
    }
  }

  lemma {:induction false} LateRequests(w: World, c: nat, key: string, actions: seq<Action>)
    requires Consistent(w) && key in w.table && w.table[key].status == Succeeded && c !in w.clients
    ensures Late(Run(w, actions), c, key, w.table[key])
  {
    if actions != [] {
      var front := actions[..|actions| - 1];
      LateRequests(w, c, key, front);
      RunKeeps(w, front);
      LateStep(Run(w, front), c, key, w.table[key], actions[|actions| - 1]);
    }
  }

  /**
   * Once a success is stored, its row never changes again in any continuation; every request for the command that
   * begins later and finishes gets the stored result, or a conflict when it asks for something else.
   */
  lemma StoredSuccessIsFinal(actions: seq<Action>, later: seq<Action>, key: string)
    requires key in Run(START, actions).table && Run(START, actions).table[key].status == Succeeded
    ensures var w := Run(START, actions); var w' := Run(w, later);
      && key in w'.table && w'.table[key] == w.table[key]
      && forall c | c !in w.clients :: Late(w', c, key, w.table[key])
  {
    RunKeeps(START, actions);
    var w := Run(START, actions);
    RunKeeps(w, later);
    forall c | c !in w.clients ensures Late(Run(w, later), c, key, w.table[key]) {
      LateRequests(w, c, key, later);
    }
  }

  // ---- a claim that was taken over ----

  /** Every request draws an owner of its own. */
  predicate OwnersDiffer(w: World) {
    forall c, d | c in w.clients && d in w.clients && c != d :: w.clients[c].owner != w.clients[d].owner
  }

  predicate PastItsClaim(phase: Phase) {
    !(phase in {Inserting, Reading, TakingOver})
  }

  /** The request is past its claim, and its command's row has another owner or none. */
  predicate Dispossessed(w: World, c: nat) {
    && c in w.clients && PastItsClaim(w.clients[c].phase)
    && w.clients[c].key in w.table && w.table[w.clients[c].key].owner != Some(w.clients[c].owner)
  }

  /** The same requests, and perhaps more. */
  predicate KeepsRequests(w: World, w': World) {
    forall c | c in w.clients ::
      c in w'.clients && w'.clients[c].key == w.clients[c].key && w'.clients[c].owner == w.clients[c].owner
  }

  lemma StepKeepsRequest(w: World, a: Action, c: nat)
    requires c in w.clients
    ensures var w' := Step(w, a);
      c in w'.clients && w'.clients[c].key == w.clients[c].key && w'.clients[c].owner == w.clients[c].owner
  {
    if !ActsFor(a, c) {
      OtherStep(w, c, a);
    }
  }

  lemma StepKeepsRequests(w: World, a: Action)
    ensures KeepsRequests(w, Step(w, a))
  {
    forall c | c in w.clients
      ensures && c in Step(w, a).clients && Step(w, a).clients[c].key == w.clients[c].key
              && Step(w, a).clients[c].owner == w.clients[c].owner
    {
      StepKeepsRequest(w, a, c);
    }
  }

  lemma OwnersDifferBefore(w: World, w': World)
    requires OwnersDiffer(w') && KeepsRequests(w, w')
    ensures OwnersDiffer(w)
  {
  }

  lemma DispossessedStep(w: World, c: nat, a: Action)
    requires Dispossessed(w, c) && OwnersDiffer(w)
    ensures Dispossessed(Step(w, a), c)
  {
    StepKeepsRequest(w, a, c);
    StaysPastItsClaim(w, c, a);
    RowStaysAnothers(w, a, w.clients[c].key, w.clients[c].owner);
  }

  lemma StaysPastItsClaim(w: World, c: nat, a: Action)
    requires c in w.clients && PastItsClaim(w.clients[c].phase)
    ensures c in Step(w, a).clients && PastItsClaim(Step(w, a).clients[c].phase)
  {
    if !ActsFor(a, c) {
      OtherStep(w, c, a);
    }
  }

  /** A row gets an owner by that owner's own takeover only. */
  lemma RowStaysAnothers(w: World, a: Action, key: string, owner: string)
    requires key in w.table && w.table[key].owner != Some(owner)
    requires Ready(w, a) && a.DoTakeOver? ==> w.clients[a.c].owner != owner
    ensures key in Step(w, a).table && Step(w, a).table[key].owner != Some(owner)
  {
    if Ready(w, a) {
      match a
      case DoTakeOver(d) => assert TakeOverStep(w, d).table[key].owner != Some(owner);
      case DoComplete(d, stored, confirmed) =>
          assert CompleteStep(w, d, stored, confirmed).table[key].owner != Some(owner);
      case DoRelease(d, reached) => assert ReleaseStep(w, d, reached).table[key].owner != Some(owner);
      case _ =>
    }
  }

  lemma {:induction false} RunKeepsRequests(w: World, later: seq<Action>)
    ensures KeepsRequests(w, Run(w, later))
  {
    if later != [] {
      RunKeepsRequests(w, later[..|later| - 1]);
      StepKeepsRequests(Run(w, later[..|later| - 1]), later[|later| - 1]);
    }
  }

  /** Once dispossessed, a request stays so in every continuation. */
  lemma {:induction false} StaysDispossessed(w: World, c: nat, later: seq<Action>)
    requires Dispossessed(w, c) && OwnersDiffer(Run(w, later))
    ensures Dispossessed(Run(w, later), c)
  {
    if later != [] {
      var front, last := later[..|later| - 1], later[|later| - 1];
      StepKeepsRequests(Run(w, front), last);
      OwnersDifferBefore(Run(w, front), Run(w, later));
      StaysDispossessed(w, c, front);
      DispossessedStep(Run(w, front), c, last);
    }
  }

  lemma TakeoverDispossesses(w: World, c: nat, d: nat)
    requires c in w.clients && PastItsClaim(w.clients[c].phase) && c != d && OwnersDiffer(w)
    requires Ready(w, DoTakeOver(d)) && w.clients[d].key == w.clients[c].key
    requires Takeable(w.table, w.clients[d].key, w.clients[d].tenant, w.clients[d].begun, LEASE)
    ensures Dispossessed(Step(w, DoTakeOver(d)), c)
  {
  }

  lemma DispossessedIsPowerless(w: World, c: nat, stored: bool, confirmed: bool)
    requires Dispossessed(w, c)
    ensures var w' := Step(w, DoComplete(c, stored, confirmed)); w'.table == w.table && w'.history == w.history
    ensures var w' := Step(w, DoRelease(c, stored)); w'.table == w.table && w'.history == w.history
  {
  }

  /**
   * When the claim of one request is taken over by another, the first one never finds its owner in the row again,
   * whatever happens later; its completion and its release then change neither a row nor the history of any command.
   */
  lemma DispossessedChangesNothing(w: World, c: nat, d: nat, later: seq<Action>, stored: bool, confirmed: bool)
    requires c in w.clients && PastItsClaim(w.clients[c].phase) && c != d
    requires Ready(w, DoTakeOver(d)) && w.clients[d].key == w.clients[c].key
    requires Takeable(w.table, w.clients[d].key, w.clients[d].tenant, w.clients[d].begun, LEASE)
    requires OwnersDiffer(Run(Step(w, DoTakeOver(d)), later))
    ensures var w' := Run(Step(w, DoTakeOver(d)), later);
      && w.clients[c].key in w'.table && w'.table[w.clients[c].key].owner != Some(w.clients[c].owner)
      && Step(w', DoComplete(c, stored, confirmed)).table == w'.table
      && Step(w', DoComplete(c, stored, confirmed)).history == w'.history
      && Step(w', DoRelease(c, stored)).table == w'.table
      && Step(w', DoRelease(c, stored)).history == w'.history
  {
    var taken := Step(w, DoTakeOver(d));
    StepKeepsRequests(w, DoTakeOver(d));
    RunKeepsRequests(taken, later);
    OwnersDifferBefore(taken, Run(taken, later));
    OwnersDifferBefore(w, taken);
    TakeoverDispossesses(w, c, d);
    StaysDispossessed(taken, c, later);
    DispossessedIsPowerless(Run(taken, later), c, stored, confirmed);
  }

  // ---- UpdateChecked itself ----

  lemma {:induction false} OthersLeaveItAlone(w: World, c: nat, others: seq<Action>)
    requires c in w.clients && forall a | a in others :: !ActsFor(a, c)
    ensures c in Run(w, others).clients && Run(w, others).clients[c] == w.clients[c]
  {
    if others != [] {
      var front, last := others[..|others| - 1], others[|others| - 1];
      OthersLeaveItAlone(w, c, front);
      OtherStep(Run(w, front), c, last);
    }
  }

  lemma {:induction false} RunTogether(w: World, first: seq<Action>, second: seq<Action>)
    ensures Run(Run(w, first), second) == Run(w, first + second)
  {
    if second == [] {
      assert first + second == first;
    } else {
      RunTogether(w, first, second[..|second| - 1]);
      assert (first + second)[..|first + second| - 1] == first + second[..|second| - 1];
    }
  }

  lemma InsertFacts(w: World, c: nat)
    requires Ready(w, DoInsert(c))
    ensures var w', me := Step(w, DoInsert(c)), w.clients[c];
      && w'.table == Inserted(w.table, me.key, me.tenant, me.hash, me.owner, me.begun)
      && c in w'.clients && w'.clients[c] == me.(phase := if me.key in w.table then Reading else Holding)
  {
  }

  lemma ReadFacts(w: World, c: nat)
    requires Ready(w, DoRead(c))
    ensures var w', me := Step(w, DoRead(c)), w.clients[c]; var claim := Decide(w.table, me.key, me.tenant, me.hash);
      && w'.table == w.table && c in w'.clients
      && w'.clients[c] == me.(phase := if claim.None? then TakingOver
                                       else if claim.value.Stored? then Finished(Replayed(claim.value.result))
                                       else Finished(Refused(claim.value)))
  {
  }

  lemma TakeOverFacts(w: World, c: nat)
    requires Ready(w, DoTakeOver(c))
    ensures var w', me := Step(w, DoTakeOver(c)), w.clients[c];
      && w'.table == TakenOver(w.table, me.key, me.tenant, me.owner, me.begun, LEASE)
      && c in w'.clients
      && w'.clients[c] == me.(phase := if Takeable(w.table, me.key, me.tenant, me.begun, LEASE) then Holding
                                       else Finished(Refused(InProgress)))
  {
  }

  lemma CompleteFacts(w: World, c: nat, stored: bool, confirmed: bool)
    requires Ready(w, DoComplete(c, stored, confirmed))
    ensures var w', me := Step(w, DoComplete(c, stored, confirmed)), w.clients[c];
      && w'.table == (if stored then Completed(w.table, me.key, me.tenant, me.owner, me.phase.raw, w.now) else w.table)
      && c in w'.clients
      && w'.clients[c] == me.(phase := if stored && confirmed then Finished(Returned(me.phase.raw)) else Releasing)
  {
  }

  /** A request that came to its end in a run from the start got its body from the workflow. */
  lemma AnswerOfTheRun(w: World, start: World, script: seq<Action>, c: nat, answer: Answer)
    requires w == Run(start, script) && c in w.clients && w.clients[c].phase == Finished(answer)
    ensures start == START && answer.Returned? ==> WasAnswered(script, c, answer.raw)
    ensures start == START && answer.Replayed? ==> AnsweredFor(script, w.clients[c].key, answer.result)
  {
    if start == START {
      AnswersAreTheWorkflows(script);
    }
  }

  /** What happens to the calls of one request: the send, the completion and the release may each fail. */
  datatype Weather = Weather(reached: bool, answered: Option<Body>, stored: bool, confirmed: bool, released: bool)

  /**
   * A replica at work on one request. `world` is what all replicas share; between any two steps of the request the
   * other replicas may take any steps of theirs.
   */
  class Replica {
    const ledger: SqlLedger
    var world: World
    ghost var start: World
    ghost var script: seq<Action>

    ghost predicate Valid()
      reads this, ledger
    {
      world.table == ledger.table && world == Run(start, script)
    }

    constructor (ledger: SqlLedger, world: World)
      requires ledger.table == world.table
      ensures Valid() && this.ledger == ledger && this.world == world && script == []
    {
      this.ledger := ledger;
      this.world := world;
      start, script := world, [];
    }

    /** What the machine does in step with the statement the replica just ran. */
    method Follow(a: Action)
      requires world == Run(start, script) && Step(world, a).table == ledger.table
      modifies this
      ensures Valid() && start == old(start) && world == Step(old(world), a) && script == old(script) + [a]
    {
      world := Step(world, a);
      script := script + [a];
      assert script[..|script| - 1] == old(script);
    }

    /** The other replicas. */
    method Others(c: nat)
      requires Valid() && c in world.clients
      modifies this, ledger
      ensures Valid() && start == old(start) && c in world.clients && world.clients[c] == old(world.clients[c])
      ensures old(script) <= script
    {
      var others: seq<Action> := *;
      if forall a | a in others :: !ActsFor(a, c) {
        OthersLeaveItAlone(world, c, others);
        RunTogether(start, script, others);
        world := Run(world, others);
        ledger.table := world.table;
        script := script + others;
      }
    }

    /** `ClaimCommand` with the other replicas between its statements. */
    method Claim(c: nat) returns (claim: Claim)
      requires Valid() && c in world.clients && world.clients[c].phase == Inserting
      modifies this, ledger
      ensures Valid() && start == old(start) && c in world.clients
      ensures world.clients[c] == old(world.clients[c]).(phase :=
                if claim.Claimed? then Holding
                    else Finished(if claim.Stored? then Replayed(claim.result) else Refused(claim)))
    {
      var me := world.clients[c];
      var created := ledger.Insert(me.key, me.tenant, me.hash, me.owner, me.begun);
      InsertFacts(world, c);
      Follow(DoInsert(c));
      if created {
        return Claimed;
      }
      Others(c);
      var row := ledger.Read(me.key, me.tenant);
      ReadFacts(world, c);
      Follow(DoRead(c));
      if row.None? {
        return NoSuchRow;
      }
      if row.value.hash != me.hash {
        return Conflict;
      }
      if row.value.status == Succeeded {
        return Stored(row.value.result);
      }
      if row.value.status != Started {
        return UnexpectedStatus;
      }
      Others(c);
      var taken := ledger.TakeOver(me.key, me.tenant, me.owner, me.begun, LEASE);
      TakeOverFacts(world, c);
      Follow(DoTakeOver(c));
      claim := if taken then Claimed else InProgress;
    }

    /** `releaseCommand`: a failure of its own is ignored. */
    method Release(c: nat, reached: bool)
      requires Valid() && c in world.clients && world.clients[c].phase == Releasing
      modifies this, ledger
      ensures Valid() && start == old(start) && script == old(script) + [DoRelease(c, reached)] && c in world.clients
      ensures world.clients[c] == old(world.clients[c]).(phase := Finished(Failed))
    {
      var me := world.clients[c];
      if reached {
        ledger.ReleaseCommand(me.key, me.tenant, me.owner);
      }
      assert ReleaseStep(world, c, reached).table == ledger.table;
      Follow(DoRelease(c, reached));
    }

    /**
     * A claimed command whose check passed: send it to the workflow, then store the answer. The call answers with the
     * workflow's body if and only if the workflow gave one and it was stored.
     */
    method SendAndComplete(c: nat, weather: Weather) returns (answer: Answer)
      requires Valid() && c in world.clients && world.clients[c].phase == Holding
      modifies this, ledger
      ensures Valid() && start == old(start) && c in world.clients
      ensures world.clients[c] == old(world.clients[c]).(phase := Finished(answer))
      ensures answer == if weather.reached && weather.answered.Some? && weather.stored && weather.confirmed
                then Returned(weather.answered.value) else Failed
      ensures old(script) + [Send(c, weather.reached, weather.answered)] <= script
    {
      Follow(Send(c, weather.reached, weather.answered));
      ghost var sent := script;
      Others(c);
      assert sent <= script;
      if !weather.reached || weather.answered.None? {
        Release(c, weather.released);
        return Failed;
      }
      var completed := Complete(c, weather.stored, weather.confirmed);
      assert sent <= script;
      if completed {
        return Returned(weather.answered.value);
      }
      Others(c);
      assert sent <= script;
      Release(c, weather.released);
      answer := Failed;
    }

    /** `completeCommand`, which may fail before or after the row is written. */
    method Complete(c: nat, stored: bool, confirmed: bool) returns (completed: bool)
      requires Valid() && c in world.clients && world.clients[c].phase.Accepted?
      modifies this, ledger
      ensures Valid() && start == old(start) && script == old(script) + [DoComplete(c, stored, confirmed)]
      ensures completed == (stored && confirmed) && c in world.clients
      ensures world.clients[c] == old(world.clients[c]).(phase :=
                if completed then Finished(Returned(old(world.clients[c].phase.raw))) else Releasing)
    {
      var me := world.clients[c];
      if stored {
        ledger.CompleteCommand(me.key, me.tenant, me.owner, me.phase.raw, world.now);
      }
      CompleteFacts(world, c, stored, confirmed);
      Follow(DoComplete(c, stored, confirmed));
      completed := stored && confirmed;
    }

    /**
     * `UpdateChecked` from its claim on. Whatever the check, the workflow, the database and the other replicas do, the
     * execution is a run of the machine and the answer is the one the machine records, so every guarantee above holds
     * of it: a body that is returned or replayed is the workflow's. A request whose claim is granted fails only when
     * its check, the send or the completion does.
     */
    method UpdateChecked(c: nat, key: string, tenant: string, hash: string, owner: string, checkFails: bool,
                         weather: Weather)
        returns (answer: Answer)
      requires Valid() && c !in world.clients
      modifies this, ledger
      ensures Valid() && start == old(start) && c in world.clients
      ensures world.clients[c] == Client(key, tenant, hash, owner, old(world.now), Finished(answer))
      ensures start == START && answer.Returned? ==> WasAnswered(script, c, answer.raw)
      ensures start == START && answer.Replayed? ==> AnsweredFor(script, key, answer.result)
      ensures answer.Returned? || answer.Failed? ==>
                answer == if !checkFails && weather.reached && weather.answered.Some? && weather.stored
                             && weather.confirmed
                          then Returned(weather.answered.value) else Failed
    {
      Follow(Begin(c, key, tenant, hash, owner));
      Others(c);
      var claim := Claim(c);
      if claim.Stored? {
        AnswerOfTheRun(world, start, script, c, Replayed(claim.result));
        return Replayed(claim.result);
      }
      if !claim.Claimed? {
        return Refused(claim);
      }
      Others(c);
      answer := CheckAndSend(c, checkFails, weather);
      AnswerOfTheRun(world, start, script, c, answer);
    }

    /** The check, when there is one, between the claim and the send. */
    method CheckAndSend(c: nat, checkFails: bool, weather: Weather) returns (answer: Answer)
      requires Valid() && c in world.clients && world.clients[c].phase == Holding
      modifies this, ledger
      ensures Valid() && start == old(start) && c in world.clients
      ensures world.clients[c] == old(world.clients[c]).(phase := Finished(answer))
      ensures answer == if !checkFails && weather.reached && weather.answered.Some? && weather.stored
                           && weather.confirmed
                        then Returned(weather.answered.value) else Failed
    {
      if checkFails {
        Follow(CheckFails(c));
        Others(c);
        Release(c, weather.released);
        return Failed;
      }
      answer := SendAndComplete(c, weather);
    }
  }
}
