/**
 * The service's own side of an append (`appendEventRaw` in internal/task/events.go, with a projection store):
 * duplicates and outdated entity versions are dropped in memory before the store is asked, and what is appended is
 * buffered for replays.
 */
module Service {
  import opened Common
  import opened Events
  import opened Replay
  import EventLog

  const MAX_EVENTS := 5000

  datatype EventKey = EventKey(task: string, id: string)

  /** An entity of a task is known by its kind and id, joined with a colon. */
  datatype EntityKey = EntityKey(task: string, entity: string)

  datatype Memory = Memory(seen: set<EventKey>, versions: map<EntityKey, int>, next: map<string, nat>,
      buffers: map<string, seq<Event>>)

  const EMPTY := Memory({}, map[], map[], map[])

  /** What may go wrong on the way to the store: nothing, a failure before the commit, or one after it. */
  datatype Fault = NoFault | Before | After

  datatype Reply = Done | MalformedError | StoreError

  datatype Result = Result(memory: Memory, log: EventLog.Log, reply: Reply)

  function KeyOf(e: Event): EventKey {
    EventKey(e.task, e.id)
  }

  function EntityOf(e: Event): EntityKey {
    EntityKey(e.task, e.entityKind + ":" + e.entityId)
  }

  /** The event moves an entity's version; a version of 0 comes from a writer that does not own the entity. */
  predicate Versioned(e: Event) {
    e.entityKind != "" && e.entityId != "" && e.version > 0
  }

  function VersionOf(m: Memory, key: EntityKey): int {
    if key in m.versions then m.versions[key] else 0
  }

  predicate Seen(m: Memory, e: Event) {
    e.id != "" && KeyOf(e) in m.seen
  }

  predicate Outdated(m: Memory, e: Event) {
    Versioned(e) && e.version <= VersionOf(m, EntityOf(e))
  }

  function Remembered(m: Memory, e: Event): Memory {
    if e.id == "" then m else m.(seen := m.seen + {KeyOf(e)})
  }

  /** `forgetEvent`: a failed append undoes the seen mark, and nothing else. */
  function Forgotten(m: Memory, e: Event): Memory {
    if e.id == "" then m else m.(seen := m.seen - {KeyOf(e)})
  }

  function Noted(m: Memory, e: Event): Memory {
    var r := Remembered(m, e);
    if Versioned(e) then r.(versions := r.versions[EntityOf(e) := e.version]) else r
  }

  function NextOf(m: Memory, task: string): nat {
    if task in m.next then m.next[task] else 0
  }

  function BufferOf(m: Memory, task: string): seq<Event> {
    if task in m.buffers then m.buffers[task] else []
  }

  function Buffered(m: Memory, e: Event, cutoff: int): Memory {
    m.(buffers := m.buffers[e.task := TrimmedBuffer(BufferOf(m, e.task) + [e], cutoff, MAX_EVENTS)])
  }

  function Max(a: nat, b: nat): nat {
    if a < b then b else a
  }

  /** What the store answers, and what the caller is told. */
  function Sent(log: EventLog.Log, e: Event, fault: Fault): (EventLog.Log, EventLog.Outcome) {
    if EventLog.IsMalformed(e) then (log, EventLog.Malformed)
    else if fault == Before then (log, EventLog.Refused)
    else if fault == After then (EventLog.Append(log, e).0, EventLog.Refused)
    else EventLog.Append(log, e)
  }

  /** The store answered with the event's number. */
  function Accepted(m: Memory, e: Event, guess: nat, n: nat, cutoff: int): Memory {
    Buffered(m.(next := m.next[e.task := Max(guess, n)]), e.(number := n), cutoff)
  }

  /** What the service makes of the store's answer. */
  function Answered(m: Memory, e: Event, guess: nat, outcome: EventLog.Outcome, cutoff: int): (Memory, Reply) {
    match outcome
    case Malformed => (Forgotten(m, e), MalformedError)
    case Refused => (Forgotten(m, e), StoreError)
    case Skipped => (m, Done)
    case Duplicate(n) => (Accepted(m, e, guess, n, cutoff), Done)
    case Stored(n) => (Accepted(m, e, guess, n, cutoff), Done)
  }

  function Counted(m: Memory, e: Event): Memory {
    m.(next := m.next[e.task := NextOf(m, e.task) + 1])
  }

  function AppendDurable(m: Memory, log: EventLog.Log, e: Event, fault: Fault, cutoff: int): Result {
    var guess := NextOf(m, e.task) + 1;
    var sent := Sent(log, e.(number := guess), fault);
    var answered := Answered(Counted(m, e), e, guess, sent.1, cutoff);
    Result(answered.0, sent.0, answered.1)
  }

  function Append(m: Memory, log: EventLog.Log, e: Event, fault: Fault, cutoff: int): Result {
    if Seen(m, e) then Result(m, log, Done)
    else if Outdated(m, e) then Result(Remembered(m, e), log, Done)
    else if e.durable then AppendDurable(Noted(m, e), log, e, fault, cutoff)
    else Result(Buffered(Noted(m, e), e.(number := 0, follows := NextOf(m, e.task)), cutoff), log, Done)
  }

  class TaskService {
    const store: EventLog.TaskEvents
    var seen: set<EventKey>
    var versions: map<EntityKey, int>
    var next: map<string, nat>
    var buffers: map<string, seq<Event>>

    constructor (store: EventLog.TaskEvents)
      ensures this.store == store && State() == EMPTY
    {
      this.store := store;
      seen, versions, next, buffers := {}, map[], map[], map[];
    }

    /** A process that starts again remembers nothing. */
    method Restart()
      modifies this
      ensures State() == EMPTY
    {
      seen, versions, next, buffers := {}, map[], map[], map[];
    }

    method Recall(m: Memory)
      modifies this
      ensures State() == m
    {
      seen, versions, next, buffers := m.seen, m.versions, m.next, m.buffers;
    }

    function State(): Memory
      reads this
    {
      Memory(seen, versions, next, buffers)
    }

    /** The call of the store, which may fail before or after it commits. */
    method Project(e: Event, fault: Fault) returns (outcome: EventLog.Outcome)
      requires store.Valid() && e.durable
      modifies store
      ensures store.Valid() && (store.log, outcome) == Sent(old(store.log), e, fault)
    {
      if e.tenant == "" || e.task == "" || e.id == "" {
        return EventLog.Malformed;
      }
      if fault == Before {
        return EventLog.Refused;
      }
      outcome := store.AppendTaskEvent(e);
      if fault == After {
        outcome := EventLog.Refused;
      }
    }

    /** The duplicate check and the version check, in the order of the source. */
    method Admit(e: Event) returns (admitted: bool)
      modifies this
      ensures admitted <==> !Seen(old(State()), e) && !Outdated(old(State()), e)
      ensures State() == if Seen(old(State()), e) then old(State())
                         else if Outdated(old(State()), e) then Remembered(old(State()), e) else Noted(old(State()), e)
    {
      if e.id != "" {
        if EventKey(e.task, e.id) in seen {
          return false;
        }
        seen := seen + {EventKey(e.task, e.id)};
      }
      if e.entityKind != "" && e.entityId != "" {
        var key := EntityKey(e.task, e.entityKind + ":" + e.entityId);
        var current := if key in versions then versions[key] else 0;
        if e.version > 0 && e.version <= current {
          return false;
        }
        if e.version > 0 {
          versions := versions[key := e.version];
        }
      }
      admitted := true;
    }

    method Forget(e: Event)
      modifies this`seen
      ensures State() == Forgotten(old(State()), e)
    {
      if e.id != "" {
        seen := seen - {EventKey(e.task, e.id)};
      }
    }

    method Buffer(e: Event, cutoff: int)
      modifies this`buffers
      ensures State() == Buffered(old(State()), e, cutoff)
    {
      var items := TrimBuffer(BufferOf(State(), e.task) + [e], cutoff, MAX_EVENTS);
      buffers := buffers[e.task := items];
    }

    method Accept(e: Event, guess: nat, n: nat, cutoff: int)
      modifies this`next, this`buffers
      ensures State() == Accepted(old(State()), e, guess, n, cutoff)
    {
      next := next[e.task := Max(guess, n)];
      Buffer(e.(number := n), cutoff);
    }

    method Answer(e: Event, guess: nat, outcome: EventLog.Outcome, cutoff: int) returns (reply: Reply)
      modifies this
      ensures (State(), reply) == Answered(old(State()), e, guess, outcome, cutoff)
    {
      match outcome {
        case Malformed =>
          Forget(e);
          reply := MalformedError;
        case Refused =>
          Forget(e);
          reply := StoreError;
        case Skipped =>
          reply := Done;
        case Duplicate(n) =>
          Accept(e, guess, n, cutoff);
          reply := Done;
        case Stored(n) =>
          Accept(e, guess, n, cutoff);
          reply := Done;
      }
    }

    method StoreDurable(e: Event, fault: Fault, cutoff: int) returns (reply: Reply)
      requires store.Valid() && e.durable
      modifies this, store
      ensures store.Valid()
      ensures Result(State(), store.log, reply) == AppendDurable(old(State()), old(store.log), e, fault, cutoff)
    {
      var guess := NextOf(State(), e.task) + 1;
      next := next[e.task := guess];
      assert State() == Counted(old(State()), e);
      var outcome := Project(e.(number := guess), fault);
      reply := Answer(e, guess, outcome, cutoff);
    }

    method AppendEvent(e: Event, fault: Fault, cutoff: int) returns (reply: Reply)
      requires store.Valid()
      modifies this, store
      ensures store.Valid()
      ensures Result(State(), store.log, reply) == Append(old(State()), old(store.log), e, fault, cutoff)
    {
      AppendCases(State(), store.log, e, fault, cutoff);
      var admitted := Admit(e);
      if !admitted {
        return Done;
      }
      if e.durable {
        reply := StoreDurable(e, fault, cutoff);
      } else {
        Buffer(e.(number := 0, follows := NextOf(State(), e.task)), cutoff);
        reply := Done;
      }
    }
  }

  // ---- the buffer is in order ----

  /** Ephemeral events of a buffer have no number and come in the order of the durable events they follow. */
  predicate InOrder(buffer: seq<Event>, next: nat) {
    && Unnumbered(buffer)
    && Ascending(Filter(IsEphemeral, buffer))
    && forall e | e in buffer && !e.durable :: e.follows <= next
  }

  ghost predicate BuffersInOrder(m: Memory) {
    forall task :: InOrder(BufferOf(m, task), NextOf(m, task))
  }

  lemma OneMoreInOrder(buffer: seq<Event>, e: Event, next: nat, later: nat)
    requires InOrder(buffer, next) && next <= later
    requires e.durable || (e.number == 0 && e.follows == later)
    ensures InOrder(buffer + [e], later)
  {
    var ephemeral := Filter(IsEphemeral, buffer);
    FilterLast(IsEphemeral, buffer, e);
    FilterMembers(IsEphemeral, buffer);
    if e.durable {
      assert ephemeral + [] == ephemeral;
    } else {
      assert (ephemeral + [e])[..|ephemeral|] == ephemeral;
      assert NoneLater(ephemeral, e);
    }
  }

  lemma DurablePartInOrder(items: seq<Event>, next: nat)
    ensures InOrder(Filter(IsDurable, items), next)
  {
    FilterMembers(IsDurable, items);
    FilterNone(IsEphemeral, Filter(IsDurable, items));
  }

  lemma BufferStep(buffer: seq<Event>, e: Event, next: nat, later: nat, cutoff: int)
    requires InOrder(buffer, next) && next <= later
    requires e.durable || (e.number == 0 && e.follows == later)
    ensures InOrder(TrimmedBuffer(buffer + [e], cutoff, MAX_EVENTS), later)
  {
    OneMoreInOrder(buffer, e, next, later);
    DurablePartInOrder(buffer + [e], later);
    TrimIsAllOrNothing(buffer + [e], cutoff, MAX_EVENTS);
  }

  lemma OrderStays(m: Memory, m': Memory)
    requires BuffersInOrder(m) && m'.buffers == m.buffers && forall task :: NextOf(m, task) <= NextOf(m', task)
    ensures BuffersInOrder(m')
  {
  }

  lemma BufferedKeeps(m: Memory, e: Event, cutoff: int)
    requires BuffersInOrder(m) && (e.durable || (e.number == 0 && e.follows == NextOf(m, e.task)))
    ensures BuffersInOrder(Buffered(m, e, cutoff))
  {
    var after := Buffered(m, e, cutoff);
    BufferStep(BufferOf(m, e.task), e, NextOf(m, e.task), NextOf(m, e.task), cutoff);
    forall task ensures InOrder(BufferOf(after, task), NextOf(after, task)) {
      assert InOrder(BufferOf(m, task), NextOf(m, task));
    }
  }

  lemma AcceptedKeepsOrder(m: Memory, e: Event, guess: nat, n: nat, cutoff: int)
    requires BuffersInOrder(m) && e.durable && guess >= NextOf(m, e.task)
    ensures BuffersInOrder(Accepted(m, e, guess, n, cutoff))
  {
    var moved := m.(next := m.next[e.task := Max(guess, n)]);
    OrderStays(m, moved);
    BufferedKeeps(moved, e.(number := n), cutoff);
  }

  lemma AnsweredKeepsOrder(m: Memory, e: Event, guess: nat, outcome: EventLog.Outcome, cutoff: int, after: Memory)
    requires BuffersInOrder(m) && e.durable && guess >= NextOf(m, e.task)
    requires after == Answered(m, e, guess, outcome, cutoff).0
    ensures BuffersInOrder(after)
  {
    match outcome
    case Malformed => OrderStays(m, Forgotten(m, e));
    case Refused => OrderStays(m, Forgotten(m, e));
    case Skipped =>
    case Duplicate(n) => AcceptedKeepsOrder(m, e, guess, n, cutoff);
    case Stored(n) => AcceptedKeepsOrder(m, e, guess, n, cutoff);
  }

  lemma CountedKeepsOrder(m: Memory, e: Event)
    requires BuffersInOrder(m)
    ensures BuffersInOrder(Counted(m, e)) && NextOf(Counted(m, e), e.task) == NextOf(m, e.task) + 1
  {
    OrderStays(m, Counted(m, e));
  }

  lemma MemoryOfAppend(m: Memory, log: EventLog.Log, e: Event, fault: Fault, cutoff: int)
    ensures AppendDurable(m, log, e, fault, cutoff).memory ==
            Answered(Counted(m, e), e, NextOf(m, e.task) + 1, Sent(log, e.(number := NextOf(m, e.task) + 1), fault).1,
                cutoff).0
  {
  }

  lemma DurableKeepsOrder(m: Memory, log: EventLog.Log, e: Event, fault: Fault, cutoff: int)
    requires BuffersInOrder(m) && e.durable
    ensures BuffersInOrder(AppendDurable(m, log, e, fault, cutoff).memory)
  {
    var guess := NextOf(m, e.task) + 1;
    MemoryOfAppend(m, log, e, fault, cutoff);
    CountedKeepsOrder(m, e);
    AnsweredKeepsOrder(Counted(m, e), e, guess, Sent(log, e.(number := guess), fault).1, cutoff,
                       AppendDurable(m, log, e, fault, cutoff).memory);
  }

  /** Every append keeps every buffer in order, so a replay shows the ephemeral events as they came. */
  lemma AppendKeepsOrder(m: Memory, log: EventLog.Log, e: Event, fault: Fault, cutoff: int)
    requires BuffersInOrder(m)
    ensures BuffersInOrder(Append(m, log, e, fault, cutoff).memory)
  {
    OrderStays(m, Remembered(m, e));
    OrderStays(m, Noted(m, e));
    if !Seen(m, e) && !Outdated(m, e) {
      if e.durable {
        DurableKeepsOrder(Noted(m, e), log, e, fault, cutoff);
      } else {
        BufferedKeeps(Noted(m, e), e.(number := 0, follows := NextOf(m, e.task)), cutoff);
      }
    }
  }

  // ---- over whole runs of the service ----

  datatype Call = AppendCall(e: Event, fault: Fault, cutoff: int) | EvictCall(key: EventKey)

  function Called(m: Memory, log: EventLog.Log, call: Call): (Memory, EventLog.Log) {
    match call
    case AppendCall(e, fault, cutoff) => var r := Append(m, log, e, fault, cutoff); (r.memory, r.log)
    case EvictCall(key) => (m.(seen := m.seen - {key}), log)
  }

  function AfterCalls(log: EventLog.Log, calls: seq<Call>): (Memory, EventLog.Log) {
    if calls == [] then (EMPTY, log) else
      var before := AfterCalls(log, calls[..|calls| - 1]);
      Called(before.0, before.1, calls[|calls| - 1])
  }

  /**
   * From its start on, whatever is appended, fails or is evicted, a process keeps the ephemeral events of every task in
   * order.
   */
  lemma {:induction false} BuffersStayInOrder(log: EventLog.Log, calls: seq<Call>)
    ensures BuffersInOrder(AfterCalls(log, calls).0)
  {
    if calls != [] {
      BuffersStayInOrder(log, calls[..|calls| - 1]);
      var before := AfterCalls(log, calls[..|calls| - 1]);
      match calls[|calls| - 1]
      case AppendCall(e, fault, cutoff) => AppendKeepsOrder(before.0, before.1, e, fault, cutoff);
      case EvictCall(key) => OrderStays(before.0, before.0.(seen := before.0.seen - {key}));
    }
  }

  /** In every run a replay shows the ephemeral events the buffer still holds in the order in which they came. */
  lemma ReplayKeepsBufferOrder(start: EventLog.Log, calls: seq<Call>, task: string, log: seq<Event>, after: nat)
    requires Numbered(log) && after <= |log|
    ensures var buffer := BufferOf(AfterCalls(start, calls).0, task);
      Filter(IsEphemeral, ReplayFrom(log, buffer, after)) == Filter(Kept(after), buffer)
  {
    var m := AfterCalls(start, calls).0;
    var buffer := BufferOf(m, task);
    BuffersStayInOrder(start, calls);
    assert InOrder(buffer, NextOf(m, task));
    ReplayInOrder(buffer, NextOf(m, task), log, after);
  }

  lemma ReplayInOrder(buffer: seq<Event>, next: nat, log: seq<Event>, after: nat)
    requires InOrder(buffer, next) && Numbered(log) && after <= |log|
    ensures Filter(IsEphemeral, ReplayFrom(log, buffer, after)) == Filter(Kept(after), buffer)
  {
    FilterTwice(IsEphemeral, Kept(after), Kept(after), buffer);
    FilterAscends(Kept(after), Filter(IsEphemeral, buffer));
    MergeFacts(log, buffer, after);
  }

  // ---- the one way an event is lost ----

  /**
   * An append that failed before its commit is retried in the same process: the retry reaches the store if and only if
   * the event moves no entity version, because the failure undoes the seen mark but not the version.
   */
  lemma RetryAfterFailure(m: Memory, log: EventLog.Log, e: Event, cutoff: int)
    requires EventLog.WellNumbered(log) && e.durable && !Seen(m, e) && !Outdated(m, e)
    requires EventLog.Append(log, e).1.Stored?
    ensures var failed := Append(m, log, e, Before, cutoff);
      && failed.reply == StoreError && failed.log == log
      && Append(failed.memory, log, e, NoFault, cutoff).reply == Done
      && (EventLog.Holds(Append(failed.memory, log, e, NoFault, cutoff).log, e.id) <==> !Versioned(e))
  {
    if Versioned(e) {
      assert Outdated(Append(m, log, e, Before, cutoff).memory, e);
    } else {
      AdmittedIsStored(Append(m, log, e, Before, cutoff).memory, log, e, cutoff);
    }
  }

  lemma AdmittedIsStored(m: Memory, log: EventLog.Log, e: Event, cutoff: int)
    requires EventLog.WellNumbered(log) && e.durable && !Seen(m, e) && !Outdated(m, e)
    requires EventLog.Append(log, e).1.Stored?
    ensures Append(m, log, e, NoFault, cutoff).reply == Done
        && EventLog.Holds(Append(m, log, e, NoFault, cutoff).log, e.id)
  {
    LogOfAppend(m, log, e, NoFault, cutoff);
    StoredIsHeld(log, e);
    StoredIsDone(Noted(m, e), log, e, cutoff);
  }

  lemma StoredIsDone(m: Memory, log: EventLog.Log, e: Event, cutoff: int)
    requires EventLog.Append(log, e).1.Stored?
    ensures AppendDurable(m, log, e, NoFault, cutoff).reply == Done
  {
    NumberDoesNotMatter(log, e, NextOf(m, e.task) + 1);
  }

  lemma StoredIsHeld(log: EventLog.Log, e: Event)
    requires EventLog.Append(log, e).1.Stored?
    ensures EventLog.Holds(EventLog.Append(log, e).0, e.id)
  {
    assert EventLog.Append(log, e).0[|log|].id == e.id;
  }

  /** What an append does to the log: nothing when it does not reach the store, and else what the store does. */
  lemma LogOfAppend(m: Memory, log: EventLog.Log, e: Event, fault: Fault, cutoff: int)
    ensures Append(m, log, e, fault, cutoff).log ==
            if Seen(m, e) || Outdated(m, e) || fault == Before then log else EventLog.Append(log, e).0
  {
    NumberDoesNotMatter(log, e, NextOf(Noted(m, e), e.task) + 1);
  }

  /** The number one process guessed plays no part in the append. */
  lemma NumberDoesNotMatter(log: EventLog.Log, e: Event, guess: nat)
    ensures EventLog.Append(log, e.(number := guess)) == EventLog.Append(log, e)
  {
    var d := e.(number := guess);
    assert EventLog.Finds(log, d) == EventLog.Finds(log, e);
    if EventLog.Finds(log, e) {
      NumberOfSame(log, e, d);
    }
  }

  lemma {:induction false} NumberOfSame(log: EventLog.Log, e: Event, d: Event)
    requires EventLog.Finds(log, e) && d == e.(number := d.number)
    ensures EventLog.Finds(log, d) && EventLog.NumberOf(log, d) == EventLog.NumberOf(log, e)
  {
    var last := log[|log| - 1];
    if !(last.id == e.id && last.tenant == e.tenant) {
      NumberOfSame(log[..|log| - 1], e, d);
    }
  }

  // ---- what the memory knows, told from the calls ----

  /** The last thing that happened to the event id in the task was an append without an error. */
  predicate Remembers(log: EventLog.Log, calls: seq<Call>, task: string, id: string) {
    calls != [] &&
    var front := calls[..|calls| - 1];
    match calls[|calls| - 1]
    case AppendCall(e, fault, cutoff) =>
      if e.task == task && e.id == id && id != ""
      then Append(AfterCalls(log, front).0, AfterCalls(log, front).1, e, fault, cutoff).reply == Done
      else Remembers(log, front, task, id)
    case EvictCall(key) => key != EventKey(task, id) && Remembers(log, front, task, id)
  }

  /** The event has a version of the entity, which its kind and id name. */
  predicate Moves(e: Event, task: string, entity: string) {
    e.task == task && e.entityKind != "" && e.entityId != "" && e.entityKind + ":" + e.entityId == entity
        && e.version > 0
  }

  /** The highest version of the entity that an append brought, whether or not it reached the log; 0 without one. */
  function Highest(log: EventLog.Log, calls: seq<Call>, task: string, entity: string): int {
    if calls == [] then 0 else
      var front := calls[..|calls| - 1];
      var before := Highest(log, front, task, entity);
      match calls[|calls| - 1]
      case AppendCall(e, _, _) =>
        if Moves(e, task, entity) && !Remembers(log, front, e.task, e.id) && e.version > before then e.version
            else before
      case EvictCall(_) => before
  }

  lemma DurableEffect(m: Memory, log: EventLog.Log, e: Event, fault: Fault, cutoff: int)
    ensures var r := AppendDurable(m, log, e, fault, cutoff);
      && r.memory.versions == m.versions
      && r.memory.seen == (if r.reply == Done then m.seen else Forgotten(m, e).seen)
      && (r.reply == StoreError ==> !EventLog.IsMalformed(e))
      && (r.reply == MalformedError ==> EventLog.IsMalformed(e))
  {
  }

  /** An append leaves the versions alone, or notes the event's own when it is newer. */
  lemma VersionEffect(m: Memory, log: EventLog.Log, e: Event, fault: Fault, cutoff: int)
    ensures Append(m, log, e, fault, cutoff).memory.versions ==
            if Seen(m, e) || Outdated(m, e) then m.versions else Noted(m, e).versions
  {
    if !Seen(m, e) && !Outdated(m, e) && e.durable {
      DurableEffect(Noted(m, e), log, e, fault, cutoff);
    }
  }

  lemma SeenAfter(m: Memory, log: EventLog.Log, e: Event, fault: Fault, cutoff: int, task: string, id: string)
    ensures var r := Append(m, log, e, fault, cutoff);
      EventKey(task, id) in r.memory.seen <==>
        if e.task == task && e.id == id && id != "" then r.reply == Done else EventKey(task, id) in m.seen
  {
    AppendCases(m, log, e, fault, cutoff);
    if !Seen(m, e) && !Outdated(m, e) && e.durable {
      DurableEffect(Noted(m, e), log, e, fault, cutoff);
    }
  }

  lemma VersionAfter(m: Memory, e: Event, task: string, entity: string, after: Memory)
    requires after.versions == if Seen(m, e) || Outdated(m, e) then m.versions else Noted(m, e).versions
    ensures VersionOf(after, EntityKey(task, entity)) ==
            if Moves(e, task, entity) && !Seen(m, e) && e.version > VersionOf(m, EntityKey(task, entity)) then e.version
            else VersionOf(m, EntityKey(task, entity))
  {
  }

  /** The two memories of a process, told from its calls alone. */
  lemma {:induction false} MemoryTells(log: EventLog.Log, calls: seq<Call>, task: string, id: string, entity: string)
    ensures id != "" ==> (EventKey(task, id) in AfterCalls(log, calls).0.seen <==> Remembers(log, calls, task, id))
    ensures VersionOf(AfterCalls(log, calls).0, EntityKey(task, entity)) == Highest(log, calls, task, entity)
  {
    if calls != [] {
      var front := calls[..|calls| - 1];
      var before := AfterCalls(log, front);
      MemoryTells(log, front, task, id, entity);
      match calls[|calls| - 1]
      case AppendCall(e, fault, cutoff) =>
        SeenAfter(before.0, before.1, e, fault, cutoff, task, id);
        var after := Append(before.0, before.1, e, fault, cutoff).memory;
        VersionEffect(before.0, before.1, e, fault, cutoff);
        VersionAfter(before.0, e, task, entity, after);
        MemoryTells(log, front, e.task, e.id, entity);
        if e.id == "" {
          RemembersItsId(log, front, e.task, e.id);
        }
      case EvictCall(key) =>
    }
  }

  lemma {:induction false} RemembersItsId(log: EventLog.Log, calls: seq<Call>, task: string, id: string)
    requires id == ""
    ensures !Remembers(log, calls, task, id)
  {
    if calls != [] {
      RemembersItsId(log, calls[..|calls| - 1], task, id);
    }
  }

  /** The event is one the process remembers, or its version is not above the highest it brought. */
  predicate IsDropped(log: EventLog.Log, calls: seq<Call>, e: Event) {
    || Remembers(log, calls, e.task, e.id)
    || (e.entityKind != "" && e.entityId != ""
        && 0 < e.version <= Highest(log, calls, e.task, e.entityKind + ":" + e.entityId))
  }

  lemma DroppedExactly(log: EventLog.Log, calls: seq<Call>, e: Event)
    ensures var m := AfterCalls(log, calls).0; Seen(m, e) || Outdated(m, e) <==> IsDropped(log, calls, e)
  {
    MemoryTells(log, calls, e.task, e.id, e.entityKind + ":" + e.entityId);
    if e.id == "" {
      RemembersItsId(log, calls, e.task, e.id);
    }
  }

  /** The buffer of the event's task has one more event, and is trimmed to what is recent. */
  predicate Buffers(m: Memory, after: Memory, e: Event, cutoff: int) {
    after.buffers == m.buffers[e.task := TrimmedBuffer(BufferOf(m, e.task) + [e], cutoff, 5000)]
  }

  /** What an append leaves, by what the store answers. */
  predicate Leaves(m: Memory, e: Event, outcome: EventLog.Outcome, after: Memory, reply: Reply, cutoff: int) {
    match outcome
    case Malformed => reply == MalformedError && after.buffers == m.buffers
    case Refused => reply == StoreError && after.buffers == m.buffers
    case Skipped => false
    case Duplicate(n) =>
      && reply == Done && Buffers(m, after, e.(number := n), cutoff)
      && NextOf(after, e.task) >= n && NextOf(after, e.task) in {NextOf(m, e.task) + 1, n}
    case Stored(n) =>
      && reply == Done && Buffers(m, after, e.(number := n), cutoff)
      && NextOf(after, e.task) >= n && NextOf(after, e.task) in {NextOf(m, e.task) + 1, n}
  }

  lemma AnsweredSays(m: Memory, e: Event, outcome: EventLog.Outcome, cutoff: int, after: Memory, reply: Reply)
    requires !outcome.Skipped?
    requires (after, reply) == Answered(Counted(m, e), e, NextOf(m, e.task) + 1, outcome, cutoff)
    ensures Leaves(m, e, outcome, after, reply, cutoff)
  {
  }

  /** What an append that was not dropped leaves: log, memory and answer. */
  predicate StoreSays(m: Memory, log: EventLog.Log, e: Event, fault: Fault, cutoff: int, r: Result) {
    var (stored, outcome) := EventLog.Append(log, e);
    if e.id == "" || e.task == "" || e.tenant == "" then
      r.log == log && Leaves(m, e, EventLog.Malformed, r.memory, r.reply, cutoff)
    else if fault == Before then r.log == log && Leaves(m, e, EventLog.Refused, r.memory, r.reply, cutoff)
    else if fault == After then r.log == stored && Leaves(m, e, EventLog.Refused, r.memory, r.reply, cutoff)
    else r.log == stored && Leaves(m, e, outcome, r.memory, r.reply, cutoff)
  }

  lemma SentSays(log: EventLog.Log, e: Event, guess: nat, fault: Fault)
    ensures Sent(log, e.(number := guess), fault) ==
            if e.id == "" || e.task == "" || e.tenant == "" then (log, EventLog.Malformed)
            else if fault == Before then (log, EventLog.Refused)
            else if fault == After then (EventLog.Append(log, e).0, EventLog.Refused)
            else EventLog.Append(log, e)
    ensures e.durable ==> !Sent(log, e.(number := guess), fault).1.Skipped?
  {
    NumberDoesNotMatter(log, e, guess);
  }

  lemma DurableSays(m: Memory, log: EventLog.Log, e: Event, fault: Fault, cutoff: int)
    requires e.durable
    ensures StoreSays(m, log, e, fault, cutoff, AppendDurable(m, log, e, fault, cutoff))
  {
    var guess := NextOf(m, e.task) + 1;
    var r := AppendDurable(m, log, e, fault, cutoff);
    var sent := Sent(log, e.(number := guess), fault);
    DurableParts(m, log, e, fault, cutoff, r, sent);
    SentSays(log, e, guess, fault);
    AnsweredSays(m, e, sent.1, cutoff, r.memory, r.reply);
    SaysTogether(m, log, e, fault, cutoff, sent, r);
  }

  lemma DurableParts(m: Memory, log: EventLog.Log, e: Event, fault: Fault, cutoff: int, r: Result,
                     sent: (EventLog.Log, EventLog.Outcome))
    requires r == AppendDurable(m, log, e, fault, cutoff)
    requires sent == Sent(log, e.(number := NextOf(m, e.task) + 1), fault)
    ensures r.log == sent.0
    ensures (r.memory, r.reply) == Answered(Counted(m, e), e, NextOf(m, e.task) + 1, sent.1, cutoff)
  {
  }

  lemma SaysTogether(m: Memory, log: EventLog.Log, e: Event, fault: Fault, cutoff: int,
                     sent: (EventLog.Log, EventLog.Outcome), r: Result)
    requires sent == if e.id == "" || e.task == "" || e.tenant == "" then (log, EventLog.Malformed)
                     else if fault == Before then (log, EventLog.Refused)
                     else if fault == After then (EventLog.Append(log, e).0, EventLog.Refused)
                     else EventLog.Append(log, e)
    requires r.log == sent.0 && Leaves(m, e, sent.1, r.memory, r.reply, cutoff)
    ensures StoreSays(m, log, e, fault, cutoff, r)
  {
  }

  /** Noting an event in the memory changes neither buffers nor numbers. */
  lemma NotedSays(m: Memory, log: EventLog.Log, e: Event, fault: Fault, cutoff: int, r: Result)
    requires StoreSays(Noted(m, e), log, e, fault, cutoff, r)
    ensures StoreSays(m, log, e, fault, cutoff, r)
  {
    var noted := Noted(m, e);
    assert noted.buffers == m.buffers && noted.next == m.next;
    var outcome := EventLog.Append(log, e).1;
    LeavesAlike(noted, m, e, EventLog.Malformed, r.memory, r.reply, cutoff);
    LeavesAlike(noted, m, e, EventLog.Refused, r.memory, r.reply, cutoff);
    LeavesAlike(noted, m, e, outcome, r.memory, r.reply, cutoff);
  }

  lemma LeavesAlike(m: Memory, m': Memory, e: Event, outcome: EventLog.Outcome, after: Memory, reply: Reply,
                    cutoff: int)
    requires m.buffers == m'.buffers && m.next == m'.next
    ensures Leaves(m, e, outcome, after, reply, cutoff) <==> Leaves(m', e, outcome, after, reply, cutoff)
  {
    assert BufferOf(m, e.task) == BufferOf(m', e.task) && NextOf(m, e.task) == NextOf(m', e.task);
  }

  /**
   * An append at any point of a process, told from the calls before it: a dropped event changes neither log nor
   * buffers, an ephemeral one is buffered behind the durable events the process knows of, and a durable one goes to the
   * store and is buffered under the number it has there, unless that fails.
   */
  lemma AppendSays(log: EventLog.Log, calls: seq<Call>, e: Event, fault: Fault, cutoff: int)
    ensures var (m, at) := AfterCalls(log, calls); var r := Append(m, at, e, fault, cutoff);
      if IsDropped(log, calls, e) then r.reply == Done && r.log == at && r.memory.buffers == m.buffers
      else if !e.durable then
        r.reply == Done && r.log == at && Buffers(m, r.memory, e.(number := 0, follows := NextOf(m, e.task)), cutoff)
      else StoreSays(m, at, e, fault, cutoff, r)
  {
    var (m, at) := AfterCalls(log, calls);
    var r := Append(m, at, e, fault, cutoff);
    DroppedExactly(log, calls, e);
    AppendCases(m, at, e, fault, cutoff);
    if !Seen(m, e) && !Outdated(m, e) {
      if e.durable {
        assert r == AppendDurable(Noted(m, e), at, e, fault, cutoff);
        DurableSays(Noted(m, e), at, e, fault, cutoff);
        NotedSays(m, at, e, fault, cutoff, r);
      } else {
        EphemeralSays(m, e, cutoff, r.memory);
      }
    }
  }

  lemma EphemeralSays(m: Memory, e: Event, cutoff: int, after: Memory)
    requires after == Buffered(Noted(m, e), e.(number := 0, follows := NextOf(m, e.task)), cutoff)
    ensures Buffers(m, after, e.(number := 0, follows := NextOf(m, e.task)), cutoff)
  {
    assert Noted(m, e).buffers == m.buffers;
    assert BufferOf(Noted(m, e), e.task) == BufferOf(m, e.task);
  }

  /** The process knows the numbers of the durable events it has buffered, so what comes next follows them. */
  ghost predicate NumbersKnown(m: Memory) {
    forall task, e | e in BufferOf(m, task) && e.durable :: e.number <= NextOf(m, task)
  }

  lemma BufferedMembers(items: seq<Event>, cutoff: int, limit: nat, e: Event)
    requires e in TrimmedBuffer(items, cutoff, limit)
    ensures e in items
  {
    var recent := RecentOf(items, cutoff);
    if |recent| > limit {
      FilterMembers(NumberIn(NumbersOf(recent[|recent| - limit..])), items);
    }
  }

  lemma KnownStays(m: Memory, e: Event, cutoff: int, after: Memory)
    requires NumbersKnown(m) && (e.durable ==> e.number <= NextOf(after, e.task))
    requires Buffers(m, after, e, cutoff) && forall task :: NextOf(m, task) <= NextOf(after, task)
    ensures NumbersKnown(after)
  {
    forall task, x | x in BufferOf(after, task) && x.durable ensures x.number <= NextOf(after, task) {
      if task == e.task {
        BufferedMembers(BufferOf(m, task) + [e], cutoff, 5000, x);
      }
    }
  }

  lemma SameBuffers(m: Memory, after: Memory)
    requires NumbersKnown(m) && after.buffers == m.buffers && forall task :: NextOf(m, task) <= NextOf(after, task)
    ensures NumbersKnown(after)
  {
    forall task, x | x in BufferOf(after, task) && x.durable ensures x.number <= NextOf(after, task) {
      assert x in BufferOf(m, task);
    }
  }

  lemma AnsweredKnows(m: Memory, e: Event, guess: nat, outcome: EventLog.Outcome, cutoff: int, after: Memory)
    requires NumbersKnown(m) && guess >= NextOf(m, e.task)
    requires after == Answered(m, e, guess, outcome, cutoff).0
    ensures NumbersKnown(after)
  {
    match outcome
    case Malformed => ForgottenKnows(m, e);
    case Refused => ForgottenKnows(m, e);
    case Skipped =>
    case Duplicate(n) => AcceptedKnows(m, e, guess, n, cutoff);
    case Stored(n) => AcceptedKnows(m, e, guess, n, cutoff);
  }

  lemma ForgottenKnows(m: Memory, e: Event)
    requires NumbersKnown(m)
    ensures NumbersKnown(Forgotten(m, e))
  {
    SameBuffers(m, Forgotten(m, e));
  }

  lemma AcceptedKnows(m: Memory, e: Event, guess: nat, n: nat, cutoff: int)
    requires NumbersKnown(m) && guess >= NextOf(m, e.task)
    ensures NumbersKnown(Accepted(m, e, guess, n, cutoff))
  {
    var after := Accepted(m, e, guess, n, cutoff);
    assert after.next == m.next[e.task := Max(guess, n)];
    assert forall task :: NextOf(m, task) <= NextOf(after, task);
    KnownStays(m, e.(number := n), cutoff, after);
  }

  lemma DurableKnows(m: Memory, log: EventLog.Log, e: Event, fault: Fault, cutoff: int, after: Memory)
    requires NumbersKnown(m) && after == AppendDurable(m, log, e, fault, cutoff).memory
    ensures NumbersKnown(after)
  {
    var guess := NextOf(m, e.task) + 1;
    SameBuffers(m, Counted(m, e));
    MemoryOfAppend(m, log, e, fault, cutoff);
    AnsweredKnows(Counted(m, e), e, guess, Sent(log, e.(number := guess), fault).1, cutoff, after);
  }

  lemma BufferedKnows(m: Memory, e: Event, cutoff: int)
    requires NumbersKnown(m) && !e.durable
    ensures NumbersKnown(Buffered(m, e, cutoff))
  {
    KnownStays(m, e, cutoff, Buffered(m, e, cutoff));
  }

  lemma AppendKnows(m: Memory, log: EventLog.Log, e: Event, fault: Fault, cutoff: int, after: Memory)
    requires NumbersKnown(m) && after == Append(m, log, e, fault, cutoff).memory
    ensures NumbersKnown(after)
  {
    AppendCases(m, log, e, fault, cutoff);
    if !Seen(m, e) {
      NotedKnows(m, e);
      if !Outdated(m, e) {
        if e.durable {
          assert after == AppendDurable(Noted(m, e), log, e, fault, cutoff).memory;
          DurableKnows(Noted(m, e), log, e, fault, cutoff, after);
        } else {
          BufferedKnows(Noted(m, e), e.(number := 0, follows := NextOf(m, e.task)), cutoff);
        }
      }
    }
  }

  lemma NotedKnows(m: Memory, e: Event)
    requires NumbersKnown(m)
    ensures NumbersKnown(Remembered(m, e)) && NumbersKnown(Noted(m, e))
  {
    SameBuffers(m, Remembered(m, e));
    SameBuffers(m, Noted(m, e));
  }

  lemma AppendCases(m: Memory, log: EventLog.Log, e: Event, fault: Fault, cutoff: int)
    ensures Append(m, log, e, fault, cutoff) ==
            if Seen(m, e) then Result(m, log, Done)
            else if Outdated(m, e) then Result(Remembered(m, e), log, Done)
            else if e.durable then AppendDurable(Noted(m, e), log, e, fault, cutoff)
            else Result(Buffered(Noted(m, e), e.(number := 0, follows := NextOf(m, e.task)), cutoff), log, Done)
  {
  }

  /**
   * In every run of a process an ephemeral event that is buffered now follows every durable event of its task that is
   * in the buffer, so no replay shows it before one of them.
   */
  lemma {:induction false} NumbersAreKnown(log: EventLog.Log, calls: seq<Call>)
    ensures NumbersKnown(AfterCalls(log, calls).0)
  {
    if calls != [] {
      var before := AfterCalls(log, calls[..|calls| - 1]);
      NumbersAreKnown(log, calls[..|calls| - 1]);
      match calls[|calls| - 1]
      case AppendCall(e, fault, cutoff) =>
        AppendKnows(before.0, before.1, e, fault, cutoff, Append(before.0, before.1, e, fault, cutoff).memory);
      case EvictCall(key) => SameBuffers(before.0, AfterCalls(log, calls).0);
    }
  }
}
