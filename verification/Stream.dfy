/**
 * One client's event stream (`eventSender` in internal/httpapi/task_events.go): a lossy live channel combined with
 * reads of the log. An event with a number becomes a frame with an id, which is the client's Last-Event-ID when it
 * reconnects (sections 9.2.4 and 9.2.6 of the WHATWG HTML Living Standard).
 */
module Stream {
  import opened Common
  import opened Events
  import opened Replay

  // ---- the sender ----

  /** `room` is how many more frames the client will take; a write after that fails and the handler ends the stream. */
  datatype Sender = Sender(lastSent: nat, frames: seq<Event>, room: nat, ended: bool)

  function Written(s: Sender, e: Event): Sender {
    if s.ended || 0 < e.number <= s.lastSent then s
    else
      var moved := if e.number > 0 then s.(lastSent := e.number) else s;
      if s.room == 0 then moved.(ended := true) else moved.(frames := s.frames + [e], room := s.room - 1)
  }

  function CaughtUp(s: Sender, items: seq<Event>): Sender
    decreases |items|
  {
    if items == [] then s
    else if items[0].number == 0 then CaughtUp(s, items[1..])
    else CaughtUp(Written(s, items[0]), items[1..])
  }

  /** `read` is what a read of the log would return now; None when it fails. */
  function Delivered(s: Sender, e: Event, read: Option<seq<Event>>): Sender {
    if e.number > s.lastSent + 1 then (if read.Some? then CaughtUp(s, read.value) else s) else Written(s, e)
  }

  class EventSender {
    var lastSent: nat
    var frames: seq<Event>
    var room: nat

    constructor (after: nat, room: nat)
      ensures lastSent == after && frames == [] && this.room == room
    {
      lastSent, frames, this.room := after, [], room;
    }

    ghost function State(ended: bool): Sender
      reads this
    {
      Sender(lastSent, frames, room, ended)
    }

    method Emit(e: Event) returns (ok: bool)
      modifies this`frames, this`room
      ensures ok <==> old(room) > 0
      ensures if ok then frames == old(frames) + [e] && room == old(room) - 1 else frames == old(frames) && room == 0
    {
      ok := room > 0;
      if ok {
        frames := frames + [e];
        room := room - 1;
      }
    }

    method Write(e: Event) returns (ok: bool)
      modifies this
      ensures State(!ok) == Written(old(State(false)), e)
    {
      if e.number > 0 {
        if e.number <= lastSent {
          return true;
        }
        lastSent := e.number;
      }
      ok := Emit(e);
    }

    method CatchUp(read: Option<seq<Event>>) returns (ok: bool)
      modifies this
      ensures State(!ok) == if read.Some? then CaughtUp(old(State(false)), read.value) else old(State(false))
    {
      if read.None? {
        return true;
      }
      ok := true;
      var items := read.value;
      for i := 0 to |items|
        invariant ok
        invariant CaughtUp(old(State(false)), items) == CaughtUp(State(false), items[i..])
      {
        assert items[i..][1..] == items[i + 1..];
        if items[i].number != 0 {
          ok := Write(items[i]);
          if !ok {
            EndedStays(State(true), items[i + 1..]);
            return;
          }
        }
      }
    }

    method Deliver(e: Event, read: Option<seq<Event>>) returns (ok: bool)
      modifies this
      ensures State(!ok) == Delivered(old(State(false)), e, read)
    {
      if e.number > lastSent + 1 {
        ok := CatchUp(read);
      } else {
        ok := Write(e);
      }
    }
  }

  lemma {:induction false} EndedStays(s: Sender, items: seq<Event>)
    requires s.ended
    ensures CaughtUp(s, items) == s
  {
    if items != [] {
      EndedStays(s, items[1..]);
    }
  }

  // ---- the system around it ----

  /** The task's log as it grows, and the client's stream. */
  datatype World = World(log: seq<Event>, sender: Sender)

  /** A read of the log: how much of it was there, and which events were buffered. */
  datatype Reading = Reading(head: nat, buffered: seq<Event>)

  datatype Action =
    | Grow(e: Event)                            // the projector appends, on any replica
    | Live(e: Event, read: Option<Reading>)     // the local fan-out delivers, with losses, repetitions, in any order
    | Poll(read: Option<Reading>)               // the catch-up tick

  function Fetched(log: seq<Event>, read: Reading, after: nat): seq<Event>
    requires read.head <= |log|
  {
    Merged(if after <= read.head then log[after..read.head] else [], read.buffered, after)
  }

  /** What the service does: numbers the log, delivers only what the log or the buffer holds, reads what is there. */
  predicate Possible(w: World, a: Action) {
    match a
    case Grow(e) => e.durable && e.number == |w.log| + 1
    case Live(e, read) =>
      && (if e.durable then 0 < e.number <= |w.log| && w.log[e.number - 1] == e else e.number == 0)
      && (read.Some? ==> read.value.head <= |w.log| && Unnumbered(read.value.buffered))
    case Poll(read) => read.Some? ==> read.value.head <= |w.log| && Unnumbered(read.value.buffered)
  }

  function Read(w: World, read: Option<Reading>): Option<seq<Event>>
    requires read.Some? ==> read.value.head <= |w.log|
  {
    if read.Some? then Some(Fetched(w.log, read.value, w.sender.lastSent)) else None
  }

  function Step(w: World, a: Action): World {
    if !Possible(w, a) || (w.sender.ended && !a.Grow?) then w else
      match a
      case Grow(e) => w.(log := w.log + [e])
      case Live(e, read) => w.(sender := Delivered(w.sender, e, Read(w, read)))
      case Poll(read) => if read.None? then w else w.(sender := CaughtUp(w.sender, Read(w, read).value))
  }

  function Run(w: World, actions: seq<Action>): World {
    if actions == [] then w else Step(Run(w, actions[..|actions| - 1]), actions[|actions| - 1])
  }

  // ---- what every step keeps ----

  /** The log entries after `a` up to and including number `b`. */
  function Slice(log: seq<Event>, a: nat, b: nat): seq<Event> {
    if a < b <= |log| then log[a..b] else []
  }

  /** How far the client's own cursor got. */
  function Cursor(s: Sender, after: nat): nat {
    after + |Filter(IsDurable, s.frames)|
  }

  ghost predicate Faithful(w: World, after: nat) {
    && Numbered(w.log)
    && after <= w.sender.lastSent && (w.sender.lastSent == after || w.sender.lastSent <= |w.log|)
    && Cursor(w.sender, after) <= w.sender.lastSent
    && Filter(IsDurable, w.sender.frames) == Slice(w.log, after, Cursor(w.sender, after))
    && (!w.sender.ended ==> Cursor(w.sender, after) == w.sender.lastSent)
  }

  /** Writing the next log entry, or an ephemeral event. */
  lemma WriteKeeps(w: World, after: nat, e: Event)
    requires Faithful(w, after) && !w.sender.ended
    requires if e.durable then w.sender.lastSent < |w.log| && e == w.log[w.sender.lastSent] else e.number == 0
    ensures Faithful(w.(sender := Written(w.sender, e)), after)
    ensures !e.durable ==> Written(w.sender, e).lastSent == w.sender.lastSent
  {
    var s := w.sender;
    var n := Cursor(s, after);
    if s.room > 0 {
      FilterMore(s.frames, e);
      if e.durable {
        SliceGrows(w.log, after, n);
      }
    }
  }

  lemma FilterMore(frames: seq<Event>, e: Event)
    ensures Filter(IsDurable, frames + [e]) == Filter(IsDurable, frames) + if e.durable then [e] else []
  {
    assert (frames + [e])[..|frames|] == frames;
  }

  lemma SliceGrows(log: seq<Event>, a: nat, b: nat)
    requires a <= b < |log|
    ensures Slice(log, a, b + 1) == Slice(log, a, b) + [log[b]]
  {
  }

  lemma FilterFirst(keep: Event -> bool, items: seq<Event>)
    requires items != []
    ensures Filter(keep, items) == (if keep(items[0]) then [items[0]] else []) + Filter(keep, items[1..])
  {
    FilterConcat(keep, [items[0]], items[1..]);
    assert items == [items[0]] + items[1..] && [items[0]][..0] == [];
  }

  /** The durable events of `items` are the next ones of the log. */
  ghost predicate Continues(w: World, items: seq<Event>) {
    && Unnumbered(items)
    && (w.sender.lastSent + |Filter(IsDurable, items)| <= |w.log| || Filter(IsDurable, items) == [])
    && Filter(IsDurable, items) == Slice(w.log, w.sender.lastSent, w.sender.lastSent + |Filter(IsDurable, items)|)
  }

  lemma EphemeralFirst(w: World, items: seq<Event>)
    requires Continues(w, items) && items != [] && !items[0].durable
    ensures items[0].number == 0 && Continues(w, items[1..])
        && Filter(IsDurable, items) == Filter(IsDurable, items[1..])
  {
    assert items[0] in items;
    FilterFirst(IsDurable, items);
  }

  /** `first` is the next log entry, and `rest` what comes after it of the entries `all`. */
  predicate NextIs(log: seq<Event>, at: nat, all: seq<Event>, first: Event, rest: seq<Event>) {
    at < |log| && first == log[at] && rest == Slice(log, at + 1, at + |all|) && |all| == 1 + |rest|
  }

  lemma SliceSplits(log: seq<Event>, at: nat, all: seq<Event>, first: Event, rest: seq<Event>)
    requires all == [first] + rest && all == Slice(log, at, at + |all|)
    ensures NextIs(log, at, all, first, rest)
  {
  }

  lemma DurableFirst(w: World, items: seq<Event>)
    requires Continues(w, items) && items != [] && items[0].durable
    ensures NextIs(w.log, w.sender.lastSent, Filter(IsDurable, items), items[0], Filter(IsDurable, items[1..]))
  {
    FilterFirst(IsDurable, items);
    SliceSplits(w.log, w.sender.lastSent, Filter(IsDurable, items), items[0], Filter(IsDurable, items[1..]));
  }

  lemma ContinuesAfterTheFirst(w: World, after: nat, items: seq<Event>)
    requires Faithful(w, after) && !w.sender.ended && Continues(w, items) && items != [] && items[0].durable
    ensures var w' := w.(sender := Written(w.sender, items[0]));
      Faithful(w', after) && Continues(w', items[1..]) && w'.sender.lastSent == w.sender.lastSent + 1 == items[0].number
  {
    DurableFirst(w, items);
    WriteKeeps(w, after, items[0]);
  }

  lemma {:induction false} CatchUpKeeps(w: World, after: nat, items: seq<Event>)
    requires Faithful(w, after) && Continues(w, items)
    ensures Faithful(w.(sender := CaughtUp(w.sender, items)), after)
    ensures !CaughtUp(w.sender, items).ended ==>
              CaughtUp(w.sender, items).lastSent == w.sender.lastSent + |Filter(IsDurable, items)|
    decreases |items|
  {
    if items != [] {
      if w.sender.ended {
        EndedStays(w.sender, items);
      } else if !items[0].durable {
        EphemeralFirst(w, items);
        CatchUpKeeps(w, after, items[1..]);
      } else {
        DurableFirst(w, items);
        ContinuesAfterTheFirst(w, after, items);
        CatchUpKeeps(w.(sender := Written(w.sender, items[0])), after, items[1..]);
      }
    }
  }

  /**
   * What a read returns: the durable events after the cursor up to the head it saw, and ephemeral ones between them.
   */
  lemma FetchFacts(log: seq<Event>, read: Reading, after: nat)
    requires Numbered(log) && read.head <= |log| && Unnumbered(read.buffered)
    ensures Filter(IsDurable, Fetched(log, read, after)) == Slice(log, after, read.head)
    ensures Unnumbered(Fetched(log, read, after))
  {
    var seen := log[..read.head];
    var kept := Filter(Kept(after), read.buffered);
    FilterMembers(Kept(after), read.buffered);
    if after <= read.head {
      DurablePart(seen, read.buffered, after);
      SortMembers(seen[after..] + kept);
      assert seen[after..] == log[after..read.head];
    } else {
      assert [] + kept == kept;
      FilterSort(IsDurable, kept);
      FilterNone(IsDurable, kept);
      SortMembers(kept);
    }
  }

  lemma ReadKeeps(w: World, after: nat, read: Reading)
    requires Faithful(w, after) && read.head <= |w.log| && Unnumbered(read.buffered)
    ensures var caught := CaughtUp(w.sender, Fetched(w.log, read, w.sender.lastSent));
            Faithful(w.(sender := caught), after) && (!caught.ended ==> caught.lastSent >= read.head)
  {
    FetchFacts(w.log, read, w.sender.lastSent);
    CatchUpKeeps(w, after, Fetched(w.log, read, w.sender.lastSent));
  }

  lemma GrowKeeps(w: World, after: nat, e: Event)
    requires Faithful(w, after) && e.durable && e.number == |w.log| + 1
    ensures Faithful(w.(log := w.log + [e]), after)
  {
  }

  lemma StepKeeps(w: World, after: nat, a: Action)
    requires Faithful(w, after)
    ensures Faithful(Step(w, a), after)
  {
    if Possible(w, a) {
      match a
      case Grow(e) => GrowKeeps(w, after, e);
      case Live(e, read) =>
        if !w.sender.ended {
          if e.number <= w.sender.lastSent + 1 {
            if !e.durable || e.number == w.sender.lastSent + 1 {
              WriteKeeps(w, after, e);
            }
          } else if read.Some? {
            ReadKeeps(w, after, read.value);
          }
        }
      case Poll(read) =>
        if !w.sender.ended && read.Some? {
          ReadKeeps(w, after, read.value);
        }
    }
  }

  lemma {:induction false} RunKeeps(w: World, after: nat, actions: seq<Action>)
    requires Faithful(w, after)
    ensures Faithful(Run(w, actions), after) && w.log <= Run(w, actions).log
  {
    if actions != [] {
      RunKeeps(w, after, actions[..|actions| - 1]);
      StepKeeps(Run(w, actions[..|actions| - 1]), after, actions[|actions| - 1]);
    }
  }

  // ---- the guarantees ----

  function Opened(log: seq<Event>, after: nat, room: nat): World {
    World(log, Sender(after, [], room, false))
  }

  /**
   * Stream safety. Whatever is appended, lost, repeated, delivered out of order or read in vain, the durable events a
   * client gets from cursor `after` are exactly the log entries after it, in order, each once, up to its own cursor,
   * which is lastSent as long as the stream is open. It holds for every cursor, also one beyond the head of the log.
   */
  lemma StreamSafety(log: seq<Event>, after: nat, room: nat, actions: seq<Action>)
    requires Numbered(log)
    ensures var w := Run(Opened(log, after, room), actions);
      && Filter(IsDurable, w.sender.frames) == Slice(w.log, after, Cursor(w.sender, after))
      && (!w.sender.ended ==> Filter(IsDurable, w.sender.frames) == Slice(w.log, after, w.sender.lastSent))
      && forall k | 0 <= k < |Filter(IsDurable, w.sender.frames)| ::
          Filter(IsDurable, w.sender.frames)[k].number == after + k + 1
  {
    RunKeeps(Opened(log, after, room), after, actions);
    var w := Run(Opened(log, after, room), actions);
    var durable := Filter(IsDurable, w.sender.frames);
    assert forall k | 0 <= k < |durable| :: durable[k] == w.log[after + k];
  }

  /** An ephemeral event never moves the cursor, and it is always sent while the stream is open. */
  lemma EphemeralMovesNothing(w: World, e: Event, read: Option<Reading>)
    requires Possible(w, Live(e, read)) && !e.durable && !w.sender.ended
    ensures Step(w, Live(e, read)).sender.lastSent == w.sender.lastSent
    ensures w.sender.room > 0 ==> Step(w, Live(e, read)).sender.frames == w.sender.frames + [e]
  {
  }

  /** A catch-up that reads the log and is not cut off brings the client to the head it read, or beyond. */
  lemma CatchUpReachesTheHead(log: seq<Event>, after: nat, room: nat, actions: seq<Action>, read: Reading)
    requires Numbered(log)
    requires Possible(Run(Opened(log, after, room), actions), Poll(Some(read)))
    ensures var w := Run(Opened(log, after, room), actions + [Poll(Some(read))]);
            !w.sender.ended ==> w.sender.lastSent >= read.head
  {
    var w := Run(Opened(log, after, room), actions);
    RunKeeps(Opened(log, after, room), after, actions);
    assert (actions + [Poll(Some(read))])[..|actions|] == actions;
    if !w.sender.ended {
      ReadKeeps(w, after, read);
    }
  }

  /**
   * Reconnecting: a client that comes back with the last id it saw, whatever cut the first stream off, has after both
   * streams exactly the log entries after its first cursor, in order and without a gap or a repetition.
   */
  lemma ReconnectIsSeamless(log: seq<Event>, after: nat, room: nat, first: seq<Action>, between: seq<Event>,
                            room': nat, second: seq<Action>)
    requires Numbered(log)
    requires var w := Run(Opened(log, after, room), first); Numbered(w.log + between)
    ensures var w := Run(Opened(log, after, room), first);
            var seen := Cursor(w.sender, after);
            var w' := Run(Opened(w.log + between, seen, room'), second);
            Filter(IsDurable, w.sender.frames) + Filter(IsDurable, w'.sender.frames) ==
                Slice(w'.log, after, Cursor(w'.sender, seen))
  {
    var w := Run(Opened(log, after, room), first);
    RunKeeps(Opened(log, after, room), after, first);
    var seen := Cursor(w.sender, after);
    var start := Opened(w.log + between, seen, room');
    RunKeeps(start, seen, second);
    var w' := Run(start, second);
    SlicesJoin(w.log, w'.log, after, seen, Cursor(w'.sender, seen));
  }

  lemma SlicesJoin(before: seq<Event>, log: seq<Event>, a: nat, b: nat, c: nat)
    requires before <= log && a <= b <= c && (a == b || b <= |before|) && (b == c || c <= |log|)
    ensures Slice(before, a, b) + Slice(log, b, c) == Slice(log, a, c)
  {
  }

  // ---- the ephemeral events, and the gaps ----

  /** The ephemeral events that the fan-out delivered, in order. */
  function LiveEphemeral(start: World, actions: seq<Action>): seq<Event> {
    if actions == [] then [] else
      var front, last := actions[..|actions| - 1], actions[|actions| - 1];
      LiveEphemeral(start, front) +
      if last.Live? && !last.e.durable && Possible(Run(start, front), last) then [last.e] else []
  }

  /** The client has all of them, or the first ones when its stream ended. */
  predicate Follows(s: Sender, live: seq<Event>) {
    var sent := Filter(IsEphemeral, s.frames);
    if s.ended then sent <= live else sent == live
  }

  lemma {:induction false} CatchUpSendsDurable(s: Sender, items: seq<Event>)
    requires forall e | e in items && e.number != 0 :: e.durable
    ensures Filter(IsEphemeral, CaughtUp(s, items).frames) == Filter(IsEphemeral, s.frames)
    ensures s.ended ==> CaughtUp(s, items).ended
    decreases |items|
  {
    if items != [] {
      assert items[0] in items && forall e | e in items[1..] :: e in items;
      if items[0].number == 0 {
        CatchUpSendsDurable(s, items[1..]);
      } else {
        FilterLast(IsEphemeral, s.frames, items[0]);
        assert Filter(IsEphemeral, s.frames) + [] == Filter(IsEphemeral, s.frames);
        CatchUpSendsDurable(Written(s, items[0]), items[1..]);
      }
    }
  }

  lemma ReadSendsDurable(w: World, read: Reading)
    requires Numbered(w.log) && read.head <= |w.log| && Unnumbered(read.buffered)
    ensures var caught := CaughtUp(w.sender, Fetched(w.log, read, w.sender.lastSent));
      && Filter(IsEphemeral, caught.frames) == Filter(IsEphemeral, w.sender.frames)
      && (w.sender.ended ==> caught.ended)
  {
    FetchFacts(w.log, read, w.sender.lastSent);
    CatchUpSendsDurable(w.sender, Fetched(w.log, read, w.sender.lastSent));
  }

  lemma StepFollows(w: World, a: Action, live: seq<Event>)
    requires Numbered(w.log) && Follows(w.sender, live)
    ensures Follows(Step(w, a).sender, live + if a.Live? && !a.e.durable && Possible(w, a) then [a.e] else [])
  {
    if Possible(w, a) && !w.sender.ended {
      match a
      case Grow(e) =>
      case Live(e, read) =>
        FilterLast(IsEphemeral, w.sender.frames, e);
        assert Filter(IsEphemeral, w.sender.frames) + [] == Filter(IsEphemeral, w.sender.frames);
        if e.number > w.sender.lastSent + 1 && read.Some? {
          ReadSendsDurable(w, read.value);
        }
      case Poll(read) =>
        if read.Some? {
          ReadSendsDurable(w, read.value);
        }
    }
  }

  /**
   * The ephemeral events a client gets are those the fan-out delivered to it, in order, as long as the stream is open:
   * a read of the log never adds one, whatever the buffer holds.
   */
  lemma {:induction false} EphemeralOnlyLive(log: seq<Event>, after: nat, room: nat, actions: seq<Action>)
    requires Numbered(log)
    ensures Follows(Run(Opened(log, after, room), actions).sender, LiveEphemeral(Opened(log, after, room), actions))
  {
    if actions != [] {
      var front := actions[..|actions| - 1];
      EphemeralOnlyLive(log, after, room, front);
      RunKeeps(Opened(log, after, room), after, front);
      StepFollows(Run(Opened(log, after, room), front), actions[|actions| - 1],
          LiveEphemeral(Opened(log, after, room), front));
    }
  }

  /**
   * A live durable event with a gap before it is not sent past the gap: a read that holds it brings the client to it,
   * and without a read nothing is sent. Without a gap it is sent at once.
   */
  lemma GapsAreRead(log: seq<Event>, after: nat, room: nat, actions: seq<Action>, e: Event, read: Option<Reading>)
    requires Numbered(log) && e.durable
    requires Possible(Run(Opened(log, after, room), actions), Live(e, read))
    requires !Run(Opened(log, after, room), actions).sender.ended
    ensures var w := Run(Opened(log, after, room), actions); var s := Step(w, Live(e, read)).sender;
      && (e.number > w.sender.lastSent + 1 && read.None? ==> s == w.sender)
      && (e.number > w.sender.lastSent + 1 && read.Some? && read.value.head >= e.number ==>
            s.ended || s.lastSent >= e.number)
      && (e.number == w.sender.lastSent + 1 ==>
            if w.sender.room > 0 then s.frames == w.sender.frames + [e] && s.lastSent == e.number && !s.ended
                else s.ended)
      && (e.number <= w.sender.lastSent ==> s == w.sender)
  {
    var w := Run(Opened(log, after, room), actions);
    RunKeeps(Opened(log, after, room), after, actions);
    if e.number > w.sender.lastSent + 1 && read.Some? {
      ReadKeeps(w, after, read.value);
    }
  }
}
