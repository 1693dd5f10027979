/**
 * The live fan-out of a service (internal/task/subscribers.go and the sends at the end of `appendEventRaw`): every
 * subscriber has a bounded channel that holds its replay first and takes later events as long as it has room.
 */
module Subscribers {
  import opened Common
  import opened Events

  /** The room a subscriber has for live events beyond its replay. */
  const SUBSCRIBER_BUFFER := 256

  /** A subscriber's channel. `replay`, `received` and `offered` only keep account of what went through it. */
  datatype Channel = Channel(task: string, queue: seq<Event>, capacity: nat, open: bool,
                             replay: seq<Event>, received: seq<Event>, offered: seq<Event>)

  /** `subs` is the registry by task; `channels` holds every channel there ever was. */
  datatype Hub = Hub(subs: map<string, set<nat>>, channels: map<nat, Channel>)

  const EMPTY := Hub(map[], map[])

  function SubsOf(subs: map<string, set<nat>>, task: string): set<nat> {
    if task in subs then subs[task] else {}
  }

  function Opened(task: string, items: seq<Event>): Channel {
    Channel(task, items, SUBSCRIBER_BUFFER + |items|, true, items, [], [])
  }

  /** A send that does not wait: without room the event is dropped. */
  function Offered(c: Channel, e: Event): Channel {
    var told := c.(offered := c.offered + [e]);
    if |c.queue| < c.capacity then told.(queue := c.queue + [e]) else told
  }

  function Taken(c: Channel): Channel {
    if c.queue == [] then c else c.(queue := c.queue[1..], received := c.received + [c.queue[0]])
  }

  function Closed(c: Channel): Channel {
    c.(open := false)
  }

  datatype Action =
    | Subscribe(id: nat, task: string, items: seq<Event>)
    | Publish(task: string, e: Event)
    | Receive(id: nat)
    | Remove(task: string, id: nat)
    | CloseAll

  function Registered(hub: Hub, id: nat, task: string, items: seq<Event>): Hub {
    Hub(hub.subs[task := SubsOf(hub.subs, task) + {id}], hub.channels[id := Opened(task, items)])
  }

  function Published(channels: map<nat, Channel>, to: set<nat>, e: Event): map<nat, Channel> {
    map id | id in channels :: if id in to then Offered(channels[id], e) else channels[id]
  }

  function Removed(hub: Hub, task: string, id: nat): Hub {
    if id in SubsOf(hub.subs, task) && id in hub.channels
    then Hub(hub.subs[task := hub.subs[task] - {id}], hub.channels[id := Closed(hub.channels[id])]) else hub
  }

  /** CloseAllSubscribers: only what is registered is still open. */
  function AllClosed(hub: Hub): Hub {
    Hub(map[], map id | id in hub.channels :: Closed(hub.channels[id]))
  }

  function Step(hub: Hub, a: Action): Hub {
    match a
    case Subscribe(id, task, items) => if id in hub.channels then hub else Registered(hub, id, task, items)
    case Publish(task, e) => hub.(channels := Published(hub.channels, SubsOf(hub.subs, task), e))
    case Receive(id) => if id in hub.channels then hub.(channels := hub.channels[id := Taken(hub.channels[id])])
        else hub
    case Remove(task, id) => Removed(hub, task, id)
    case CloseAll => AllClosed(hub)
  }

  function Run(hub: Hub, actions: seq<Action>): Hub {
    if actions == [] then hub else Step(Run(hub, actions[..|actions| - 1]), actions[|actions| - 1])
  }

  // ---- the invariant ----

  /** The registry holds exactly the open channels, each under its own task: no send and no close finds a closed one. */
  ghost predicate RegistryFits(hub: Hub) {
    forall task, id: nat :: IsRegistered(hub, task, id) <==> IsOpenFor(hub, task, id)
  }

  predicate IsRegistered(hub: Hub, task: string, id: nat) {
    id in SubsOf(hub.subs, task)
  }

  predicate IsOpenFor(hub: Hub, task: string, id: nat) {
    id in hub.channels && hub.channels[id].open && hub.channels[id].task == task
  }

  predicate IsSubsequence(a: seq<Event>, b: seq<Event>) {
    a == [] || (b != [] && (IsSubsequence(a, b[..|b| - 1])
        || (a[|a| - 1] == b[|b| - 1] && IsSubsequence(a[..|a| - 1], b[..|b| - 1]))))
  }

  function Through(c: Channel): seq<Event> {
    c.received + c.queue
  }

  /**
   * The replay comes first, then live events in their order; the first ones are never lost, however slow the reader is.
   */
  predicate ChannelFits(c: Channel) {
    && c.capacity == SUBSCRIBER_BUFFER + |c.replay| && |c.queue| <= c.capacity
    && IsSubsequence(Through(c), c.replay + c.offered)
    && c.replay + FirstOffered(c) <= Through(c)
  }

  /** The first live events, as many as the buffer holds beyond the replay. */
  function FirstOffered(c: Channel): seq<Event> {
    if |c.offered| <= SUBSCRIBER_BUFFER then c.offered else c.offered[..SUBSCRIBER_BUFFER]
  }

  lemma {:induction false} SubsequenceOfItself(a: seq<Event>)
    ensures IsSubsequence(a, a)
  {
    if a != [] {
      SubsequenceOfItself(a[..|a| - 1]);
    }
  }

  lemma SubsequenceExtends(a: seq<Event>, b: seq<Event>, e: Event)
    requires IsSubsequence(a, b)
    ensures IsSubsequence(a, b + [e]) && IsSubsequence(a + [e], b + [e])
  {
  }

  lemma OpenedFits(task: string, items: seq<Event>)
    ensures ChannelFits(Opened(task, items))
  {
    SubsequenceOfItself(items);
    assert [] + items == items && items + [] == items;
  }

  lemma OfferedFits(c: Channel, e: Event)
    requires ChannelFits(c)
    ensures ChannelFits(Offered(c, e))
  {
    var after := Offered(c, e);
    SubsequenceExtends(Through(c), c.replay + c.offered, e);
    assert c.replay + (c.offered + [e]) == (c.replay + c.offered) + [e];
    assert |c.queue| < c.capacity ==> Through(after) == Through(c) + [e];
    FirstOfferedKept(c, e);
  }

  lemma FirstOfferedKept(c: Channel, e: Event)
    requires ChannelFits(c)
    ensures c.replay + FirstOffered(Offered(c, e)) <= Through(Offered(c, e))
  {
    var after := Offered(c, e);
    if |c.offered| >= SUBSCRIBER_BUFFER {
      assert FirstOffered(after) == FirstOffered(c);
      assert Through(c) <= Through(after);
    } else {
      NothingLostYet(c);
      assert Through(after) == Through(c) + [e];
      assert c.replay + (c.offered + [e]) == (c.replay + c.offered) + [e];
    }
  }

  /** While fewer events were offered than the buffer holds, all of them are there and there is room for one more. */
  lemma NothingLostYet(c: Channel)
    requires ChannelFits(c) && |c.offered| < SUBSCRIBER_BUFFER
    ensures Through(c) == c.replay + c.offered && |c.queue| < c.capacity
  {
    SubsequenceIsShorter(Through(c), c.replay + c.offered);
  }

  lemma {:induction false} SubsequenceIsShorter(a: seq<Event>, b: seq<Event>)
    requires IsSubsequence(a, b)
    ensures |a| <= |b|
  {
    if a != [] {
      if IsSubsequence(a, b[..|b| - 1]) {
        SubsequenceIsShorter(a, b[..|b| - 1]);
      } else {
        SubsequenceIsShorter(a[..|a| - 1], b[..|b| - 1]);
      }
    }
  }

  lemma TakenFits(c: Channel)
    requires ChannelFits(c)
    ensures ChannelFits(Taken(c))
  {
    if c.queue != [] {
      assert Through(Taken(c)) == Through(c);
    }
  }

  ghost predicate Fits(hub: Hub) {
    RegistryFits(hub) && ChannelsFit(hub)
  }

  predicate ChannelsFit(hub: Hub) {
    forall id | id in hub.channels :: ChannelFits(hub.channels[id])
  }

  lemma RemoveKeeps(hub: Hub, task: string, id: nat)
    requires RegistryFits(hub)
    ensures RegistryFits(Removed(hub, task, id))
  {
    var after := Removed(hub, task, id);
    assert IsRegistered(hub, task, id) <==> IsOpenFor(hub, task, id);
    forall t, n: nat ensures IsRegistered(after, t, n) <==> IsOpenFor(after, t, n) {
      assert IsRegistered(hub, t, n) <==> IsOpenFor(hub, t, n);
    }
  }

  lemma SubscribeKeeps(hub: Hub, id: nat, task: string, items: seq<Event>)
    requires RegistryFits(hub) && id !in hub.channels
    ensures RegistryFits(Registered(hub, id, task, items))
  {
    var after := Registered(hub, id, task, items);
    forall t, n: nat ensures IsRegistered(after, t, n) <==> IsOpenFor(after, t, n) {
      assert IsRegistered(hub, t, n) <==> IsOpenFor(hub, t, n);
    }
  }

  lemma PublishKeeps(hub: Hub, task: string, e: Event)
    requires RegistryFits(hub)
    ensures RegistryFits(hub.(channels := Published(hub.channels, SubsOf(hub.subs, task), e)))
  {
    var after := hub.(channels := Published(hub.channels, SubsOf(hub.subs, task), e));
    forall t, n: nat ensures IsRegistered(after, t, n) <==> IsOpenFor(after, t, n) {
      assert IsRegistered(hub, t, n) <==> IsOpenFor(hub, t, n);
    }
  }

  lemma ReceiveKeeps(hub: Hub, id: nat)
    requires RegistryFits(hub) && id in hub.channels
    ensures RegistryFits(hub.(channels := hub.channels[id := Taken(hub.channels[id])]))
  {
    var after := hub.(channels := hub.channels[id := Taken(hub.channels[id])]);
    forall t, n: nat ensures IsRegistered(after, t, n) <==> IsOpenFor(after, t, n) {
      assert IsRegistered(hub, t, n) <==> IsOpenFor(hub, t, n);
    }
  }

  lemma RegistryKept(hub: Hub, a: Action)
    requires RegistryFits(hub)
    ensures RegistryFits(Step(hub, a))
  {
    match a
    case Subscribe(id, task, items) =>
      if id !in hub.channels {
        SubscribeKeeps(hub, id, task, items);
      }
    case Publish(task, e) => PublishKeeps(hub, task, e);
    case Receive(id) =>
      if id in hub.channels {
        ReceiveKeeps(hub, id);
      }
    case Remove(task, id) => RemoveKeeps(hub, task, id);
    case CloseAll =>
  }

  lemma ChannelsKept(hub: Hub, a: Action)
    requires ChannelsFit(hub)
    ensures ChannelsFit(Step(hub, a))
  {
    match a
    case Subscribe(id, task, items) => OpenedFits(task, items);
    case Publish(task, e) =>
      forall id | id in hub.channels ensures ChannelFits(Offered(hub.channels[id], e)) {
        OfferedFits(hub.channels[id], e);
      }
    case Receive(id) =>
      if id in hub.channels {
        TakenFits(hub.channels[id]);
      }
    case _ =>
  }

  lemma StepKeeps(hub: Hub, a: Action)
    requires Fits(hub)
    ensures Fits(Step(hub, a))
  {
    RegistryKept(hub, a);
    ChannelsKept(hub, a);
  }

  lemma {:induction false} RunKeeps(actions: seq<Action>)
    ensures Fits(Run(EMPTY, actions))
  {
    if actions != [] {
      RunKeeps(actions[..|actions| - 1]);
      StepKeeps(Run(EMPTY, actions[..|actions| - 1]), actions[|actions| - 1]);
    }
  }

  /**
   * Over every run of subscriptions, events, reads and closes: what a subscriber received or still has in its channel
   * is its replay followed by later events of its task in their order, and its first 256 live events are all there,
   * however many follow them and however slow the reader is.
   */
  lemma ReplayThenLive(actions: seq<Action>, id: nat)
    requires id in Run(EMPTY, actions).channels
    ensures var c := Run(EMPTY, actions).channels[id];
      && IsSubsequence(c.received + c.queue, c.replay + c.offered)
      && c.replay + FirstOffered(c) <= c.received + c.queue
  {
    RunKeeps(actions);
  }

  /** No event is sent to a closed channel, and no channel is closed twice: what is registered is open. */
  lemma RegisteredIsOpen(actions: seq<Action>, task: string, id: nat)
    ensures var hub := Run(EMPTY, actions);
      id in SubsOf(hub.subs, task) <==> id in hub.channels && hub.channels[id].open && hub.channels[id].task == task
  {
    RunKeeps(actions);
    assert IsRegistered(Run(EMPTY, actions), task, id) <==> IsOpenFor(Run(EMPTY, actions), task, id);
  }

  // ---- one channel on its own ----

  /** What an action does to one channel, its own actions and its task's events being all that counts. */
  function StepAlone(before: Option<Channel>, a: Action, id: nat): Option<Channel> {
    match a
    case Subscribe(entrant, task, items) =>
      if entrant == id && before.None? then Some(Channel(task, items, 256 + |items|, true, items, [], [])) else before
    case Publish(task, e) =>
      if before.None? || !before.value.open || before.value.task != task then before
      else
        var c := before.value.(offered := before.value.offered + [e]);
        Some(if |c.queue| < c.capacity then c.(queue := c.queue + [e]) else c)
    case Receive(reader) =>
      if reader == id && before.Some? && before.value.queue != [] then
        var c := before.value;
        Some(c.(received := c.received + [c.queue[0]], queue := c.queue[1..]))
      else before
    case Remove(task, gone) =>
      if gone == id && before.Some? && before.value.task == task then Some(before.value.(open := false)) else before
    case CloseAll => if before.Some? then Some(before.value.(open := false)) else before
  }

  function Alone(actions: seq<Action>, id: nat): Option<Channel> {
    if actions == [] then None else StepAlone(Alone(actions[..|actions| - 1], id), actions[|actions| - 1], id)
  }

  function ChannelOf(hub: Hub, id: nat): Option<Channel> {
    if id in hub.channels then Some(hub.channels[id]) else None
  }

  lemma StepIsAlone(hub: Hub, a: Action, id: nat)
    requires a.Publish? || a.Remove? ==> (id in SubsOf(hub.subs, a.task) <==> IsOpenFor(hub, a.task, id))
    ensures ChannelOf(Step(hub, a), id) == StepAlone(ChannelOf(hub, id), a, id)
  {
  }

  /**
   * No subscriber is disturbed by another, or by another task's events: in every run each channel is what it would be
   * alone, the replay first and then every event of its task while it is open and has room.
   */
  lemma {:induction false} EachIsAlone(actions: seq<Action>, id: nat)
    ensures ChannelOf(Run(EMPTY, actions), id) == Alone(actions, id)
  {
    if actions != [] {
      var front, last := actions[..|actions| - 1], actions[|actions| - 1];
      EachIsAlone(front, id);
      if last.Publish? || last.Remove? {
        RegisteredIsOpen(front, last.task, id);
      }
      StepIsAlone(Run(EMPTY, front), last, id);
    }
  }

  // ---- the service's own methods ----

  lemma OnlyOpenOnes(hub: Hub, task: string)
    requires RegistryFits(hub)
    ensures forall id | id in SubsOf(hub.subs, task) :: id in hub.channels && hub.channels[id].open
  {
    forall id | id in SubsOf(hub.subs, task) ensures id in hub.channels && hub.channels[id].open {
      assert IsRegistered(hub, task, id) <==> IsOpenFor(hub, task, id);
    }
  }

  class FanOut {
    var subs: map<string, set<nat>>
    var channels: map<nat, Channel>

    ghost predicate Valid()
      reads this
    {
      Fits(Hub(subs, channels))
    }

    constructor ()
      ensures Valid() && Hub(subs, channels) == EMPTY
    {
      subs, channels := map[], map[];
    }

    /** The whole replay is queued under the lock, so the channel must have room for it. */
    method QueueReplay(items: seq<Event>) returns (queue: seq<Event>)
      ensures queue == items
    {
      queue := [];
      for i := 0 to |items|
        invariant queue == items[..i] && |queue| < SUBSCRIBER_BUFFER + |items|
      {
        queue := queue + [items[i]];
      }
    }

    method Subscribe(id: nat, task: string, items: seq<Event>)
      requires Valid() && id !in channels
      modifies this
      ensures Valid() && Hub(subs, channels) == Step(Hub(old(subs), old(channels)), Action.Subscribe(id, task, items))
    {
      StepKeeps(Hub(subs, channels), Action.Subscribe(id, task, items));
      var queue := QueueReplay(items);
      if task !in subs {
        subs := subs[task := {}];
      }
      subs := subs[task := subs[task] + {id}];
      channels := channels[id := Channel(task, queue, SUBSCRIBER_BUFFER + |items|, true, items, [], [])];
      assert Hub(subs, channels) == Registered(Hub(old(subs), old(channels)), id, task, items);
    }

    /** Sends that do not wait, to open channels only, in any order. */
    method Send(to: set<nat>, e: Event)
      requires forall id | id in to :: id in channels && channels[id].open
      modifies this`channels
      ensures channels == Published(old(channels), to, e)
    {
      var rest := to;
      while rest != {}
        invariant rest <= to && channels == Published(old(channels), to - rest, e)
      {
        var id :| id in rest;
        assert old(channels)[id].open;
        channels := channels[id := Offered(channels[id], e)];
        rest := rest - {id};
      }
      assert to - {} == to;
    }

    /** One event to the subscribers of its task. */
    method Publish(task: string, e: Event)
      requires Valid()
      modifies this`channels
      ensures Valid() && Hub(subs, channels) == Step(Hub(subs, old(channels)), Action.Publish(task, e))
    {
      StepKeeps(Hub(subs, channels), Action.Publish(task, e));
      OnlyOpenOnes(Hub(subs, channels), task);
      Send(SubsOf(subs, task), e);
    }

    method RemoveSubscriber(task: string, id: nat)
      requires Valid()
      modifies this
      ensures Valid() && Hub(subs, channels) == Step(Hub(old(subs), old(channels)), Remove(task, id))
    {
      StepKeeps(Hub(subs, channels), Remove(task, id));
      OnlyOpenOnes(Hub(subs, channels), task);
      if task in subs && id in subs[task] {
        assert channels[id].open;
        subs := subs[task := subs[task] - {id}];
        channels := channels[id := Closed(channels[id])];
      }
    }
  }
}
