/**
 * Replaying a task's events: the durable events of the log merged with the ephemeral ones still in memory
 * (`withLiveEvents` and the buffer trim of `appendEventRaw` in internal/task/events.go).
 */
module Replay {
  import opened Common
  import opened Events

  // ---- the merge ----

  function Position(e: Event): nat {
    if e.durable || e.number > 0 then e.number * 2 else e.follows * 2 + 1
  }

  predicate NoneLater(items: seq<Event>, e: Event) {
    forall x | x in items :: Position(x) <= Position(e)
  }

  predicate Ascending(items: seq<Event>) {
    items == [] || (Ascending(items[..|items| - 1]) && NoneLater(items[..|items| - 1], items[|items| - 1]))
  }

  /** Insert after everything that does not come later. */
  function Place(items: seq<Event>, e: Event): seq<Event> {
    if items == [] || Position(items[|items| - 1]) <= Position(e) then items + [e]
    else Place(items[..|items| - 1], e) + [items[|items| - 1]]
  }

  /** The stable sort by position. */
  function StableSorted(items: seq<Event>): seq<Event> {
    if items == [] then [] else Place(StableSorted(items[..|items| - 1]), items[|items| - 1])
  }

  function Kept(after: nat): Event -> bool {
    (e: Event) => !e.durable && e.follows >= after
  }

  function Merged(durable: seq<Event>, buffered: seq<Event>, after: nat): seq<Event> {
    StableSorted(durable + Filter(Kept(after), buffered))
  }

  method WithLiveEvents(durable: seq<Event>, buffered: seq<Event>, after: nat) returns (merged: seq<Event>)
    ensures merged == Merged(durable, buffered, after)
  {
    merged := durable;
    assert durable + Filter(Kept(after), buffered[..0]) == durable;
    for i := 0 to |buffered|
      invariant merged == durable + Filter(Kept(after), buffered[..i])
    {
      assert buffered[..i + 1][..i] == buffered[..i];
      if !buffered[i].durable && buffered[i].follows >= after {
        merged := merged + [buffered[i]];
      }
    }
    assert buffered[..|buffered|] == buffered;
    merged := SortStable(merged);
  }

  /** sort.SliceStable by position, as an insertion sort. */
  method SortStable(items: seq<Event>) returns (sorted: seq<Event>)
    ensures sorted == StableSorted(items)
  {
    sorted := [];
    for i := 0 to |items|
      invariant sorted == StableSorted(items[..i])
    {
      assert items[..i + 1][..i] == items[..i];
      var at := |sorted|;
      assert Place(sorted, items[i]) == Place(sorted[..at], items[i]) + sorted[at..] by {
        assert sorted[..at] == sorted;
      }
      while at > 0 && Position(sorted[at - 1]) > Position(items[i])
        invariant 0 <= at <= |sorted|
        invariant Place(sorted, items[i]) == Place(sorted[..at], items[i]) + sorted[at..]
      {
        PlaceOneLower(sorted, at, items[i]);
        at := at - 1;
      }
      sorted := sorted[..at] + [items[i]] + sorted[at..];
    }
    assert items[..|items|] == items;
  }

  lemma PlaceOneLower(items: seq<Event>, at: nat, e: Event)
    requires 0 < at <= |items| && Position(items[at - 1]) > Position(e)
    ensures Place(items[..at], e) + items[at..] == Place(items[..at - 1], e) + items[at - 1..]
  {
    assert items[..at][..at - 1] == items[..at - 1];
    assert [items[at - 1]] + items[at..] == items[at - 1..];
  }

  // ---- facts about the sort ----

  lemma {:induction false} PlaceMembers(items: seq<Event>, e: Event)
    ensures multiset(Place(items, e)) == multiset(items) + multiset{e}
    ensures forall x :: x in Place(items, e) <==> x in items || x == e
  {
    if !(items == [] || Position(items[|items| - 1]) <= Position(e)) {
      PlaceMembers(items[..|items| - 1], e);
      assert items == items[..|items| - 1] + [items[|items| - 1]];
    }
  }

  lemma {:induction false} PlaceAscends(items: seq<Event>, e: Event)
    requires Ascending(items)
    ensures Ascending(Place(items, e))
  {
    if items == [] || Position(items[|items| - 1]) <= Position(e) {
      assert (items + [e])[..|items|] == items;
      assert items != [] ==> items == items[..|items| - 1] + [items[|items| - 1]];
    } else {
      var front, last := items[..|items| - 1], items[|items| - 1];
      PlaceAscends(front, e);
      PlaceMembers(front, e);
      assert (Place(front, e) + [last])[..|Place(front, e)|] == Place(front, e);
    }
  }

  lemma AscendingLast(items: seq<Event>)
    requires Ascending(items) && items != []
    ensures NoneLater(items, items[|items| - 1])
  {
  }

  lemma PlaceAtEnd(items: seq<Event>, e: Event)
    requires NoneLater(items, e)
    ensures Place(items, e) == items + [e]
  {
  }

  lemma PlaceBefore(items: seq<Event>, last: Event, e: Event)
    requires Position(last) > Position(e)
    ensures Place(items + [last], e) == Place(items, e) + [last]
  {
  }

  lemma FilterAtEnd(keep: Event -> bool, items: seq<Event>, e: Event)
    requires Ascending(items) && (items == [] || Position(items[|items| - 1]) <= Position(e))
    ensures NoneLater(items, e) && NoneLater(Filter(keep, items), e)
  {
    if items != [] {
      AscendingLast(items);
    }
    FilterMembers(keep, items);
  }

  lemma {:induction false} FilterPlace(keep: Event -> bool, items: seq<Event>, e: Event)
    requires Ascending(items)
    ensures Filter(keep, Place(items, e)) == if keep(e) then Place(Filter(keep, items), e) else Filter(keep, items)
  {
    var kept := Filter(keep, items);
    if items == [] || Position(items[|items| - 1]) <= Position(e) {
      FilterAtEnd(keep, items, e);
      PlaceAtEnd(items, e);
      PlaceAtEnd(kept, e);
      FilterLast(keep, items, e);
    } else {
      var front, last := items[..|items| - 1], items[|items| - 1];
      var keptFront := Filter(keep, front);
      FilterPlace(keep, front, e);
      FilterLast(keep, Place(front, e), last);
      PlaceBefore(keptFront, last, e);
      var placed := Filter(keep, Place(items, e));
      assert placed == Filter(keep, Place(front, e)) + if keep(last) then [last] else [];
      if keep(last) {
        assert kept == keptFront + [last];
      } else {
        assert kept == keptFront + [] == keptFront;
      }
    }
  }

  lemma {:induction false} SortMembers(items: seq<Event>)
    ensures multiset(StableSorted(items)) == multiset(items)
    ensures forall x :: x in StableSorted(items) <==> x in items
  {
    if items != [] {
      var front, last := items[..|items| - 1], items[|items| - 1];
      SortMembers(front);
      PlaceMembers(StableSorted(front), last);
      assert items == front + [last];
      SameMembers(StableSorted(items), items);
    }
  }

  lemma SameMembers(a: seq<Event>, b: seq<Event>)
    requires multiset(a) == multiset(b)
    ensures forall x :: x in a <==> x in b
  {
    assert forall x :: x in a <==> x in multiset(a);
    assert forall x :: x in b <==> x in multiset(b);
  }

  lemma {:induction false} SortAscends(items: seq<Event>)
    ensures Ascending(StableSorted(items))
  {
    if items != [] {
      SortAscends(items[..|items| - 1]);
      PlaceAscends(StableSorted(items[..|items| - 1]), items[|items| - 1]);
    }
  }

  lemma {:induction false} SortedAlready(items: seq<Event>)
    requires Ascending(items)
    ensures StableSorted(items) == items
  {
    if items != [] {
      var front, last := items[..|items| - 1], items[|items| - 1];
      SortedAlready(front);
      PlaceAtEnd(front, last);
      assert items == front + [last];
    }
  }

  lemma SortLast(items: seq<Event>, e: Event)
    ensures StableSorted(items + [e]) == Place(StableSorted(items), e)
  {
  }

  /** Filtering and stable sorting commute, whatever is filtered: the sort keeps the order of equals. */
  lemma {:induction false} FilterSort(keep: Event -> bool, items: seq<Event>)
    ensures Filter(keep, StableSorted(items)) == StableSorted(Filter(keep, items))
  {
    if items != [] {
      var front, last := items[..|items| - 1], items[|items| - 1];
      FilterSort(keep, front);
      SortAscends(front);
      FilterPlace(keep, StableSorted(front), last);
      assert StableSorted(items) == Place(StableSorted(front), last);
      if keep(last) {
        SortLast(Filter(keep, front), last);
        assert Filter(keep, items) == Filter(keep, front) + [last];
      } else {
        assert Filter(keep, items) == Filter(keep, front) + [] == Filter(keep, front);
      }
    }
  }

  lemma {:induction false} FilterAscends(keep: Event -> bool, items: seq<Event>)
    requires Ascending(items)
    ensures Ascending(Filter(keep, items))
  {
    if items != [] {
      var front, last := items[..|items| - 1], items[|items| - 1];
      var kept := Filter(keep, front);
      FilterAscends(keep, front);
      if keep(last) {
        FilterMembers(keep, front);
        OneMoreAscends(kept, last);
      } else {
        assert kept + [] == kept;
      }
    }
  }

  lemma OneMoreAscends(items: seq<Event>, e: Event)
    requires Ascending(items) && NoneLater(items, e)
    ensures Ascending(items + [e])
  {
    assert (items + [e])[..|items|] == items;
  }

  // ---- what a replay shows ----

  predicate IsDurable(e: Event) {
    e.durable
  }

  predicate IsEphemeral(e: Event) {
    !e.durable
  }

  /** The events of one task in its log. */
  predicate Numbered(log: seq<Event>) {
    forall k | 0 <= k < |log| :: log[k].durable && log[k].number == k + 1
  }

  /** Ephemeral events have no number. */
  predicate Unnumbered(buffered: seq<Event>) {
    forall e | e in buffered && !e.durable :: e.number == 0
  }

  function ReplayFrom(log: seq<Event>, buffered: seq<Event>, after: nat): seq<Event>
    requires after <= |log|
  {
    Merged(log[after..], buffered, after)
  }

  lemma {:induction false} AscendingAt(items: seq<Event>, i: nat, j: nat)
    requires Ascending(items) && i < j < |items|
    ensures Position(items[i]) <= Position(items[j])
  {
    var front := items[..|items| - 1];
    if j < |items| - 1 {
      AscendingAt(front, i, j);
    } else {
      assert front[i] in front;
    }
  }

  lemma {:induction false} LogAscends(log: seq<Event>, after: nat)
    requires Numbered(log) && after <= |log|
    ensures Ascending(log[after..])
  {
    if after < |log| {
      LogAscends(log[..|log| - 1], after);
      assert log[after..][..|log| - after - 1] == log[..|log| - 1][after..];
    }
  }

  lemma DurablePart(log: seq<Event>, buffered: seq<Event>, after: nat)
    requires Numbered(log) && after <= |log|
    ensures Filter(IsDurable, ReplayFrom(log, buffered, after)) == log[after..]
  {
    var kept := Filter(Kept(after), buffered);
    FilterSort(IsDurable, log[after..] + kept);
    FilterConcat(IsDurable, log[after..], kept);
    FilterAll(IsDurable, log[after..]);
    FilterMembers(Kept(after), buffered);
    FilterNone(IsDurable, kept);
    assert log[after..] + [] == log[after..];
    LogAscends(log, after);
    SortedAlready(log[after..]);
  }

  lemma EphemeralPart(log: seq<Event>, buffered: seq<Event>, after: nat)
    requires Numbered(log) && after <= |log|
    ensures Filter(IsEphemeral, ReplayFrom(log, buffered, after)) == StableSorted(Filter(Kept(after), buffered))
  {
    var kept := Filter(Kept(after), buffered);
    FilterSort(IsEphemeral, log[after..] + kept);
    FilterConcat(IsEphemeral, log[after..], kept);
    FilterNone(IsEphemeral, log[after..]);
    FilterMembers(Kept(after), buffered);
    FilterAll(IsEphemeral, kept);
    assert [] + kept == kept;
  }

  lemma PlacedByPosition(items: seq<Event>, i: nat, j: nat)
    requires Ascending(items) && i < |items| && j < |items|
    requires !items[i].durable && items[i].number == 0 && items[j].durable
    ensures j < i <==> items[j].number <= items[i].follows
  {
    if j < i {
      AscendingAt(items, j, i);
    } else {
      AscendingAt(items, i, j);
    }
  }

  lemma ReplayIsUnnumbered(log: seq<Event>, buffered: seq<Event>, after: nat, e: Event)
    requires Unnumbered(buffered) && after <= |log| && Numbered(log) && !e.durable
        && e in ReplayFrom(log, buffered, after)
    ensures e.number == 0
  {
    SortMembers(log[after..] + Filter(Kept(after), buffered));
    FilterMembers(Kept(after), buffered);
    assert e in log[after..] + Filter(Kept(after), buffered);
  }

  /** Every ephemeral event stands behind the durable event it followed and before the next one. */
  lemma Placement(log: seq<Event>, buffered: seq<Event>, after: nat, i: nat, j: nat)
    requires Unnumbered(buffered) && after <= |log|
    requires i < |ReplayFrom(log, buffered, after)| && j < |ReplayFrom(log, buffered, after)|
    requires Numbered(log) && !ReplayFrom(log, buffered, after)[i].durable
        && ReplayFrom(log, buffered, after)[j].durable
    ensures j < i <==> ReplayFrom(log, buffered, after)[j].number <= ReplayFrom(log, buffered, after)[i].follows
  {
    var merged := ReplayFrom(log, buffered, after);
    SortAscends(log[after..] + Filter(Kept(after), buffered));
    ReplayIsUnnumbered(log, buffered, after, merged[i]);
    PlacedByPosition(merged, i, j);
  }

  /**
   * A replay loses and invents nothing, keeps the order of the log, keeps the order of the buffer when it is in order,
   * and puts every ephemeral event behind the durable event it followed and before the next one.
   */
  lemma MergeFacts(log: seq<Event>, buffered: seq<Event>, after: nat)
    requires Numbered(log) && Unnumbered(buffered) && after <= |log|
    ensures var merged := ReplayFrom(log, buffered, after);
      && multiset(merged) == multiset(log[after..]) + multiset(Filter(Kept(after), buffered))
      && Filter(IsDurable, merged) == log[after..]
      && (Ascending(Filter(Kept(after), buffered)) ==> Filter(IsEphemeral, merged) == Filter(Kept(after), buffered))
      && forall i, j | 0 <= i < |merged| && 0 <= j < |merged| && !merged[i].durable && merged[j].durable ::
           j < i <==> merged[j].number <= merged[i].follows
  {
    var merged := ReplayFrom(log, buffered, after);
    SortMembers(log[after..] + Filter(Kept(after), buffered));
    DurablePart(log, buffered, after);
    EphemeralPart(log, buffered, after);
    if Ascending(Filter(Kept(after), buffered)) {
      SortedAlready(Filter(Kept(after), buffered));
    }
    forall i, j | 0 <= i < |merged| && 0 <= j < |merged| && !merged[i].durable && merged[j].durable
      ensures j < i <==> merged[j].number <= merged[i].follows
    {
      Placement(log, buffered, after, i, j);
    }
  }

  lemma {:induction false} FilterCounts(keep: Event -> bool, items: seq<Event>, e: Event)
    ensures multiset(Filter(keep, items))[e] == if keep(e) then multiset(items)[e] else 0
  {
    if items != [] {
      var front, last := items[..|items| - 1], items[|items| - 1];
      assert items == front + [last];
      FilterCounts(keep, front, e);
    }
  }

  /**
   * A replay from `after` has every later event of the log and every buffered ephemeral event that came after the
   * cursor, each as often as it is there, and nothing else.
   */
  lemma ReplayCounts(log: seq<Event>, buffered: seq<Event>, after: nat, e: Event)
    requires Numbered(log) && after <= |log|
    ensures multiset(ReplayFrom(log, buffered, after))[e] ==
            if e.durable then multiset(log[after..])[e]
            else if e.follows >= after then multiset(buffered)[e] else 0
  {
    var kept := Filter(Kept(after), buffered);
    SortMembers(log[after..] + kept);
    FilterCounts(Kept(after), buffered, e);
    if !e.durable {
      assert e !in log[after..];
    }
  }

  function UpTo(position: nat): Event -> bool {
    (e: Event) => Position(e) <= position
  }

  function Beyond(position: nat): Event -> bool {
    (e: Event) => Position(e) > position
  }

  lemma {:induction false} AscendingSplits(items: seq<Event>, position: nat)
    requires Ascending(items)
    ensures items == Filter(UpTo(position), items) + Filter(Beyond(position), items)
  {
    if items != [] {
      var front, last := items[..|items| - 1], items[|items| - 1];
      AscendingSplits(front, position);
      if Position(last) <= position {
        FilterNone(Beyond(position), front);
      }
      assert items == front + [last];
    }
  }

  lemma BeyondTheSplit(log: seq<Event>, buffered: seq<Event>, a: nat, b: nat)
    requires Numbered(log) && Unnumbered(buffered) && a <= b <= |log|
    ensures Filter(Beyond(2 * b), log[a..] + Filter(Kept(a), buffered)) == log[b..] + Filter(Kept(b), buffered)
  {
    var beyond := Beyond(2 * b);
    FilterConcat(beyond, log[a..], Filter(Kept(a), buffered));
    assert log[a..] == log[a..b] + log[b..];
    FilterConcat(beyond, log[a..b], log[b..]);
    FilterNone(beyond, log[a..b]);
    FilterAll(beyond, log[b..]);
    assert [] + log[b..] == log[b..];
    FilterTwice(Kept(a), beyond, Kept(b), buffered);
  }

  lemma SplitsInTwo(log: seq<Event>, buffered: seq<Event>, a: nat, b: nat)
    requires Numbered(log) && Unnumbered(buffered) && a <= b <= |log|
    ensures ReplayFrom(log, buffered, a) ==
        Filter(UpTo(2 * b), ReplayFrom(log, buffered, a)) + ReplayFrom(log, buffered, b)
  {
    var all := log[a..] + Filter(Kept(a), buffered);
    SortAscends(all);
    AscendingSplits(StableSorted(all), 2 * b);
    FilterSort(Beyond(2 * b), all);
    BeyondTheSplit(log, buffered, a, b);
  }

  /**
   * A replay resumes anywhere: over one log and buffer, the replay from `a` is its part up to the durable event `b`,
   * which holds exactly the durable events a+1..b, followed by the replay from `b`.
   */
  lemma ReplaySplits(log: seq<Event>, buffered: seq<Event>, a: nat, b: nat)
    requires Numbered(log) && Unnumbered(buffered) && a <= b <= |log|
    ensures var replay := ReplayFrom(log, buffered, a); var first := Filter(UpTo(2 * b), replay);
      && replay == first + ReplayFrom(log, buffered, b)
      && Filter(IsDurable, first) == log[a..b]
      && forall e | e in first && !e.durable :: a <= e.follows < b
  {
    SplitsInTwo(log, buffered, a, b);
    FirstPartDurable(log, buffered, a, b, Filter(UpTo(2 * b), ReplayFrom(log, buffered, a)));
    FirstPartEphemeral(log, buffered, a, b);
  }

  lemma FirstPartDurable(log: seq<Event>, buffered: seq<Event>, a: nat, b: nat, first: seq<Event>)
    requires Numbered(log) && a <= b <= |log|
    requires ReplayFrom(log, buffered, a) == first + ReplayFrom(log, buffered, b)
    ensures Filter(IsDurable, first) == log[a..b]
  {
    FilterConcat(IsDurable, first, ReplayFrom(log, buffered, b));
    DurablePart(log, buffered, a);
    DurablePart(log, buffered, b);
    assert log[a..] == log[a..b] + log[b..];
    CancelSuffix(Filter(IsDurable, first), log[a..b], log[b..]);
  }

  lemma FirstPartEphemeral(log: seq<Event>, buffered: seq<Event>, a: nat, b: nat)
    requires Numbered(log) && Unnumbered(buffered) && a <= b <= |log|
    ensures forall e | e in Filter(UpTo(2 * b), ReplayFrom(log, buffered, a)) && !e.durable :: a <= e.follows < b
  {
    FilterMembers(UpTo(2 * b), ReplayFrom(log, buffered, a));
    SortMembers(log[a..] + Filter(Kept(a), buffered));
    FilterMembers(Kept(a), buffered);
  }

  lemma CancelSuffix(a: seq<Event>, b: seq<Event>, suffix: seq<Event>)
    requires a + suffix == b + suffix
    ensures a == b
  {
    assert |a| == |b|;
    assert a == (a + suffix)[..|a|] && b == (b + suffix)[..|b|];
  }

  // ---- the buffer trim ----

  function Recent(cutoff: int): Event -> bool {
    (e: Event) => e.durable || e.occurred >= cutoff
  }

  function RecentOf(items: seq<Event>, cutoff: int): seq<Event> {
    Filter(Recent(cutoff), items)
  }

  function NumberIn(keep: set<nat>): Event -> bool {
    (e: Event) => e.durable || e.number in keep
  }

  function NumbersOf(items: seq<Event>): set<nat> {
    set e | e in items :: e.number
  }

  /** What `appendEventRaw` leaves in the buffer. */
  function TrimmedBuffer(items: seq<Event>, cutoff: int, limit: nat): seq<Event> {
    var recent := RecentOf(items, cutoff);
    if |recent| > limit then
      Filter(NumberIn(NumbersOf(recent[|recent| - limit..])), items)
    else items
  }

  /** The trim at the end of `appendEventRaw`. */
  method TrimBuffer(items: seq<Event>, cutoff: int, limit: nat) returns (kept: seq<Event>)
    ensures kept == TrimmedBuffer(items, cutoff, limit)
  {
    var recent := CollectRecent(items, cutoff);
    if |recent| <= limit {
      return items;
    }
    var keep: set<nat> := {};
    var start := |recent| - limit;
    for i := start to |recent|
      invariant keep == NumbersOf(recent[start..i])
    {
      keep := keep + {recent[i].number};
      assert recent[start..i + 1] == recent[start..i] + [recent[i]];
    }
    assert recent[start..|recent|] == recent[start..];
    kept := [];
    for i := 0 to |items|
      invariant kept == Filter(NumberIn(keep), items[..i])
    {
      assert items[..i + 1][..i] == items[..i];
      if items[i].durable {
        kept := kept + [items[i]];
      } else if items[i].number in keep {
        kept := kept + [items[i]];
      }
    }
    assert items[..|items|] == items;
  }

  method CollectRecent(items: seq<Event>, cutoff: int) returns (recent: seq<Event>)
    ensures recent == RecentOf(items, cutoff)
  {
    recent := [];
    for i := 0 to |items|
      invariant recent == RecentOf(items[..i], cutoff)
    {
      assert items[..i + 1][..i] == items[..i];
      if !items[i].durable && items[i].occurred < cutoff {
        continue;
      }
      recent := recent + [items[i]];
    }
    assert items[..|items|] == items;
  }

  lemma TrimByNumber(items: seq<Event>, keep: set<nat>)
    requires Unnumbered(items)
    ensures Filter(NumberIn(keep), items) == if 0 in keep then items else Filter(IsDurable, items)
  {
    if 0 in keep {
      FilterAll(NumberIn(keep), items);
    } else {
      SameFilter(NumberIn(keep), IsDurable, items);
    }
  }

  /**
   * The trim keeps every durable event and the order, but it keys on a number that no ephemeral event has, so it drops
   * either all ephemeral events or none, whatever their age.
   */
  lemma TrimIsAllOrNothing(items: seq<Event>, cutoff: int, limit: nat)
    requires Unnumbered(items)
    ensures TrimmedBuffer(items, cutoff, limit) == items
        || TrimmedBuffer(items, cutoff, limit) == Filter(IsDurable, items)
    ensures Filter(IsDurable, TrimmedBuffer(items, cutoff, limit)) == Filter(IsDurable, items)
  {
    FilterAgain(IsDurable, items);
    var recent := RecentOf(items, cutoff);
    if |recent| > limit {
      TrimByNumber(items, NumbersOf(recent[|recent| - limit..]));
    }
  }

  predicate HasEphemeral(items: seq<Event>) {
    exists i | 0 <= i < |items| :: !items[i].durable
  }

  /** A durable event has its number, an ephemeral one none. */
  predicate NumbersTell(items: seq<Event>) {
    forall i | 0 <= i < |items| :: if items[i].durable then items[i].number > 0 else items[i].number == 0
  }

  lemma {:induction false} RecentTells(items: seq<Event>, cutoff: int)
    requires NumbersTell(items)
    ensures NumbersTell(RecentOf(items, cutoff))
  {
    if items != [] {
      RecentTells(items[..|items| - 1], cutoff);
    }
  }

  lemma ZeroMeansEphemeral(items: seq<Event>)
    requires NumbersTell(items)
    ensures 0 in NumbersOf(items) <==> HasEphemeral(items)
  {
    if i :| 0 <= i < |items| && !items[i].durable {
      assert items[i] in items && items[i].number == 0;
    }
  }

  lemma DroppingShows(items: seq<Event>)
    requires HasEphemeral(items)
    ensures Filter(IsDurable, items) != items
  {
    FilterMembers(IsDurable, items);
    var i :| 0 <= i < |items| && !items[i].durable;
    assert items[i] in items && items[i] !in Filter(IsDurable, items);
  }

  lemma TrimByTheLast(items: seq<Event>, last: seq<Event>)
    requires NumbersTell(items) && NumbersTell(last)
    ensures Filter(NumberIn(NumbersOf(last)), items) == if HasEphemeral(last) then items else Filter(IsDurable, items)
  {
    ZeroMeansEphemeral(last);
    TrimByNumber(items, NumbersOf(last));
  }

  /**
   * When the trim drops the ephemeral events: exactly when more than `limit` items are recent and no ephemeral event is
   * among the last `limit` of those. One such event keeps all others, and so does a buffer with few recent items.
   */
  lemma TrimDropsExactly(items: seq<Event>, cutoff: int, limit: nat)
    requires NumbersTell(items) && HasEphemeral(items)
    ensures var recent := RecentOf(items, cutoff);
      TrimmedBuffer(items, cutoff, limit) == items <==> |recent| <= limit || HasEphemeral(recent[|recent| - limit..])
  {
    TrimKeeps(items, cutoff, limit);
    DroppingShows(items);
  }

  lemma TrimKeeps(items: seq<Event>, cutoff: int, limit: nat)
    requires NumbersTell(items)
    ensures var recent := RecentOf(items, cutoff);
      TrimmedBuffer(items, cutoff, limit) ==
      if |recent| <= limit || HasEphemeral(recent[|recent| - limit..]) then items else Filter(IsDurable, items)
  {
    var recent := RecentOf(items, cutoff);
    if |recent| > limit {
      LastRecentTell(items, cutoff, limit);
      TrimmedByTheLast(items, cutoff, limit, recent[|recent| - limit..]);
      TrimByTheLast(items, recent[|recent| - limit..]);
    }
  }

  lemma TrimmedByTheLast(items: seq<Event>, cutoff: int, limit: nat, last: seq<Event>)
    requires |RecentOf(items, cutoff)| > limit
    requires last == RecentOf(items, cutoff)[|RecentOf(items, cutoff)| - limit..]
    ensures TrimmedBuffer(items, cutoff, limit) == Filter(NumberIn(NumbersOf(last)), items)
  {
  }

  lemma LastRecentTell(items: seq<Event>, cutoff: int, limit: nat)
    requires NumbersTell(items) && |RecentOf(items, cutoff)| > limit
    ensures var recent := RecentOf(items, cutoff); NumbersTell(recent[|recent| - limit..])
  {
    RecentTells(items, cutoff);
  }

  /** An item is recent when it is durable or not older than the cut. */
  lemma RecentSays(items: seq<Event>, cutoff: int, e: Event)
    ensures multiset(RecentOf(items, cutoff))[e] == if e.durable || e.occurred >= cutoff then multiset(items)[e] else 0
  {
    FilterCounts(Recent(cutoff), items, e);
  }

  lemma NoDurableRecent(items: seq<Event>, cutoff: int)
    requires forall i | 0 <= i < |items| :: !items[i].durable
    ensures forall i | 0 <= i < |RecentOf(items, cutoff)| :: !RecentOf(items, cutoff)[i].durable
  {
    var recent := RecentOf(items, cutoff);
    FilterMembers(Recent(cutoff), items);
    forall i | 0 <= i < |recent| ensures !recent[i].durable {
      assert recent[i] in recent;
      assert recent[i] in items;
    }
  }

  /**
   * Neither bound holds: a buffer of ephemeral events alone is never trimmed, however many they are and however old.
   */
  lemma EphemeralAloneIsNeverTrimmed(items: seq<Event>, cutoff: int, limit: nat)
    requires limit > 0 && items != [] && forall i | 0 <= i < |items| :: !items[i].durable && items[i].number == 0
    ensures TrimmedBuffer(items, cutoff, limit) == items
  {
    var recent := RecentOf(items, cutoff);
    assert !items[0].durable;
    TrimDropsExactly(items, cutoff, limit);
    NoDurableRecent(items, cutoff);
    if |recent| > limit {
      assert recent[|recent| - limit..][0] == recent[|recent| - limit];
    }
  }

  /** A concrete buffer over the limit, with an event older than the cut in it, that the trim leaves as it is. */
  lemma BoundsFail(limit: nat)
    requires limit > 0
    ensures exists items: seq<Event>, cutoff: int ::
              |items| > limit && items[0].occurred < cutoff && TrimmedBuffer(items, cutoff, limit) == items
  {
    var stale := Event("evt_1", "t", "task_1", false, 0, 0, 0, "", "", 0, Other);
    var items := seq(limit + 1, i requires 0 <= i <= limit => stale.(occurred := i));
    EphemeralAloneIsNeverTrimmed(items, 1, limit);
    assert items[0].occurred < 1;
  }

  lemma {:induction false} SameFilter(p: Event -> bool, q: Event -> bool, items: seq<Event>)
    requires forall e | e in items :: p(e) == q(e)
    ensures Filter(p, items) == Filter(q, items)
  {
    if items != [] {
      SameFilter(p, q, items[..|items| - 1]);
    }
  }
}
