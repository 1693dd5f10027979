/**
 * The consistent-hash ring that routes a task to one control replica (internal/task/routing.go). The hash function is a
 * constant of the ring and otherwise arbitrary: nothing below assumes that it spreads points or avoids collisions.
 */
module Ring {
  import opened Strings

  type Point = p: int | 0 <= p < 0x1_0000_0000

  type Hash = string -> Point

  datatype Owner = Nobody | Member(name: string)

  // ---- what ownership means ----

  function PointOf(hash: Hash, member: string, replica: nat): Point {
    hash(member + "#" + Decimal(replica))
  }

  predicate HasPoint(hash: Hash, replicas: nat, member: string, p: Point) {
    member != "" && exists replica | 0 <= replica < replicas :: PointOf(hash, member, replica) == p
  }

  /** The last member listed that has the point: a later member takes a colliding point over. */
  function Holder(hash: Hash, replicas: nat, members: seq<string>, p: Point): Owner {
    if members == [] then Nobody
    else if HasPoint(hash, replicas, members[|members| - 1], p) then Member(members[|members| - 1])
    else Holder(hash, replicas, members[..|members| - 1], p)
  }

  predicate OnRing(hash: Hash, replicas: nat, members: seq<string>, p: Point) {
    exists m | m in members :: HasPoint(hash, replicas, m, p)
  }

  /** `p` is the first point of the ring at or after `h`, or the smallest one when there is none after it. */
  ghost predicate IsNext(hash: Hash, replicas: nat, members: seq<string>, h: Point, p: Point) {
    && OnRing(hash, replicas, members, p)
    && forall q: Point | OnRing(hash, replicas, members, q) ::
         if h <= p then h <= q ==> p <= q else q < h && p <= q
  }

  /** `owner` is who answers for the task. */
  ghost predicate Owns(hash: Hash, replicas: nat, members: seq<string>, task: string, owner: Owner) {
    match owner
    case Nobody => forall p: Point :: !OnRing(hash, replicas, members, p)
    case Member(_) =>
      exists p: Point :: IsNext(hash, replicas, members, hash(task), p) && Holder(hash, replicas, members, p) == owner
  }

  lemma {:induction false} HolderFacts(hash: Hash, replicas: nat, members: seq<string>, p: Point)
    ensures Holder(hash, replicas, members, p).Member? <==> OnRing(hash, replicas, members, p)
    ensures Holder(hash, replicas, members, p).Member? ==>
              var m := Holder(hash, replicas, members, p).name; m in members && HasPoint(hash, replicas, m, p)
  {
    if members != [] {
      var front, last := members[..|members| - 1], members[|members| - 1];
      assert members == front + [last];
      HolderFacts(hash, replicas, front, p);
      if m :| m in members && HasPoint(hash, replicas, m, p) && m != last {
        assert m in front;
      }
    }
  }

  lemma Extended(hash: Hash, replicas: nat, members: seq<string>, m: string)
    ensures forall p: Point :: OnRing(hash, replicas, members + [m], p) <==>
              OnRing(hash, replicas, members, p) || HasPoint(hash, replicas, m, p)
    ensures forall p: Point :: Holder(hash, replicas, members + [m], p) ==
              if HasPoint(hash, replicas, m, p) then Member(m) else Holder(hash, replicas, members, p)
  {
  }

  lemma OneReplicaMore(hash: Hash, replicas: nat, m: string)
    requires m != ""
    ensures forall p: Point :: HasPoint(hash, replicas + 1, m, p) <==>
              HasPoint(hash, replicas, m, p) || PointOf(hash, m, replicas) == p
  {
    forall p: Point | HasPoint(hash, replicas, m, p) ensures HasPoint(hash, replicas + 1, m, p) {
      var r :| 0 <= r < replicas && PointOf(hash, m, r) == p;
      assert 0 <= r < replicas + 1;
    }
    assert HasPoint(hash, replicas + 1, m, PointOf(hash, m, replicas));
  }

  // ---- minimal movement ----

  function Joined(members: seq<string>, at: nat, m: string): seq<string>
    requires at <= |members|
  {
    members[..at] + [m] + members[at..]
  }

  lemma {:induction false} JoinedHolder(hash: Hash, replicas: nat, members: seq<string>, at: nat, m: string, p: Point)
    requires at <= |members|
    ensures Holder(hash, replicas, Joined(members, at, m), p) in {Holder(hash, replicas, members, p), Member(m)}
  {
    var joined := Joined(members, at, m);
    if at == |members| {
      assert joined[..|joined| - 1] == members;
    } else {
      assert joined[..|joined| - 1] == Joined(members[..|members| - 1], at, m);
      JoinedHolder(hash, replicas, members[..|members| - 1], at, m, p);
    }
  }

  /**
   * Adding a member anywhere in the list, the others keeping their order, moves a task only to the new member. Read the
   * other way round: removing a member moves only the tasks that member owned.
   */
  lemma MinimalMovement(hash: Hash, replicas: nat, members: seq<string>, at: nat, m: string, task: string,
                        without: Owner, with: Owner)
    requires at <= |members|
    requires Owns(hash, replicas, members, task, without)
    requires Owns(hash, replicas, Joined(members, at, m), task, with)
    ensures with == without || with == Member(m)
  {
    var joined := Joined(members, at, m);
    assert forall x :: x in joined <==> x in members || x == m;
    if with.Nobody? {
      if without.Member? {
        var p: Point :| IsNext(hash, replicas, members, hash(task), p);
        assert OnRing(hash, replicas, joined, p);
      }
    } else {
      var p: Point :| IsNext(hash, replicas, joined, hash(task), p) && Holder(hash, replicas, joined, p) == with;
      JoinedHolder(hash, replicas, members, at, m, p);
      HolderFacts(hash, replicas, joined, p);
      HolderFacts(hash, replicas, members, p);
      if with != Member(m) {
        assert OnRing(hash, replicas, members, p);
        assert forall q: Point | OnRing(hash, replicas, members, q) :: OnRing(hash, replicas, joined, q);
        assert IsNext(hash, replicas, members, hash(task), p);
        OwnerIsUnique(hash, replicas, members, task, without, with);
      }
    }
  }

  /** A ring never has two owners for one task. */
  lemma OwnerIsUnique(hash: Hash, replicas: nat, members: seq<string>, task: string, a: Owner, b: Owner)
    requires Owns(hash, replicas, members, task, a) && Owns(hash, replicas, members, task, b)
    ensures a == b
  {
  }

  /** Where no two different members share a point, the order of the list does not matter. */
  lemma OrderDoesNotMatter(hash: Hash, replicas: nat, members: seq<string>, other: seq<string>, task: string, a: Owner,
                           b: Owner)
    requires forall x :: x in members <==> x in other
    requires forall x, y, p: Point | x in members && y in members && HasPoint(hash, replicas, x, p)
        && HasPoint(hash, replicas, y, p) :: x == y
    requires Owns(hash, replicas, members, task, a) && Owns(hash, replicas, other, task, b)
    ensures a == b
  {
    forall q: Point ensures OnRing(hash, replicas, members, q) <==> OnRing(hash, replicas, other, q) {
    }
    if a.Member? {
      var p: Point :| IsNext(hash, replicas, members, hash(task), p) && Holder(hash, replicas, members, p) == a;
      HolderFacts(hash, replicas, members, p);
      HolderFacts(hash, replicas, other, p);
      assert IsNext(hash, replicas, other, hash(task), p) && Holder(hash, replicas, other, p) == a;
      OwnerIsUnique(hash, replicas, other, task, a, b);
    } else {
      assert Owns(hash, replicas, other, task, a);
      OwnerIsUnique(hash, replicas, other, task, a, b);
    }
  }

  // ---- the ring ----

  predicate Sorted(points: seq<Point>) {
    forall i, j | 0 <= i < j < |points| :: points[i] <= points[j]
  }

  lemma Inserted(points: seq<Point>, at: nat, p: Point)
    requires Sorted(points) && at <= |points|
    requires (at > 0 ==> points[at - 1] <= p) && (at < |points| ==> p <= points[at])
    ensures Sorted(points[..at] + [p] + points[at..])
    ensures multiset(points[..at] + [p] + points[at..]) == multiset(points) + multiset{p}
  {
    var more := points[..at] + [p] + points[at..];
    forall i, j | 0 <= i < j < |more| ensures more[i] <= more[j] {
      assert at > 0 ==> forall k | 0 <= k < at :: points[k] <= points[at - 1];
      assert at < |points| ==> forall k | at <= k < |points| :: points[at] <= points[k];
    }
    InsertedElements(points, at, p);
  }

  lemma InsertedElements(points: seq<Point>, at: nat, p: Point)
    requires at <= |points|
    ensures multiset(points[..at] + [p] + points[at..]) == multiset(points) + multiset{p}
  {
    assert points == points[..at] + points[at..];
  }

  /** sort.Slice, as an insertion sort. */
  method SortPoints(points: seq<Point>) returns (sorted: seq<Point>)
    ensures Sorted(sorted) && multiset(sorted) == multiset(points)
  {
    sorted := [];
    for i := 0 to |points|
      invariant Sorted(sorted) && multiset(sorted) == multiset(points[..i])
    {
      var at := |sorted|;
      while at > 0 && sorted[at - 1] > points[i]
        invariant 0 <= at <= |sorted|
        invariant at < |sorted| ==> sorted[at] > points[i]
      {
        at := at - 1;
      }
      assert points[..i + 1] == points[..i] + [points[i]];
      Inserted(sorted, at, points[i]);
      sorted := sorted[..at] + [points[i]] + sorted[at..];
    }
    assert points[..|points|] == points;
  }

  class ConsistentRing {
    const hash: Hash
    const replicas: nat
    var points: seq<Point>
    var owners: map<Point, string>
    ghost var members: seq<string>

    ghost predicate Valid()
      reads this
    {
      Sorted(points) && Covers(members)
    }

    /** The points and their owners, before sorting, are those of the members in `list`. */
    ghost predicate Covers(list: seq<string>)
      reads this
    {
      && (forall p: Point :: p in points <==> OnRing(hash, replicas, list, p))
      && (forall p: Point :: p in points <==> p in owners)
      && (forall p | p in owners :: Holder(hash, replicas, list, p) == Member(owners[p]))
    }

    constructor (hash: Hash, replicas: int)
      ensures Valid() && members == [] && this.hash == hash
      ensures this.replicas == if replicas < 1 then 64 else replicas
    {
      this.hash := hash;
      this.replicas := if replicas < 1 then 64 else replicas;
      points, owners, members := [], map[], [];
    }

    /** The points of one more member; a point that was taken goes over to it. */
    method AddMember(member: string, ghost earlier: seq<string>)
      requires member != "" && Covers(earlier)
      modifies this
      ensures Covers(earlier + [member])
    {
      ghost var before, held := points, owners;
      for replica := 0 to replicas
        invariant forall p: Point :: p in points <==> p in before || HasPoint(hash, replica, member, p)
        invariant forall p: Point :: p in points <==> p in owners
        invariant forall p | p in owners :: if HasPoint(hash, replica, member, p) then owners[p] == member
                                            else p in held && owners[p] == held[p]
      {
        OneReplicaMore(hash, replica, member);
        var point := PointOf(hash, member, replica);
        points := points + [point];
        owners := owners[point := member];
      }
      Extended(hash, replicas, earlier, member);
    }

    method SetMembers(list: seq<string>)
      modifies this
      ensures Valid() && members == list
    {
      points := [];
      owners := map[];
      for i := 0 to |list|
        invariant Covers(list[..i])
      {
        var member := list[i];
        assert list[..i + 1] == list[..i] + [member];
        if member != "" {
          AddMember(member, list[..i]);
        }
        Extended(hash, replicas, list[..i], member);
      }
      assert list[..|list|] == list;
      var sorted := SortPoints(points);
      assert forall p: Point :: p in points <==> p in multiset(points);
      points := sorted;
      assert forall p: Point :: p in points <==> p in multiset(points);
      members := list;
    }

    /** The binary search of sort.Search, then the wrap to the smallest point. */
    method OwnerOf(task: string) returns (owner: Owner)
      requires Valid()
      ensures Owns(hash, replicas, members, task, owner)
    {
      if |points| == 0 {
        return Nobody;
      }
      var h := hash(task);
      var low, high := 0, |points|;
      while low < high
        invariant 0 <= low <= high <= |points|
        invariant forall k | 0 <= k < low :: points[k] < h
        invariant forall k | high <= k < |points| :: points[k] >= h
      {
        var mid := (low + high) / 2;
        if points[mid] >= h {
          high := mid;
        } else {
          low := mid + 1;
        }
      }
      var index := if low == |points| then 0 else low;
      assert points[index] in points;
      forall q: Point | OnRing(hash, replicas, members, q)
        ensures if h <= points[index] then h <= q ==> points[index] <= q else q < h && points[index] <= q
      {
        var k :| 0 <= k < |points| && points[k] == q;
      }
      assert IsNext(hash, replicas, members, h, points[index]);
      owner := Member(owners[points[index]]);
    }
  }

  // ---- the points of a member ----

  /** The text that is hashed for one replica of a member. */
  function PointName(member: string, replica: nat): string {
    member + "#" + Decimal(replica)
  }

  lemma OnlyDigitsFollow(member: string, replica: nat, at: nat)
    requires |member| < at < |PointName(member, replica)|
    ensures PointName(member, replica)[at] != '#'
  {
    var numeral := Decimal(replica);
    NumeralHasDigits(replica);
    assert PointName(member, replica)[at] == numeral[at - |member| - 1] && numeral[at - |member| - 1] in numeral;
  }

  /** No two replicas hash the same text, of one member or of two: what follows the last mark is a numeral. */
  lemma PointNamesDiffer(a: string, m: nat, b: string, n: nat)
    requires PointName(a, m) == PointName(b, n)
    ensures a == b && m == n
  {
    var text := PointName(a, m);
    assert text[|a|] == '#' && text[|b|] == '#';
    if |a| < |b| {
      OnlyDigitsFollow(a, m, |b|);
    } else if |b| < |a| {
      OnlyDigitsFollow(b, n, |a|);
    }
    assert text[..|a|] == a && text[..|b|] == b;
    DecimalInjective(a + "#", m, n);
  }

  /** A member's points on the ring are the hashes of its replicas' names; a member without a name has none. */
  lemma PointsSay(hash: Hash, replicas: nat, member: string, p: Point)
    ensures HasPoint(hash, replicas, member, p) <==>
              member != "" && exists replica | 0 <= replica < replicas :: hash(PointName(member, replica)) == p
  {
    assert forall replica: nat :: PointOf(hash, member, replica) == hash(PointName(member, replica));
  }

  /**
   * Going up from the task's hash, the owner's point is the first one met: no point of the ring lies between, and when
   * none lies above the hash, the owner's is the lowest of all. Of several members listed with that point it is the
   * last.
   */
  lemma OwnerIsFirstMet(hash: Hash, replicas: nat, members: seq<string>, task: string, name: string)
    requires Owns(hash, replicas, members, task, Member(name))
    ensures exists p: Point ::
      && OnRing(hash, replicas, members, p)
      && (if hash(task) <= p then forall q: Point | OnRing(hash, replicas, members, q) :: !(hash(task) <= q < p)
          else forall q: Point | OnRing(hash, replicas, members, q) :: p <= q < hash(task))
      && exists i | 0 <= i < |members| :: members[i] == name && HasPoint(hash, replicas, name, p)
           && forall j | i < j < |members| :: !HasPoint(hash, replicas, members[j], p)
  {
    var p: Point :| IsNext(hash, replicas, members, hash(task), p)
        && Holder(hash, replicas, members, p) == Member(name);
    LastHolds(hash, replicas, members, p, name);
  }

  lemma {:induction false} LastHolds(hash: Hash, replicas: nat, members: seq<string>, p: Point, name: string)
    requires Holder(hash, replicas, members, p) == Member(name)
    ensures exists i | 0 <= i < |members| :: members[i] == name && HasPoint(hash, replicas, name, p)
              && forall j | i < j < |members| :: !HasPoint(hash, replicas, members[j], p)
  {
    var front, last := members[..|members| - 1], members[|members| - 1];
    if HasPoint(hash, replicas, last, p) {
      assert members[|members| - 1] == name;
    } else {
      LastHolds(hash, replicas, front, p, name);
      var i :| 0 <= i < |front| && front[i] == name && HasPoint(hash, replicas, name, p)
        && forall j | i < j < |front| :: !HasPoint(hash, replicas, front[j], p);
      assert members[i] == name && forall j | i < j < |front| :: front[j] == members[j];
    }
  }
}
