/** The dependency graph of an SOP and Kahn's algorithm over it (`sopHasCycle` in internal/task/sop.go). */
module SopGraph {
  import opened Common
  import opened SopSteps

  // ---- what a cycle and a topological order are ----

  predicate WaitsFor(steps: seq<Step>, a: string, b: string) {
    exists i | 0 <= i < |steps| :: steps[i].id == a && b in Deps(steps[i])
  }

  predicate IsWalk(steps: seq<Step>, walk: seq<string>) {
    forall i | 0 <= i < |walk| - 1 :: WaitsFor(steps, walk[i], walk[i + 1])
  }

  ghost predicate HasCycle(steps: seq<Step>) {
    exists walk: seq<string> :: |walk| >= 2 && IsWalk(steps, walk) && walk[0] == walk[|walk| - 1]
  }

  /** `order` lists every step once, each after everything it waits for. */
  ghost predicate IsTopologicalOrder(steps: seq<Step>, order: seq<string>) {
    && Distinct(order)
    && (forall x :: x in order <==> x in Ids(steps))
    && (forall k, i | 0 <= k < |order| && 0 <= i < |steps| && steps[i].id == order[k] ::
          forall d | d in Deps(steps[i]) :: d in order[..k])
  }

  // ---- an order rules out a cycle ----

  lemma {:induction false} WalkDescends(steps: seq<Step>, order: seq<string>, walk: seq<string>)
    requires IsTopologicalOrder(steps, order) && IsWalk(steps, walk) && |walk| >= 2
    ensures exists a, b :: 0 <= b < a < |order| && order[a] == walk[0] && order[b] == walk[|walk| - 1]
  {
    assert WaitsFor(steps, walk[0], walk[0 + 1]);
    var i :| 0 <= i < |steps| && steps[i].id == walk[0] && walk[1] in Deps(steps[i]);
    assert Ids(steps)[i] in Ids(steps) && walk[0] in order;
    var a :| 0 <= a < |order| && order[a] == walk[0];
    assert walk[1] in order[..a];
    var b :| 0 <= b < a && order[b] == walk[1];
    if |walk| > 2 {
      forall j | 0 <= j < |walk[1..]| - 1 ensures WaitsFor(steps, walk[1..][j], walk[1..][j + 1]) {
        assert WaitsFor(steps, walk[j + 1], walk[j + 1 + 1]);
      }
      WalkDescends(steps, order, walk[1..]);
      var a', b' :| 0 <= b' < a' < |order| && order[a'] == walk[1] && order[b'] == walk[|walk| - 1];
      assert a' == b;
    }
  }

  lemma OrderMeansAcyclic(steps: seq<Step>, order: seq<string>)
    requires IsTopologicalOrder(steps, order)
    ensures !HasCycle(steps)
  {
    if walk: seq<string> :| |walk| >= 2 && IsWalk(steps, walk) && walk[0] == walk[|walk| - 1] {
      WalkDescends(steps, order, walk);
      assert false;
    }
  }

  // ---- a stuck set contains a cycle ----

  /** Every step that is left waits for another one that is left. */
  predicate Stuck(steps: seq<Step>, done: set<string>) {
    forall i | 0 <= i < |steps| && steps[i].id !in done :: exists d | d in Deps(steps[i]) :: d !in done
  }

  lemma {:induction false} StuckWalk(steps: seq<Step>, done: set<string>, start: string, n: nat)
      returns (walk: seq<string>)
    requires KnownDeps(steps) && Stuck(steps, done)
    requires start in Ids(steps) && start !in done
    ensures |walk| == n + 1 && walk[0] == start && IsWalk(steps, walk)
    ensures forall x | x in walk :: x in Ids(steps)
    decreases n
  {
    walk := [start];
    if n > 0 {
      var i :| 0 <= i < |steps| && Ids(steps)[i] == start;
      var next :| next in Deps(steps[i]) && next !in done;
      var rest := StuckWalk(steps, done, next, n - 1);
      walk := [start] + rest;
      assert WaitsFor(steps, start, next);
      forall k | 0 <= k < |walk| - 1 ensures WaitsFor(steps, walk[k], walk[k + 1]) {
        assert k > 0 ==> WaitsFor(steps, rest[k - 1], rest[k]);
      }
    }
  }

  /** Among more items than names, one name comes twice. */
  lemma {:induction false} Pigeonhole(items: seq<string>, names: seq<string>) returns (i: nat, j: nat)
    requires |items| > |names| && forall x | x in items :: x in names
    ensures i < j < |items| && items[i] == items[j]
  {
    var last := items[|items| - 1];
    assert last in items && last in names;
    if k :| 0 <= k < |items| - 1 && items[k] == last {
      i, j := k, |items| - 1;
    } else {
      var at :| 0 <= at < |names| && names[at] == last;
      var fewer := names[..at] + names[at + 1..];
      forall x | x in items[..|items| - 1] ensures x in fewer {
        assert x in items;
        var m :| 0 <= m < |names| && names[m] == x;
        assert m < at ==> names[..at][m] == x;
        assert m > at ==> names[at + 1..][m - at - 1] == x;
      }
      i, j := Pigeonhole(items[..|items| - 1], fewer);
    }
  }

  lemma ReturningWalk(steps: seq<Step>, walk: seq<string>, i: nat, j: nat)
    requires IsWalk(steps, walk) && i < j < |walk| && walk[i] == walk[j]
    ensures HasCycle(steps)
  {
    var cycle := walk[i..j + 1];
    forall k | 0 <= k < |cycle| - 1 ensures WaitsFor(steps, cycle[k], cycle[k + 1]) {
      var m := i + k;
      assert WaitsFor(steps, walk[m], walk[m + 1]);
    }
    assert IsWalk(steps, cycle);
  }

  lemma StuckMeansCycle(steps: seq<Step>, done: set<string>)
    requires KnownDeps(steps) && Stuck(steps, done)
    requires exists x :: x in Ids(steps) && x !in done
    ensures HasCycle(steps)
  {
    var start :| start in Ids(steps) && start !in done;
    var walk := StuckWalk(steps, done, start, |steps|);
    var i, j := Pigeonhole(walk, Ids(steps));
    ReturningWalk(steps, walk, i, j);
  }

  // ---- Kahn's algorithm ----

  /** How often `x` is listed. */
  function Occurs(items: seq<string>, x: string): nat {
    if items == [] then 0 else Occurs(items[..|items| - 1], x) + if items[|items| - 1] == x then 1 else 0
  }

  lemma Appended(items: seq<string>, x: string, y: string)
    ensures Occurs(items + [x], y) == Occurs(items, y) + if x == y then 1 else 0
  {
  }

  lemma {:induction false} OccursFacts(items: seq<string>, n: nat, x: string)
    requires n <= |items|
    ensures Occurs(items[..n], x) <= Occurs(items, x)
    ensures Occurs(items, x) == 0 <==> x !in items
  {
    if items != [] {
      OccursFacts(items[..|items| - 1], if n == |items| then 0 else n, x);
      assert items == items[..|items| - 1] + [items[|items| - 1]];
      assert n < |items| ==> items[..|items| - 1][..n] == items[..n];
      assert n == |items| ==> items[..n] == items;
    }
  }

  /** How many entries of `deps` are not done yet. */
  function Remaining(deps: seq<string>, done: set<string>): nat {
    if deps == [] then 0 else Remaining(deps[..|deps| - 1], done) + if deps[|deps| - 1] in done then 0 else 1
  }

  lemma {:induction false} RemainingFacts(deps: seq<string>, done: set<string>, id: string)
    requires id !in done
    ensures Remaining(deps, done + {id}) == Remaining(deps, done) - Occurs(deps, id)
    ensures Remaining(deps, done) == 0 <==> forall d | d in deps :: d in done
    ensures Remaining(deps, {}) == |deps|
  {
    if deps != [] {
      RemainingFacts(deps[..|deps| - 1], done, id);
      assert deps == deps[..|deps| - 1] + [deps[|deps| - 1]];
    }
  }

  function Elems(items: seq<string>): set<string> {
    set x | x in items
  }

  function At(m: map<string, seq<string>>, key: string): seq<string> {
    if key in m then m[key] else []
  }

  /** `dependents` lists a step under d once for every time the first `n` steps name d. */
  ghost predicate Indexed(steps: seq<Step>, n: nat, dependents: map<string, seq<string>>)
    requires n <= |steps|
  {
    && (forall d, k | 0 <= k < n :: Occurs(At(dependents, d), steps[k].id) == Occurs(Deps(steps[k]), d))
    && (forall d, x | x in At(dependents, d) :: x in Ids(steps)[..n])
  }

  /** The same in the middle of step `n`, when its first `j` dependencies are entered. */
  ghost predicate PartlyIndexed(steps: seq<Step>, n: nat, j: nat, dependents: map<string, seq<string>>)
    requires n < |steps| && j <= |Deps(steps[n])|
  {
    && (forall d, k | 0 <= k < n :: Occurs(At(dependents, d), steps[k].id) == Occurs(Deps(steps[k]), d))
    && (forall d :: Occurs(At(dependents, d), steps[n].id) == Occurs(Deps(steps[n])[..j], d))
    && (forall d, x | x in At(dependents, d) :: x in Ids(steps)[..n + 1])
  }

  lemma IndexingStarts(steps: seq<Step>, n: nat, dependents: map<string, seq<string>>)
    requires UniqueIds(steps) && n < |steps| && Indexed(steps, n, dependents)
    ensures PartlyIndexed(steps, n, 0, dependents)
  {
    assert steps[n].id !in Ids(steps)[..n];
    forall d ensures Occurs(At(dependents, d), steps[n].id) == 0 {
      OccursFacts(At(dependents, d), 0, steps[n].id);
    }
    assert Ids(steps)[..n + 1] == Ids(steps)[..n] + [steps[n].id];
  }

  lemma IndexingAdds(steps: seq<Step>, n: nat, j: nat, dependents: map<string, seq<string>>)
    requires UniqueIds(steps) && n < |steps| && j < |Deps(steps[n])| && PartlyIndexed(steps, n, j, dependents)
    ensures var d := Deps(steps[n])[j];
            PartlyIndexed(steps, n, j + 1, dependents[d := At(dependents, d) + [steps[n].id]])
  {
    var deps, id := Deps(steps[n]), steps[n].id;
    var before := At(dependents, deps[j]);
    var after := dependents[deps[j] := before + [id]];
    assert deps[..j + 1] == deps[..j] + [deps[j]];
    forall d, k | 0 <= k < n ensures Occurs(At(after, d), steps[k].id) == Occurs(Deps(steps[k]), d) {
      Appended(before, id, steps[k].id);
      assert Occurs(At(dependents, d), steps[k].id) == Occurs(Deps(steps[k]), d);
    }
    forall d ensures Occurs(At(after, d), id) == Occurs(deps[..j + 1], d) {
      Appended(before, id, id);
      Appended(deps[..j], deps[j], d);
    }
    forall d, x | x in At(after, d) ensures x in Ids(steps)[..n + 1] {
      assert x in At(dependents, d) || x == Ids(steps)[..n + 1][n];
    }
  }

  lemma IndexingEnds(steps: seq<Step>, n: nat, dependents: map<string, seq<string>>)
    requires n < |steps| && PartlyIndexed(steps, n, |Deps(steps[n])|, dependents)
    ensures Indexed(steps, n + 1, dependents)
  {
    assert Deps(steps[n])[..|Deps(steps[n])|] == Deps(steps[n]);
  }

  /** The first loop: what each step waits for, and who waits for it. */
  method CountDependencies(steps: seq<Step>) returns (waiting: map<string, int>, dependents: map<string, seq<string>>)
    requires UniqueIds(steps)
    ensures forall k | 0 <= k < |steps| :: steps[k].id in waiting && waiting[steps[k].id] == |Deps(steps[k])|
    ensures Indexed(steps, |steps|, dependents)
  {
    waiting, dependents := map[], map[];
    for i := 0 to |steps|
      invariant forall k | 0 <= k < i :: steps[k].id in waiting && waiting[steps[k].id] == |Deps(steps[k])|
      invariant Indexed(steps, i, dependents)
    {
      var step := steps[i];
      var deps := Deps(step);
      waiting := waiting[step.id := |deps|];
      IndexingStarts(steps, i, dependents);
      for j := 0 to |deps|
        invariant PartlyIndexed(steps, i, j, dependents)
      {
        IndexingAdds(steps, i, j, dependents);
        dependents := dependents[deps[j] := At(dependents, deps[j]) + [step.id]];
      }
      IndexingEnds(steps, i, dependents);
    }
  }

  /** What every step still waits for, when `settled` is done and the dependents in `told` were told of one more. */
  ghost predicate Counts(steps: seq<Step>, waiting: map<string, int>, settled: set<string>, told: seq<string>) {
    forall k | 0 <= k < |steps| ::
      steps[k].id in waiting && waiting[steps[k].id] == Remaining(Deps(steps[k]), settled) - Occurs(told, steps[k].id)
  }

  /** Exactly the steps that wait for nothing are in the queue of finished and ready ones, once each. */
  ghost predicate Queued(steps: seq<Step>, waiting: map<string, int>, queue: seq<string>) {
    && Distinct(queue)
    && (forall x | x in queue :: x in Ids(steps))
    && (forall k | 0 <= k < |steps| && steps[k].id in waiting :: waiting[steps[k].id] == 0 <==> steps[k].id in queue)
  }

  /** Every finished step comes after what it waits for. */
  ghost predicate Ordered(steps: seq<Step>, order: seq<string>) {
    forall a, k | 0 <= a < |order| && 0 <= k < |steps| && steps[k].id == order[a] ::
      forall d | d in Deps(steps[k]) :: d in order[..a]
  }

  method FirstReady(steps: seq<Step>, waiting: map<string, int>) returns (ready: seq<string>)
    requires UniqueIds(steps)
    requires forall k | 0 <= k < |steps| :: steps[k].id in waiting && waiting[steps[k].id] == |Deps(steps[k])|
    ensures Counts(steps, waiting, {}, []) && Queued(steps, waiting, ready)
  {
    ready := [];
    for i := 0 to |steps|
      invariant Distinct(ready)
      invariant forall x | x in ready :: exists k | 0 <= k < i :: steps[k].id == x && waiting[x] == 0
      invariant forall k | 0 <= k < i && waiting[steps[k].id] == 0 :: steps[k].id in ready
    {
      if waiting[steps[i].id] == 0 {
        ready := ready + [steps[i].id];
      }
    }
    forall k | 0 <= k < |steps| ensures waiting[steps[k].id] == Remaining(Deps(steps[k]), {}) {
      RemainingFacts(Deps(steps[k]), {}, "");
    }
    forall x | x in ready ensures x in Ids(steps) {
      var k :| 0 <= k < |steps| && steps[k].id == x;
      assert Ids(steps)[k] == x;
    }
  }

  lemma Finish(steps: seq<Step>, waiting: map<string, int>, order: seq<string>, id: string, queue: seq<string>)
    requires Counts(steps, waiting, Elems(order), []) && Queued(steps, waiting, queue) && Ordered(steps, order)
    requires id in queue && id !in order
    ensures Ordered(steps, order + [id])
  {
    var next := order + [id];
    forall a, k | 0 <= a < |next| && 0 <= k < |steps| && steps[k].id == next[a]
      ensures forall d | d in Deps(steps[k]) :: d in next[..a]
    {
      if a < |order| {
        assert next[..a] == order[..a];
      } else {
        assert next[..a] == order;
        RemainingFacts(Deps(steps[k]), Elems(order), id);
      }
    }
  }

  lemma TellOne(steps: seq<Step>, waiting: map<string, int>, settled: set<string>, id: string, followers: seq<string>,
                n: nat)
    requires UniqueIds(steps) && n < |followers| && id !in settled
    requires forall k | 0 <= k < |steps| :: Occurs(followers, steps[k].id) == Occurs(Deps(steps[k]), id)
    requires Counts(steps, waiting, settled, followers[..n])
    requires followers[n] in Ids(steps)
    ensures followers[n] in waiting && waiting[followers[n]] > 0
    ensures Counts(steps, waiting[followers[n] := waiting[followers[n]] - 1], settled, followers[..n + 1])
  {
    var next := followers[n];
    assert followers[..n + 1] == followers[..n] + [next];
    OccursFacts(followers, n + 1, next);
    forall y ensures Occurs(followers[..n + 1], y) == Occurs(followers[..n], y) + if y == next then 1 else 0 {
      Appended(followers[..n], next, y);
    }
    var at :| 0 <= at < |steps| && Ids(steps)[at] == next;
    RemainingFacts(Deps(steps[at]), settled, id);
  }

  /** Telling every dependent of the step just finished. */
  method Tell(steps: seq<Step>, dependents: map<string, seq<string>>, waiting0: map<string, int>,
              ghost order: seq<string>, ready0: seq<string>, ghost settled: set<string>, id: string)
    returns (waiting: map<string, int>, ready: seq<string>)
    requires UniqueIds(steps) && Indexed(steps, |steps|, dependents)
    requires id !in settled
    requires Counts(steps, waiting0, settled, []) && Queued(steps, waiting0, order + ready0)
    ensures Counts(steps, waiting, settled + {id}, []) && Queued(steps, waiting, order + ready)
  {
    waiting, ready := waiting0, ready0;
    var followers := At(dependents, id);
    assert Ids(steps)[..|steps|] == Ids(steps);
    for n := 0 to |followers|
      invariant Counts(steps, waiting, settled, followers[..n])
      invariant Queued(steps, waiting, order + ready)
    {
      var next := followers[n];
      assert next in followers && next in Ids(steps);
      TellOne(steps, waiting, settled, id, followers, n);
      waiting := waiting[next := waiting[next] - 1];
      if waiting[next] == 0 {
        assert order + (ready + [next]) == (order + ready) + [next];
        ready := ready + [next];
      }
    }
    assert followers[..|followers|] == followers;
    forall k | 0 <= k < |steps|
      ensures Remaining(Deps(steps[k]), settled + {id}) ==
          Remaining(Deps(steps[k]), settled) - Occurs(followers, steps[k].id)
    {
      RemainingFacts(Deps(steps[k]), settled, id);
    }
  }

  lemma NotYetFinished(order: seq<string>, ready: seq<string>)
    requires Distinct(order + ready) && ready != []
    ensures ready[0] !in order
  {
    assert forall a | 0 <= a < |order| :: order[a] == (order + ready)[a] != (order + ready)[|order|];
  }

  lemma {:induction false} DistinctFits(items: seq<string>, names: seq<string>)
    requires Distinct(items) && forall x | x in items :: x in names
    ensures |items| <= |names|
  {
    if |items| > |names| {
      var i, j := Pigeonhole(items, names);
      assert false;
    }
  }

  lemma MissingOne(order: seq<string>, names: seq<string>, i: nat)
    requires Distinct(order) && forall x | x in order :: x in names
    requires i < |names| && names[i] !in order
    ensures |order| < |names|
  {
    var others := names[..i] + names[i + 1..];
    forall x | x in order ensures x in others {
      var m :| 0 <= m < |names| && names[m] == x;
      assert m < i ==> names[..i][m] == x;
      assert m > i ==> names[i + 1..][m - i - 1] == x;
    }
    DistinctFits(order, others);
  }

  lemma NothingReady(steps: seq<Step>, waiting: map<string, int>, order: seq<string>)
    requires Counts(steps, waiting, Elems(order), []) && Queued(steps, waiting, order)
    ensures Stuck(steps, Elems(order))
  {
    forall k | 0 <= k < |steps| && steps[k].id !in Elems(order)
        ensures exists d | d in Deps(steps[k]) :: d !in Elems(order) {
      RemainingFacts(Deps(steps[k]), Elems(order), steps[k].id);
    }
  }

  /** At the end every step that is left is stuck; when none is left the order is complete. */
  lemma KahnEnds(steps: seq<Step>, waiting: map<string, int>, order: seq<string>)
    requires UniqueIds(steps) && KnownDeps(steps)
    requires Counts(steps, waiting, Elems(order), []) && Queued(steps, waiting, order) && Ordered(steps, order)
    ensures |order| == |steps| ==> IsTopologicalOrder(steps, order)
    ensures |order| != |steps| ==> HasCycle(steps)
  {
    if i :| 0 <= i < |steps| && Ids(steps)[i] !in order {
      MissingOne(order, Ids(steps), i);
      NothingReady(steps, waiting, order);
      StuckMeansCycle(steps, Elems(order));
    } else {
      assert forall x | x in Ids(steps) :: x in order;
      DistinctFits(order, Ids(steps));
      assert Distinct(Ids(steps));
      DistinctFits(Ids(steps), order);
    }
  }

  /** `sopHasCycle`: the answer is exact, and "no cycle" comes with an order to run the steps in. */
  method SopHasCycle(steps: seq<Step>) returns (cyclic: bool)
    requires UniqueIds(steps) && KnownDeps(steps)
    ensures cyclic <==> HasCycle(steps)
    ensures !cyclic <==> exists order: seq<string> :: IsTopologicalOrder(steps, order)
  {
    var waiting, dependents := CountDependencies(steps);
    var ready := FirstReady(steps, waiting);
    var done := 0;
    ghost var order: seq<string> := [];
    assert Elems(order) == {};
    assert order + ready == ready;
    while |ready| > 0
      invariant done == |order|
      invariant Counts(steps, waiting, Elems(order), []) && Queued(steps, waiting, order + ready)
          && Ordered(steps, order)
      decreases |steps| - done
    {
      var id := ready[0];
      NotYetFinished(order, ready);
      Finish(steps, waiting, order, id, order + ready);
      assert order + ready == (order + [id]) + ready[1..];
      ghost var settled := Elems(order);
      ready := ready[1..];
      order := order + [id];
      done := done + 1;
      DistinctFits(order, Ids(steps)) by { assert order <= order + ready; }
      waiting, ready := Tell(steps, dependents, waiting, order, ready, settled, id);
      assert settled + {id} == Elems(order);
    }
    assert order + ready == order;
    KahnEnds(steps, waiting, order);
    cyclic := done != |steps|;
    if !cyclic {
      OrderMeansAcyclic(steps, order);
    } else if other: seq<string> :| IsTopologicalOrder(steps, other) {
      OrderMeansAcyclic(steps, other);
      assert false;
    }
  }
}
