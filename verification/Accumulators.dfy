/**
 * A task's usage and budgets, folded from its events (`addJSONNumbers` and `updateTaskAccumulators` in
 * internal/store/pgstore/task_events.go). Amounts are integers here.
 */
module Accumulators {
  import opened Common
  import opened Events

  // ---- adding one delta ----

  function AmountOf(amounts: Amounts, key: string): int {
    if key in amounts && amounts[key].Number? then amounts[key].n else 0
  }

  /**
   * What one entry of a delta leaves under its key: a number is added, anything else but null replaces what was there.
   */
  function Entered(base: Amounts, key: string, amount: Amount): Amount {
    if amount.Number? then Number(AmountOf(base, key) + amount.n) else amount
  }

  /** The keys of a delta that change something: null is an unknown amount. */
  function Given(delta: Amounts): set<string> {
    set key | key in delta && !delta[key].Null?
  }

  function Added(base: Amounts, delta: Amounts): Amounts {
    map key | key in base.Keys + Given(delta) :: if key in Given(delta) then Entered(base, key, delta[key])
        else base[key]
  }

  /** `addJSONNumbers`: the loop over the delta may take its keys in any order. */
  method AddJsonNumbers(base: Amounts, delta: Amounts) returns (out: Amounts)
    ensures out == Added(base, delta)
  {
    out := base;
    var left := delta.Keys;
    while left != {}
      invariant left <= delta.Keys
      invariant out.Keys == base.Keys + (Given(delta) - left)
      invariant forall key | key in out :: out[key] == if key in Given(delta) - left
          then Entered(base, key, delta[key]) else base[key]
      decreases left
    {
      var key :| key in left;
      var value := delta[key];
      if !value.Null? {
        if value.NotNumber? {
          out := out[key := value];
        } else if key in out && out[key].Number? {
          out := out[key := Number(out[key].n + value.n)];
        } else {
          out := out[key := Number(value.n)];
        }
      }
      left := left - {key};
    }
  }

  /** A number of a delta is added to its key; the sum is right unless a text stands where an amount should. */
  lemma AddedSums(base: Amounts, delta: Amounts, key: string)
    ensures AmountOf(Added(base, delta), key) == AmountOf(base, key) + AmountOf(delta, key) <==>
              !(key in delta && delta[key].NotNumber? && AmountOf(base, key) != 0)
  {
  }

  // ---- over a log ----

  datatype Kind = Budget | Usage

  /** What an event adds; nothing for most. */
  function DeltaOf(e: Event, kind: Kind): Amounts {
    match e.change
    case BudgetGranted(delta) => if kind == Budget then delta else map[]
    case UsageRecorded(delta) => if kind == Usage then delta else map[]
    case _ => map[]
  }

  function Folded(initial: Amounts, events: seq<Event>, kind: Kind): Amounts {
    if events == [] then initial
    else Added(Folded(initial, events[..|events| - 1], kind), DeltaOf(events[|events| - 1], kind))
  }

  function Total(events: seq<Event>, kind: Kind, key: string): int {
    if events == [] then 0
    else Total(events[..|events| - 1], kind, key) + AmountOf(DeltaOf(events[|events| - 1], kind), key)
  }

  predicate Numeric(events: seq<Event>, kind: Kind, key: string) {
    forall e | e in events && key in DeltaOf(e, kind) :: !DeltaOf(e, kind)[key].NotNumber?
  }

  /**
   * Conservation: every key is its initial amount plus the sum of its deltas over the events; null deltas add nothing.
   */
  lemma {:induction false} Conservation(initial: Amounts, events: seq<Event>, kind: Kind, key: string)
    requires Numeric(events, kind, key)
    ensures AmountOf(Folded(initial, events, kind), key) == AmountOf(initial, key) + Total(events, kind, key)
  {
    if events != [] {
      var front, last := events[..|events| - 1], events[|events| - 1];
      assert events == front + [last];
      Conservation(initial, front, kind, key);
      AddedSums(Folded(initial, front, kind), DeltaOf(last, kind), key);
    }
  }

  lemma {:induction false} TotalWithout(events: seq<Event>, at: nat, kind: Kind, key: string)
    requires at < |events|
    ensures Total(events, kind, key) ==
        Total(events[..at] + events[at + 1..], kind, key) + AmountOf(DeltaOf(events[at], kind), key)
  {
    var n := |events| - 1;
    if at == n {
      assert events[..at] + events[at + 1..] == events[..n];
    } else {
      TotalWithout(events[..n], at, kind, key);
      var rest := events[..at] + events[at + 1..];
      assert rest[..|rest| - 1] == events[..n][..at] + events[..n][at + 1..];
    }
  }

  lemma TakenOut(a: seq<Event>, b: seq<Event>, at: nat)
    requires a != [] && at < |b| && b[at] == a[|a| - 1] && multiset(a) == multiset(b)
    ensures multiset(a[..|a| - 1]) == multiset(b[..at] + b[at + 1..])
  {
    WithoutOne(a, |a| - 1);
    WithoutOne(b, at);
    assert a[..|a| - 1] + a[|a|..] == a[..|a| - 1];
  }

  lemma WithoutOne(items: seq<Event>, at: nat)
    requires at < |items|
    ensures multiset(items[..at] + items[at + 1..]) == multiset(items) - multiset{items[at]}
  {
    assert items == items[..at] + [items[at]] + items[at + 1..];
  }

  lemma {:induction false} TotalIgnoresOrder(a: seq<Event>, b: seq<Event>, kind: Kind, key: string)
    requires multiset(a) == multiset(b)
    ensures Total(a, kind, key) == Total(b, kind, key)
  {
    if a == [] {
      assert |b| == |multiset(b)| == 0;
    } else {
      var last := a[|a| - 1];
      assert last in multiset(a) && last in b;
      var at :| 0 <= at < |b| && b[at] == last;
      TakenOut(a, b, at);
      TotalIgnoresOrder(a[..|a| - 1], b[..at] + b[at + 1..], kind, key);
      TotalWithout(b, at, kind, key);
    }
  }

  /** The amounts do not depend on the order in which the events arrived. */
  lemma OrderDoesNotMatter(initial: Amounts, a: seq<Event>, b: seq<Event>, kind: Kind, key: string)
    requires multiset(a) == multiset(b) && Numeric(a, kind, key)
    ensures AmountOf(Folded(initial, a, kind), key) == AmountOf(Folded(initial, b, kind), key)
  {
    forall e | e in b ensures e in a {
      assert e in multiset(b) && e in multiset(a);
    }
    Conservation(initial, a, kind, key);
    Conservation(initial, b, kind, key);
    TotalIgnoresOrder(a, b, kind, key);
  }

  // ---- what was granted, and what was used ----

  /** The numbers under a key that the grants among the events give. */
  function Granted(events: seq<Event>, key: string): int {
    if events == [] then 0 else
      Granted(events[..|events| - 1], key) +
      match events[|events| - 1].change
      case BudgetGranted(delta) => if key in delta && delta[key].Number? then delta[key].n else 0
      case _ => 0
  }

  /** The numbers under a key that the usage records among the events give. */
  function Recorded(events: seq<Event>, key: string): int {
    if events == [] then 0 else
      Recorded(events[..|events| - 1], key) +
      match events[|events| - 1].change
      case UsageRecorded(delta) => if key in delta && delta[key].Number? then delta[key].n else 0
      case _ => 0
  }

  /** No grant has a text under the key. */
  predicate NoTextGranted(events: seq<Event>, key: string) {
    forall e | e in events && e.change.BudgetGranted? && key in e.change.delta :: !e.change.delta[key].NotNumber?
  }

  predicate NoTextRecorded(events: seq<Event>, key: string) {
    forall e | e in events && e.change.UsageRecorded? && key in e.change.delta :: !e.change.delta[key].NotNumber?
  }

  lemma {:induction false} TotalsAreTheSums(events: seq<Event>, key: string)
    ensures Total(events, Budget, key) == Granted(events, key) && Total(events, Usage, key) == Recorded(events, key)
    ensures Numeric(events, Budget, key) <==> NoTextGranted(events, key)
    ensures Numeric(events, Usage, key) <==> NoTextRecorded(events, key)
  {
    if events != [] {
      TotalsAreTheSums(events[..|events| - 1], key);
    }
  }

  /** What stands under a key, if anything. */
  function AmountAt(amounts: Amounts, key: string): Option<Amount> {
    if key in amounts then Some(amounts[key]) else None
  }

  /** A number is added to a number, and replaces anything else; null leaves what is there; a text replaces it. */
  function Entering(before: Option<Amount>, amount: Amount): Option<Amount> {
    match amount
    case Null => before
    case Number(n) =>
      if before.Some? && before.value.Number? then Some(Number(before.value.n + n)) else Some(Number(n))
    case NotNumber(text) => Some(NotNumber(text))
  }

  /** What the budget shows under a key after the events: grants enter, nothing else does. */
  function BudgetShown(before: Option<Amount>, events: seq<Event>, key: string): Option<Amount> {
    if events == [] then before else
      var shown := BudgetShown(before, events[..|events| - 1], key);
      match events[|events| - 1].change
      case BudgetGranted(delta) => if key in delta then Entering(shown, delta[key]) else shown
      case _ => shown
  }

  /** What the usage shows under a key after the events: usage records enter, nothing else does. */
  function UsageShown(before: Option<Amount>, events: seq<Event>, key: string): Option<Amount> {
    if events == [] then before else
      var shown := UsageShown(before, events[..|events| - 1], key);
      match events[|events| - 1].change
      case UsageRecorded(delta) => if key in delta then Entering(shown, delta[key]) else shown
      case _ => shown
  }

  lemma AddedAt(base: Amounts, delta: Amounts, key: string)
    ensures AmountAt(Added(base, delta), key) ==
            if key in delta then Entering(AmountAt(base, key), delta[key]) else AmountAt(base, key)
  {
  }

  /** Key by key, with texts and nulls: what any fold over the events shows. */
  lemma {:induction false} FoldShows(initial: Amounts, events: seq<Event>, key: string)
    ensures AmountAt(Folded(initial, events, Budget), key) == BudgetShown(AmountAt(initial, key), events, key)
    ensures AmountAt(Folded(initial, events, Usage), key) == UsageShown(AmountAt(initial, key), events, key)
  {
    if events != [] {
      var front, last := events[..|events| - 1], events[|events| - 1];
      FoldShows(initial, front, key);
      AddedAt(Folded(initial, front, Budget), DeltaOf(last, Budget), key);
      AddedAt(Folded(initial, front, Usage), DeltaOf(last, Usage), key);
    }
  }
}
