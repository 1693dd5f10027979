/** What several modules need. */
module Common {

  datatype Option<+T> = None | Some(value: T)

  predicate Distinct<T(==)>(items: seq<T>) {
    forall i, j | 0 <= i < j < |items| :: items[i] != items[j]
  }

  lemma DistinctAppend<T>(items: seq<T>, x: T)
    requires Distinct(items) && x !in items
    ensures Distinct(items + [x])
  {
  }

  function Filter<T>(keep: T -> bool, items: seq<T>): seq<T> {
    if items == [] then []
    else Filter(keep, items[..|items| - 1]) + if keep(items[|items| - 1]) then [items[|items| - 1]] else []
  }

  lemma {:induction false} FilterConcat<T>(keep: T -> bool, a: seq<T>, b: seq<T>)
    ensures Filter(keep, a + b) == Filter(keep, a) + Filter(keep, b)
  {
    if b == [] {
      assert a + b == a;
    } else {
      FilterConcat(keep, a, b[..|b| - 1]);
      assert (a + b)[..|a + b| - 1] == a + b[..|b| - 1];
    }
  }

  lemma {:induction false} FilterMembers<T>(keep: T -> bool, items: seq<T>)
    ensures forall e :: e in Filter(keep, items) <==> e in items && keep(e)
  {
    if items != [] {
      FilterMembers(keep, items[..|items| - 1]);
      assert items == items[..|items| - 1] + [items[|items| - 1]];
    }
  }

  lemma {:induction false} FilterAll<T>(keep: T -> bool, items: seq<T>)
    requires forall e | e in items :: keep(e)
    ensures Filter(keep, items) == items
  {
    if items != [] {
      FilterAll(keep, items[..|items| - 1]);
      assert items == items[..|items| - 1] + [items[|items| - 1]];
    }
  }

  lemma {:induction false} FilterNone<T>(keep: T -> bool, items: seq<T>)
    requires forall e | e in items :: !keep(e)
    ensures Filter(keep, items) == []
  {
    if items != [] {
      FilterNone(keep, items[..|items| - 1]);
    }
  }

  lemma FilterLast<T>(keep: T -> bool, items: seq<T>, e: T)
    ensures Filter(keep, items + [e]) == Filter(keep, items) + if keep(e) then [e] else []
  {
  }

  lemma {:induction false} FilterTwice<T>(first: T -> bool, second: T -> bool, both: T -> bool, items: seq<T>)
    requires forall e | e in items :: both(e) <==> first(e) && second(e)
    ensures Filter(second, Filter(first, items)) == Filter(both, items)
  {
    if items != [] {
      var front, last := items[..|items| - 1], items[|items| - 1];
      assert items == front + [last];
      FilterTwice(first, second, both, front);
      FilterConcat(second, Filter(first, front), if first(last) then [last] else []);
    }
  }

  lemma {:induction false} FilterAgain<T>(keep: T -> bool, items: seq<T>)
    ensures Filter(keep, Filter(keep, items)) == Filter(keep, items)
  {
    if items != [] {
      var front, last := items[..|items| - 1], items[|items| - 1];
      FilterAgain(keep, front);
      if keep(last) {
        FilterLast(keep, Filter(keep, front), last);
      } else {
        assert Filter(keep, front) + [] == Filter(keep, front);
      }
    }
  }
}
