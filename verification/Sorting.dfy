/** ORDER BY as a stable insertion sort: rows that compare equal keep their table order. */
module Sorting {
  import opened Collections

  ghost predicate TotalPreorder<T(!new)>(le: (T, T) -> bool)
  {
    && (forall a, b :: le(a, b) || le(b, a))
    && (forall a, b, c :: le(a, b) && le(b, c) ==> le(a, c))
  }

  ghost predicate SortedBy<T>(le: (T, T) -> bool, xs: seq<T>)
  {
    forall i, j :: 0 <= i < j < |xs| ==> le(xs[i], xs[j])
  }

  function Insert<T>(le: (T, T) -> bool, xs: seq<T>, x: T): (r: seq<T>)
  {
    if xs == [] then [x]
    else if le(xs[0], x) then [xs[0]] + Insert(le, xs[1..], x)
    else [x] + xs
  }

  function Sort<T>(le: (T, T) -> bool, xs: seq<T>): (r: seq<T>)
  {
    if xs == [] then [] else Insert(le, Sort(le, xs[..|xs| - 1]), xs[|xs| - 1])
  }

  lemma {:induction false} InsertMultiset<T>(le: (T, T) -> bool, xs: seq<T>, x: T)
    ensures multiset(Insert(le, xs, x)) == multiset(xs) + multiset{x}
  {
    if xs != [] {
      assert xs == [xs[0]] + xs[1..];
      InsertMultiset(le, xs[1..], x);
    }
  }

  lemma InsertMembers<T>(le: (T, T) -> bool, xs: seq<T>, x: T)
    ensures forall y :: y in Insert(le, xs, x) ==> y in xs || y == x
  {
    InsertMultiset(le, xs, x);
    assert forall y :: y in Insert(le, xs, x) ==> y in multiset(Insert(le, xs, x));
  }

  lemma {:induction false} SortMultiset<T>(le: (T, T) -> bool, xs: seq<T>)
    ensures multiset(Sort(le, xs)) == multiset(xs)
  {
    if xs != [] {
      assert xs == xs[..|xs| - 1] + [xs[|xs| - 1]];
      SortMultiset(le, xs[..|xs| - 1]);
      InsertMultiset(le, Sort(le, xs[..|xs| - 1]), xs[|xs| - 1]);
    }
  }

  lemma SortMembers<T>(le: (T, T) -> bool, xs: seq<T>)
    ensures |Sort(le, xs)| == |xs|
    ensures forall x :: x in Sort(le, xs) ==> x in xs
    ensures forall x :: x in xs ==> x in Sort(le, xs)
  {
    SortMultiset(le, xs);
    assert |multiset(Sort(le, xs))| == |multiset(xs)|;
    assert forall x :: x in Sort(le, xs) ==> x in multiset(Sort(le, xs));
    assert forall x :: x in xs ==> x in multiset(xs);
  }

  lemma {:induction false} InsertSorted<T(!new)>(le: (T, T) -> bool, xs: seq<T>, x: T)
    requires TotalPreorder(le) && SortedBy(le, xs)
    ensures SortedBy(le, Insert(le, xs, x))
  {
    if xs != [] {
      var rest := Insert(le, xs[1..], x);
      InsertSorted(le, xs[1..], x);
      InsertMembers(le, xs[1..], x);
      if le(xs[0], x) {
        forall y | y in rest
          ensures le(xs[0], y)
        {
          if y in xs[1..] {
            var i :| 0 <= i < |xs[1..]| && xs[1..][i] == y;
            assert xs[i + 1] == y;
          }
        }
      }
    }
  }

  lemma {:induction false} SortSorted<T(!new)>(le: (T, T) -> bool, xs: seq<T>)
    requires TotalPreorder(le)
    ensures SortedBy(le, Sort(le, xs))
  {
    if xs != [] {
      SortSorted(le, xs[..|xs| - 1]);
      InsertSorted(le, Sort(le, xs[..|xs| - 1]), xs[|xs| - 1]);
    }
  }

  lemma InsertFirst<T(!new)>(le: (T, T) -> bool, keep: T -> bool, xs: seq<T>, x: T)
    requires TotalPreorder(le) && SortedBy(le, xs)
    requires xs != [] && !le(xs[0], x)
    ensures Insert(le, Filter(keep, xs), x) == [x] + Filter(keep, xs)
  {
    var kept := Filter(keep, xs);
    FilterMembers(keep, xs);
    if kept != [] {
      assert kept[0] in kept;
      var i :| 0 <= i < |xs| && xs[i] == kept[0];
      assert le(xs[0], kept[0]);
    }
  }

  lemma InsertLater<T>(le: (T, T) -> bool, keep: T -> bool, xs: seq<T>, x: T)
    requires xs != [] && le(xs[0], x)
    requires Filter(keep, Insert(le, xs[1..], x)) ==
             if keep(x) then Insert(le, Filter(keep, xs[1..]), x) else Filter(keep, xs[1..])
    ensures Filter(keep, Insert(le, xs, x)) ==
            if keep(x) then Insert(le, Filter(keep, xs), x) else Filter(keep, xs)
  {
    var h, rest := xs[0], Insert(le, xs[1..], x);
    assert Insert(le, xs, x) == [h] + rest;
    assert ([h] + rest)[1..] == rest;
    if keep(h) {
      assert ([h] + Filter(keep, xs[1..]))[1..] == Filter(keep, xs[1..]);
    }
  }

  lemma {:induction false} FilterInsert<T(!new)>(le: (T, T) -> bool, keep: T -> bool, xs: seq<T>, x: T)
    requires TotalPreorder(le) && SortedBy(le, xs)
    ensures Filter(keep, Insert(le, xs, x)) ==
            if keep(x) then Insert(le, Filter(keep, xs), x) else Filter(keep, xs)
  {
    if xs == [] {
      assert [x][1..] == [];
    } else if le(xs[0], x) {
      FilterInsert(le, keep, xs[1..], x);
      InsertLater(le, keep, xs, x);
    } else {
      assert ([x] + xs)[1..] == xs;
      InsertFirst(le, keep, xs, x);
    }
  }

  /** A WHERE clause commutes with a stable ORDER BY. */
  lemma {:induction false} FilterSort<T(!new)>(le: (T, T) -> bool, keep: T -> bool, xs: seq<T>)
    requires TotalPreorder(le)
    ensures Filter(keep, Sort(le, xs)) == Sort(le, Filter(keep, xs))
  {
    if xs != [] {
      var init, last := xs[..|xs| - 1], xs[|xs| - 1];
      assert xs == init + [last];
      FilterSort(le, keep, init);
      SortSorted(le, init);
      FilterInsert(le, keep, Sort(le, init), last);
      FilterConcat(keep, init, [last]);
      assert Filter(keep, [last]) == if keep(last) then [last] else [];
      if keep(last) {
        var kept := Filter(keep, xs);
        assert kept == Filter(keep, init) + [last];
        assert kept[..|kept| - 1] == Filter(keep, init);
      } else {
        assert Filter(keep, xs) == Filter(keep, init);
      }
    }
  }

  lemma {:induction false} InsertLast<T>(le: (T, T) -> bool, xs: seq<T>, x: T)
    requires forall y :: y in xs ==> le(y, x)
    ensures Insert(le, xs, x) == xs + [x]
  {
    if xs != [] {
      assert xs[0] in xs && forall y :: y in xs[1..] ==> y in xs;
      InsertLast(le, xs[1..], x);
    }
  }

  /** Appending a row that is not below any other appends it to the ordered read as well. */
  lemma SortAppend<T>(le: (T, T) -> bool, xs: seq<T>, x: T)
    requires forall y :: y in xs ==> le(y, x)
    ensures Sort(le, xs + [x]) == Sort(le, xs) + [x]
  {
    assert (xs + [x])[..|xs + [x]| - 1] == xs;
    SortMembers(le, xs);
    InsertLast(le, Sort(le, xs), x);
  }

  /** On an ordered read, breaking at the first row past a downward-closed bound filters by it. */
  lemma {:induction false} TakeWhileSorted<T>(le: (T, T) -> bool, p: T -> bool, xs: seq<T>)
    requires SortedBy(le, xs)
    requires forall a, b :: a in xs && b in xs && le(a, b) && p(b) ==> p(a)
    ensures TakeWhile(p, xs) == Filter(p, xs)
  {
    if xs != [] {
      assert forall x :: x in xs[1..] ==> x in xs;
      if p(xs[0]) {
        TakeWhileSorted(le, p, xs[1..]);
      } else {
        forall x | x in xs
          ensures !p(x)
        {
          var i :| 0 <= i < |xs| && xs[i] == x;
          assert xs[0] in xs;
          assert i == 0 || le(xs[0], xs[i]);
        }
        FilterNone(p, xs);
      }
    }
  }
}
