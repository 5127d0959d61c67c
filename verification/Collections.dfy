/** Options, results and the sequence functions that the tables are read with. */
module Collections {
  datatype Option<+T> = None | Some(value: T)

  datatype Result<+T, +E> = Ok(value: T) | Err(error: E)
  {
    predicate IsFailure() { Err? }

    function PropagateFailure<U>(): Result<U, E>
      requires Err?
    {
      Err(error)
    }

    function Extract(): T
      requires Ok?
    {
      value
    }
  }

  // ---------------------------------------------------------------- Filter

  /** The rows a WHERE clause keeps, in table order. */
  function Filter<T>(keep: T -> bool, xs: seq<T>): (r: seq<T>)
    ensures |r| <= |xs|
  {
    if xs == [] then []
    else if keep(xs[0]) then [xs[0]] + Filter(keep, xs[1..])
    else Filter(keep, xs[1..])
  }

  lemma {:induction false} FilterMembers<T>(keep: T -> bool, xs: seq<T>)
    ensures forall x :: x in Filter(keep, xs) ==> x in xs && keep(x)
    ensures forall x :: x in xs && keep(x) ==> x in Filter(keep, xs)
  {
    if xs != [] {
      assert xs == [xs[0]] + xs[1..];
      FilterMembers(keep, xs[1..]);
    }
  }

  lemma {:induction false} FilterConcat<T>(keep: T -> bool, xs: seq<T>, ys: seq<T>)
    ensures Filter(keep, xs + ys) == Filter(keep, xs) + Filter(keep, ys)
  {
    if xs == [] {
      assert xs + ys == ys;
    } else {
      assert (xs + ys)[1..] == xs[1..] + ys;
      FilterConcat(keep, xs[1..], ys);
    }
  }

  lemma {:induction false} FilterSame<T>(p: T -> bool, q: T -> bool, xs: seq<T>)
    requires forall x :: x in xs ==> p(x) == q(x)
    ensures Filter(p, xs) == Filter(q, xs)
  {
    if xs != [] {
      assert xs[0] in xs && forall x :: x in xs[1..] ==> x in xs;
      FilterSame(p, q, xs[1..]);
    }
  }

  lemma {:induction false} FilterAll<T>(keep: T -> bool, xs: seq<T>)
    requires forall x :: x in xs ==> keep(x)
    ensures Filter(keep, xs) == xs
  {
    if xs != [] {
      assert xs[0] in xs && forall x :: x in xs[1..] ==> x in xs;
      FilterAll(keep, xs[1..]);
    }
  }

  lemma {:induction false} FilterNone<T>(keep: T -> bool, xs: seq<T>)
    requires forall x :: x in xs ==> !keep(x)
    ensures Filter(keep, xs) == []
  {
    if xs != [] {
      assert xs[0] in xs && forall x :: x in xs[1..] ==> x in xs;
      FilterNone(keep, xs[1..]);
    }
  }

  /** Two WHERE clauses one after the other are their conjunction. */
  lemma {:induction false} FilterFilter<T>(p: T -> bool, q: T -> bool, both: T -> bool, xs: seq<T>)
    requires forall x :: x in xs ==> both(x) == (p(x) && q(x))
    ensures Filter(p, Filter(q, xs)) == Filter(both, xs)
  {
    if xs != [] {
      assert xs[0] in xs && forall x :: x in xs[1..] ==> x in xs;
      FilterFilter(p, q, both, xs[1..]);
      if q(xs[0]) {
        assert Filter(q, xs)[1..] == Filter(q, xs[1..]);
      }
    }
  }

  /** Tables that agree once `skip` has removed some rows agree under every clause those rows fail. */
  lemma FilterAvoids<T>(keep: T -> bool, skip: T -> bool, xs: seq<T>, ys: seq<T>)
    requires Filter(skip, xs) == Filter(skip, ys)
    requires forall x :: x in xs && keep(x) ==> skip(x)
    requires forall y :: y in ys && keep(y) ==> skip(y)
    ensures Filter(keep, xs) == Filter(keep, ys)
  {
    FilterFilter(keep, skip, keep, xs);
    FilterFilter(keep, skip, keep, ys);
  }

  // ----------------------------------------------------------- Duplicates

  ghost predicate Distinct<T>(xs: seq<T>)
  {
    forall i, j :: 0 <= i < j < |xs| ==> xs[i] != xs[j]
  }

  /** Each element once, in order of first occurrence. */
  function FirstOccurrences<T(==, !new)>(xs: seq<T>): (r: seq<T>)
    ensures forall x :: x in r <==> x in xs
  {
    if xs == [] then []
    else
      var init := FirstOccurrences(xs[..|xs| - 1]);
      assert xs == xs[..|xs| - 1] + [xs[|xs| - 1]];
      if xs[|xs| - 1] in init then init else init + [xs[|xs| - 1]]
  }

  lemma {:induction false} FirstOccurrencesDistinct<T(!new)>(xs: seq<T>)
    ensures Distinct(FirstOccurrences(xs))
  {
    if xs != [] {
      FirstOccurrencesDistinct(xs[..|xs| - 1]);
    }
  }

  // ---------------------------------------------------------- Permutations

  /** The head of one ordering can be taken out of the other, and the rests are reorderings again. */
  lemma HeadInPermutation<T>(xs: seq<T>, ys: seq<T>) returns (a: seq<T>, b: seq<T>)
    requires xs != [] && multiset(xs) == multiset(ys)
    ensures ys == a + [xs[0]] + b
    ensures multiset(xs[1..]) == multiset(a + b)
  {
    assert xs[0] in multiset(ys);
    var k :| 0 <= k < |ys| && ys[k] == xs[0];
    a, b := ys[..k], ys[k + 1..];
    assert ys == a + [xs[0]] + b;
    assert xs == [xs[0]] + xs[1..];
    assert multiset(ys) == multiset(a + b) + multiset{xs[0]};
    assert multiset(xs[1..]) == multiset(xs) - multiset{xs[0]};
  }

  lemma FilterOne<T>(keep: T -> bool, x: T)
    ensures Filter(keep, [x]) == if keep(x) then [x] else []
  {
    assert Filter(keep, [x][1..]) == [];
  }

  lemma FilterParts<T>(keep: T -> bool, a: seq<T>, x: T, b: seq<T>)
    ensures Filter(keep, a + [x] + b) == Filter(keep, a) + (if keep(x) then [x] else []) + Filter(keep, b)
  {
    FilterConcat(keep, a + [x], b);
    FilterConcat(keep, a, [x]);
    FilterOne(keep, x);
  }

  lemma FilterWithout<T>(keep: T -> bool, a: seq<T>, x: T, b: seq<T>)
    ensures multiset(Filter(keep, a + [x] + b)) ==
            multiset(Filter(keep, a + b)) + multiset(if keep(x) then [x] else [])
  {
    FilterParts(keep, a, x, b);
    FilterConcat(keep, a, b);
  }

  lemma {:induction false} FilterPermutation<T>(keep: T -> bool, xs: seq<T>, ys: seq<T>)
    requires multiset(xs) == multiset(ys)
    ensures multiset(Filter(keep, xs)) == multiset(Filter(keep, ys))
    decreases |xs|
  {
    if xs == [] {
      assert |multiset(ys)| == 0;
    } else {
      var a, b := HeadInPermutation(xs, ys);
      FilterPermutation(keep, xs[1..], a + b);
      FilterWithout(keep, a, xs[0], b);
    }
  }

  // ------------------------------------------------------------- TakeWhile

  /** The prefix a loop reads before it breaks at the first element failing `p`. */
  function TakeWhile<T>(p: T -> bool, xs: seq<T>): (r: seq<T>)
    ensures r <= xs
    ensures forall x :: x in r ==> x in xs && p(x)
    ensures |r| < |xs| ==> !p(xs[|r|])
  {
    if xs == [] || !p(xs[0]) then [] else [xs[0]] + TakeWhile(p, xs[1..])
  }

  /** A prefix of elements that all pass, followed by one that fails, is where the loop breaks. */
  lemma {:induction false} TakeWhileIs<T>(p: T -> bool, xs: seq<T>, n: nat)
    requires n <= |xs|
    requires forall i :: 0 <= i < n ==> p(xs[i])
    requires n < |xs| ==> !p(xs[n])
    ensures TakeWhile(p, xs) == xs[..n]
  {
    if n > 0 {
      TakeWhileIs(p, xs[1..], n - 1);
      assert xs[..n] == [xs[0]] + xs[1..][..n - 1];
    }
  }

  // ------------------------------------------------------------ Fold, Sum

  function Fold<S, T>(step: (S, T) -> S, s: S, xs: seq<T>): S
  {
    if xs == [] then s else Fold(step, step(s, xs[0]), xs[1..])
  }

  lemma {:induction false} FoldConcat<S, T>(step: (S, T) -> S, s: S, xs: seq<T>, ys: seq<T>)
    ensures Fold(step, s, xs + ys) == Fold(step, Fold(step, s, xs), ys)
  {
    if xs == [] {
      assert xs + ys == ys;
    } else {
      assert (xs + ys)[1..] == xs[1..] + ys;
      FoldConcat(step, step(s, xs[0]), xs[1..], ys);
    }
  }

  /** One more round of the loop. */
  lemma FoldNext<S, T>(step: (S, T) -> S, s: S, xs: seq<T>, i: nat)
    requires i < |xs|
    ensures Fold(step, s, xs[..i + 1]) == step(Fold(step, s, xs[..i]), xs[i])
  {
    assert xs[..i + 1] == xs[..i] + [xs[i]];
    FoldConcat(step, s, xs[..i], [xs[i]]);
  }

  function Sum<T>(f: T -> real, xs: seq<T>): real
  {
    if xs == [] then 0.0 else f(xs[0]) + Sum(f, xs[1..])
  }

  lemma {:induction false} SumConcat<T>(f: T -> real, xs: seq<T>, ys: seq<T>)
    ensures Sum(f, xs + ys) == Sum(f, xs) + Sum(f, ys)
  {
    if xs == [] {
      assert xs + ys == ys;
    } else {
      assert (xs + ys)[1..] == xs[1..] + ys;
      SumConcat(f, xs[1..], ys);
    }
  }

  lemma SumOne<T>(f: T -> real, x: T)
    ensures Sum(f, [x]) == f(x)
  {
    assert [x][1..] == [];
  }

  lemma SumNext<T>(f: T -> real, xs: seq<T>, i: nat)
    requires i < |xs|
    ensures Sum(f, xs[..i + 1]) == Sum(f, xs[..i]) + f(xs[i])
  {
    assert xs[..i + 1] == xs[..i] + [xs[i]];
    SumConcat(f, xs[..i], [xs[i]]);
  }

  lemma {:induction false} SumSame<T>(f: T -> real, g: T -> real, xs: seq<T>)
    requires forall x :: x in xs ==> f(x) == g(x)
    ensures Sum(f, xs) == Sum(g, xs)
  {
    if xs != [] {
      assert xs[0] in xs && forall x :: x in xs[1..] ==> x in xs;
      SumSame(f, g, xs[1..]);
    }
  }

  /** A sum does not depend on the order of its terms. */
  lemma {:induction false} SumPermutation<T>(f: T -> real, xs: seq<T>, ys: seq<T>)
    requires multiset(xs) == multiset(ys)
    ensures Sum(f, xs) == Sum(f, ys)
    decreases |xs|
  {
    if xs == [] {
      assert |multiset(ys)| == 0;
    } else {
      var a, b := HeadInPermutation(xs, ys);
      SumPermutation(f, xs[1..], a + b);
      SumConcat(f, a + [xs[0]], b);
      SumConcat(f, a, [xs[0]]);
      SumConcat(f, a, b);
    }
  }
}
