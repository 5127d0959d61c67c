/**
 transaction_repository.go orders by date only: exactly when every date-ordered load of the same rows gives
 the same metrics on every day.
 */
module LoadOrder {
  import opened Collections
  import opened Sorting
  import opened Schema
  import opened Ledger
  import opened DayOrder
  import opened DayOrderNeeded

  /**
   The transactions of a day leave the same metrics in whatever order they are read if and only if nothing
   is sold at all, or nothing but shares of no effect; or, as long as the shares held cover the sales,
   everything is bought at the average cost and no fee is paid; or, when more is sold than was held, nothing
   costs anything and no cost is left over, or one sale and one purchase just balance.
   */
  lemma DayOrderIff(m: Metrics, day: seq<Transaction>)
    ensures AllOrdersAgree(m, day) <==> OrderFree(m, day)
  {
    if AllOrdersAgree(m, day) {
      FreeNeeded(m, day);
    }
    if OrderFree(m, day) {
      FreeAgrees(m, day);
    }
  }

  // ------------------------------------------------------ simple cases

  /** Sales, dividends and nothing that is bought or charged. */
  predicate NothingAdded(ts: seq<Transaction>)
  {
    forall t :: t in ts ==> BoughtShares(t) == 0.0 && MoneyMoved(t) == 0.0
  }

  lemma NothingAddedIsFree(m: Metrics, day: seq<Transaction>)
    requires NothingAdded(day)
    ensures OrderFree(m, day)
  {
    SumNil(BoughtShares, day);
    TotalsNonNegative(day);
    assert AtAverage(m, day) by {
      forall t | t in day
        ensures AverageTrade(m, t)
      {
      }
    }
  }

  ghost predicate Homogeneous(ts: seq<Transaction>)
  {
    NothingAdded(ts) || !HasSell(ts)
  }

  /** A run of sells and dividends, or a run without sells, may be applied in any order. */
  lemma RunOrderIrrelevant(m: Metrics, a: seq<Transaction>, b: seq<Transaction>)
    requires multiset(a) == multiset(b) && Homogeneous(a)
    ensures Fold(MetricsStep, m, a) == Fold(MetricsStep, m, b)
  {
    if NothingAdded(a) {
      NothingAddedIsFree(m, a);
    }
    FreeAgrees(m, a);
  }

  /** On a day that mixes a buy with a sell the order decides the remaining cost. */
  lemma MixedDayOrderMatters() returns (m: Metrics, a: seq<Transaction>, b: seq<Transaction>)
    ensures multiset(a) == multiset(b) && SortedBy(ByDate, a) && SortedBy(ByDate, b)
    ensures Fold(MetricsStep, m, a).cost != Fold(MetricsStep, m, b).cost
  {
    var bought := Transaction(1, 0, 1, Buy, 1.0, 20.0);
    var sold := Transaction(2, 0, 1, Sell, 1.0, 20.0);
    m := Metrics(1.0, 10.0, 0.0, 0.0);
    a, b := [bought, sold], [sold, bought];
    assert a[1..] == [sold] && b[1..] == [bought] && [sold][1..] == [] && [bought][1..] == [];
    assert Fold(MetricsStep, Metrics(2.0, 30.0, 0.0, 0.0), [sold]) == Metrics(1.0, 15.0, 0.0, 0.0);
    assert Fold(MetricsStep, Metrics(0.0, 0.0, 0.0, 0.0), [bought]) == Metrics(1.0, 20.0, 0.0, 0.0);
  }

  // --------------------------------------------------------- whole loads

  /** What a load says on a day. */
  function MetricsOn(m: Metrics, load: seq<Transaction>, date: Day): Metrics
  {
    Fold(MetricsStep, m, TakeWhile(UpTo(date), load))
  }

  /** Every date-ordered load of the same rows says the same on every day. */
  ghost predicate LoadsAgree(m: Metrics, load: seq<Transaction>)
  {
    forall other, date :: multiset(other) == multiset(load) && SortedBy(ByDate, other) ==>
      MetricsOn(m, other, date) == MetricsOn(m, load, date)
  }

  function FirstDay(ts: seq<Transaction>): (day: seq<Transaction>)
    requires ts != []
    ensures day <= ts && day != []
  {
    TakeWhile(UpTo(ts[0].date), ts)
  }

  function LaterDays(ts: seq<Transaction>): (rest: seq<Transaction>)
    requires ts != []
    ensures |rest| < |ts| && FirstDay(ts) + rest == ts
  {
    ts[|FirstDay(ts)|..]
  }

  /** The order of each day is free, given the metrics it starts from. */
  ghost predicate DaysFree(m: Metrics, load: seq<Transaction>)
    decreases |load|
  {
    load == [] ||
    (OrderFree(m, FirstDay(load)) && DaysFree(Fold(MetricsStep, m, FirstDay(load)), LaterDays(load)))
  }

  lemma DaySplit(ts: seq<Transaction>)
    requires ts != [] && SortedBy(ByDate, ts)
    ensures FirstDay(ts) == Filter(UpTo(ts[0].date), ts)
    ensures forall t :: t in FirstDay(ts) ==> t.date == ts[0].date
    ensures forall t :: t in LaterDays(ts) ==> t.date > ts[0].date
    ensures SortedBy(ByDate, LaterDays(ts))
  {
    var day, rest := FirstDay(ts), LaterDays(ts);
    TakeWhileSorted(ByDate, UpTo(ts[0].date), ts);
    forall t | t in day
      ensures t.date == ts[0].date
    {
      var i :| 0 <= i < |ts| && ts[i] == t;
      assert i == 0 || ByDate(ts[0], ts[i]);
    }
    forall t | t in rest
      ensures t.date > ts[0].date
    {
      var i :| 0 <= i < |rest| && rest[i] == t;
      assert ts[|day|] == rest[0] && !UpTo(ts[0].date)(rest[0]);
      assert i == 0 || ByDate(rest[0], rest[i]);
    }
  }

  /** Reading on from a whole day. */
  lemma DayThenRest(m: Metrics, day: seq<Transaction>, rest: seq<Transaction>, date: Day, d: Day)
    requires (forall t :: t in day ==> t.date == date) && forall t :: t in rest ==> t.date > date
    ensures MetricsOn(m, day + rest, d) ==
            if d < date then m else MetricsOn(Fold(MetricsStep, m, day), rest, d)
  {
    if d < date {
      assert forall t :: t in day + rest ==> !UpTo(d)(t);
      assert TakeWhile(UpTo(d), day + rest) == [];
    } else {
      TakeAllThen(UpTo(d), day, rest);
      FoldConcat(MetricsStep, m, day, TakeWhile(UpTo(d), rest));
    }
  }

  lemma {:induction false} TakeAllThen(p: Transaction -> bool, xs: seq<Transaction>, ys: seq<Transaction>)
    requires forall x :: x in xs ==> p(x)
    ensures TakeWhile(p, xs + ys) == xs + TakeWhile(p, ys)
  {
    if xs == [] {
      assert xs + ys == ys;
    } else {
      assert xs[0] in xs && forall x :: x in xs[1..] ==> x in xs;
      assert (xs + ys)[1..] == xs[1..] + ys;
      TakeAllThen(p, xs[1..], ys);
    }
  }

  lemma SameFirstDate(a: seq<Transaction>, b: seq<Transaction>)
    requires multiset(a) == multiset(b) && a != [] && b != []
    requires SortedBy(ByDate, a) && SortedBy(ByDate, b)
    ensures a[0].date == b[0].date
  {
    assert a[0] in multiset(b) && b[0] in multiset(a);
    var i :| 0 <= i < |b| && b[i] == a[0];
    var j :| 0 <= j < |a| && a[j] == b[0];
    assert i == 0 || ByDate(b[0], b[i]);
    assert j == 0 || ByDate(a[0], a[j]);
  }

  lemma RestOfDays(ts: seq<Transaction>)
    requires ts != []
    ensures multiset(LaterDays(ts)) == multiset(ts) - multiset(FirstDay(ts))
  {
    assert multiset(FirstDay(ts) + LaterDays(ts)) == multiset(FirstDay(ts)) + multiset(LaterDays(ts));
  }

  lemma SameDays(a: seq<Transaction>, b: seq<Transaction>)
    requires multiset(a) == multiset(b) && a != [] && b != []
    requires SortedBy(ByDate, a) && SortedBy(ByDate, b)
    ensures a[0].date == b[0].date
    ensures multiset(FirstDay(a)) == multiset(FirstDay(b)) && multiset(LaterDays(a)) == multiset(LaterDays(b))
  {
    SameFirstDate(a, b);
    DaySplit(a);
    DaySplit(b);
    FilterPermutation(UpTo(a[0].date), a, b);
    RestOfDays(a);
    RestOfDays(b);
  }

  lemma FirstDayThen(m: Metrics, load: seq<Transaction>, d: Day)
    requires load != [] && SortedBy(ByDate, load)
    ensures MetricsOn(m, load, d) ==
            if d < load[0].date then m
            else MetricsOn(Fold(MetricsStep, m, FirstDay(load)), LaterDays(load), d)
  {
    DaySplit(load);
    DayThenRest(m, FirstDay(load), LaterDays(load), load[0].date, d);
  }

  lemma {:induction false} FreeLoadsAgree(
    m: Metrics, load: seq<Transaction>, other: seq<Transaction>, d: Day)
    requires SortedBy(ByDate, load) && SortedBy(ByDate, other) && multiset(other) == multiset(load)
    requires DaysFree(m, load)
    ensures MetricsOn(m, other, d) == MetricsOn(m, load, d)
    decreases |load|
  {
    assert |multiset(other)| == |other| && |multiset(load)| == |load|;
    if load != [] {
      SameDays(load, other);
      DaySplit(load);
      DaySplit(other);
      FirstDayThen(m, load, d);
      FirstDayThen(m, other, d);
      FreeAgrees(m, FirstDay(load));
      FreeLoadsAgree(Fold(MetricsStep, m, FirstDay(load)), LaterDays(load), LaterDays(other), d);
    }
  }

  lemma JoinedSorted(day: seq<Transaction>, rest: seq<Transaction>, date: Day)
    requires (forall t :: t in day ==> t.date == date) && (forall t :: t in rest ==> t.date > date)
    requires SortedBy(ByDate, rest)
    ensures SortedBy(ByDate, day + rest)
  {
    var ts := day + rest;
    forall i, j | 0 <= i < j < |ts|
      ensures ByDate(ts[i], ts[j])
    {
      assert i < |day| ==> ts[i] in day;
      assert if j < |day| then ts[j] in day else ts[j] in rest;
      assert i >= |day| ==> ByDate(rest[i - |day|], rest[j - |day|]);
    }
  }

  lemma Exchanged(load: seq<Transaction>, day: seq<Transaction>, rest: seq<Transaction>)
    requires load != [] && multiset(day) == multiset(FirstDay(load)) && multiset(rest) == multiset(LaterDays(load))
    ensures multiset(day + rest) == multiset(load)
    ensures (forall t :: t in day ==> t in FirstDay(load)) && forall t :: t in rest ==> t in LaterDays(load)
  {
    SameTotals(day, FirstDay(load));
    SameTotals(rest, LaterDays(load));
    assert multiset(FirstDay(load) + LaterDays(load)) == multiset(FirstDay(load)) + multiset(LaterDays(load));
  }

  /** Other orders of the first day and of the rest make another load. */
  lemma OtherLoad(
    m: Metrics, load: seq<Transaction>, day: seq<Transaction>, rest: seq<Transaction>, d: Day)
    requires LoadsAgree(m, load) && load != [] && SortedBy(ByDate, load) && SortedBy(ByDate, rest)
    requires multiset(day) == multiset(FirstDay(load)) && multiset(rest) == multiset(LaterDays(load))
    requires d >= load[0].date
    ensures MetricsOn(Fold(MetricsStep, m, day), rest, d) ==
            MetricsOn(Fold(MetricsStep, m, FirstDay(load)), LaterDays(load), d)
  {
    DaySplit(load);
    Exchanged(load, day, rest);
    JoinedSorted(day, rest, load[0].date);
    DayThenRest(m, day, rest, load[0].date, d);
    FirstDayThen(m, load, d);
  }

  lemma NothingYet(m: Metrics, ts: seq<Transaction>, d: Day)
    requires forall t :: t in ts ==> t.date > d
    ensures MetricsOn(m, ts, d) == m
  {
    assert forall t :: t in ts ==> !UpTo(d)(t);
    assert TakeWhile(UpTo(d), ts) == [];
  }

  lemma FirstDayAgrees(m: Metrics, load: seq<Transaction>)
    requires LoadsAgree(m, load) && load != [] && SortedBy(ByDate, load)
    ensures AllOrdersAgree(m, FirstDay(load))
  {
    DaySplit(load);
    forall order | multiset(order) == multiset(FirstDay(load))
      ensures Fold(MetricsStep, m, order) == Fold(MetricsStep, m, FirstDay(load))
    {
      OtherLoad(m, load, order, LaterDays(load), load[0].date);
      NothingYet(Fold(MetricsStep, m, order), LaterDays(load), load[0].date);
      NothingYet(Fold(MetricsStep, m, FirstDay(load)), LaterDays(load), load[0].date);
    }
  }

  lemma LaterDaysAgree(m: Metrics, load: seq<Transaction>)
    requires LoadsAgree(m, load) && load != [] && SortedBy(ByDate, load)
    ensures LoadsAgree(Fold(MetricsStep, m, FirstDay(load)), LaterDays(load))
  {
    var next := Fold(MetricsStep, m, FirstDay(load));
    DaySplit(load);
    forall other, d | multiset(other) == multiset(LaterDays(load)) && SortedBy(ByDate, other)
      ensures MetricsOn(next, other, d) == MetricsOn(next, LaterDays(load), d)
    {
      if d >= load[0].date {
        OtherLoad(m, load, FirstDay(load), other, d);
      } else {
        SameTotals(other, LaterDays(load));
        NothingYet(next, other, d);
        NothingYet(next, LaterDays(load), d);
      }
    }
  }

  lemma {:induction false} AgreeingDaysFree(m: Metrics, load: seq<Transaction>)
    requires LoadsAgree(m, load) && SortedBy(ByDate, load)
    ensures DaysFree(m, load)
    decreases |load|
  {
    if load != [] {
      DaySplit(load);
      FirstDayAgrees(m, load);
      DayOrderIff(m, FirstDay(load));
      LaterDaysAgree(m, load);
      AgreeingDaysFree(Fold(MetricsStep, m, FirstDay(load)), LaterDays(load));
    }
  }

  /**
   Loads are ordered by date only. All date-ordered loads of the same rows value the fund alike on every
   day if and only if the order of each day is free.
   */
  lemma LoadOrderIff(m: Metrics, load: seq<Transaction>)
    requires SortedBy(ByDate, load)
    ensures LoadsAgree(m, load) <==> DaysFree(m, load)
  {
    if LoadsAgree(m, load) {
      AgreeingDaysFree(m, load);
    }
    if DaysFree(m, load) {
      forall other, d | multiset(other) == multiset(load) && SortedBy(ByDate, other)
        ensures MetricsOn(m, other, d) == MetricsOn(m, load, d)
      {
        FreeLoadsAgree(m, load, other, d);
      }
    }
  }

  predicate Unmixed(t: Transaction, u: Transaction)
  {
    t.date == u.date && t.kind.Sell? ==> BoughtShares(u) == 0.0 && MoneyMoved(u) == 0.0
  }

  /** No day mixes sales with purchases or fees. */
  predicate UnmixedDays(ts: seq<Transaction>)
  {
    forall t, u :: t in ts && u in ts ==> Unmixed(t, u)
  }

  lemma UnmixedPart(ts: seq<Transaction>, part: seq<Transaction>)
    requires UnmixedDays(ts) && forall t :: t in part ==> t in ts
    ensures UnmixedDays(part)
  {
    forall t, u | t in part && u in part
      ensures Unmixed(t, u)
    {
      assert t in ts && u in ts;
    }
  }

  lemma UnmixedDay(day: seq<Transaction>, d: Day)
    requires UnmixedDays(day) && HasSell(day) && forall t :: t in day ==> t.date == d
    ensures NothingAdded(day)
  {
    var sell :| sell in day && sell.kind.Sell?;
    forall t | t in day
      ensures BoughtShares(t) == 0.0 && MoneyMoved(t) == 0.0
    {
      assert Unmixed(sell, t);
    }
  }

  lemma {:induction false} UnmixedDaysFree(m: Metrics, load: seq<Transaction>)
    requires SortedBy(ByDate, load) && UnmixedDays(load)
    ensures DaysFree(m, load)
    decreases |load|
  {
    if load != [] {
      DaySplit(load);
      var day, rest := FirstDay(load), LaterDays(load);
      UnmixedPart(load, day);
      UnmixedPart(load, rest);
      if HasSell(day) {
        UnmixedDay(day, load[0].date);
        NothingAddedIsFree(m, day);
      }
      UnmixedDaysFree(Fold(MetricsStep, m, day), rest);
    }
  }

  /** Days that do not mix sales with purchases or fees are free whatever the metrics. */
  lemma LoadOrderIrrelevant(m: Metrics, load: seq<Transaction>)
    requires SortedBy(ByDate, load) && UnmixedDays(load)
    ensures LoadsAgree(m, load)
  {
    UnmixedDaysFree(m, load);
    LoadOrderIff(m, load);
  }
}
