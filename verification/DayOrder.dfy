/**
 Transactions of one day: loads are ordered by date only, so any order of a day may be read. What all
 orders have in common, and exactly when they leave the same metrics.
 */
module DayOrder {
  import opened Collections
  import opened Schema
  import opened Ledger

  // ----------------------------------------------------------- the totals

  function BoughtShares(t: Transaction): real { if t.kind.Buy? then t.shares else 0.0 }

  function SoldShares(t: Transaction): real { if t.kind.Sell? then t.shares else 0.0 }

  function PaidFees(t: Transaction): real { if t.kind.Fee? then t.costPerShare else 0.0 }

  /** What a transaction other than a sale adds to the cost. */
  function MoneyMoved(t: Transaction): real
  {
    match t.kind
    case Buy => t.shares * t.costPerShare
    case Fee => t.costPerShare
    case _ => 0.0
  }

  predicate HasSell(ts: seq<Transaction>)
  {
    exists t :: t in ts && t.kind.Sell?
  }

  lemma {:induction false} NonSellsTotal(m: Metrics, ts: seq<Transaction>)
    requires !HasSell(ts)
    ensures Fold(MetricsStep, m, ts) ==
            Metrics(m.shares + Sum(BoughtShares, ts), m.cost + Sum(MoneyMoved, ts),
                    m.dividends + Sum(PaidDividends, ts), m.fees + Sum(PaidFees, ts))
    decreases |ts|
  {
    if ts != [] {
      assert ts[0] in ts && forall t :: t in ts[1..] ==> t in ts;
      NonSellsTotal(MetricsStep(m, ts[0]), ts[1..]);
    }
  }

  /** Selling twice leaves the cost that selling the total at once leaves. */
  lemma SellsAdd(shares: real, cost: real, x: real, y: real)
    requires x >= 0.0 && y >= 0.0
    ensures CostAfterSell(shares - x, CostAfterSell(shares, cost, x), y) == CostAfterSell(shares, cost, x + y)
  {
    var left := shares - x;
    if left - y > 0.0 {
      var average := cost / shares;
      assert CostAfterSell(shares, cost, x) == average * left;
      assert (average * left) / left == average;
      assert CostAfterSell(left, average * left, y) == average * (left - y);
    }
  }

  lemma {:induction false} SellsTotal(m: Metrics, ts: seq<Transaction>)
    requires ts != [] && forall t :: t in ts ==> t.kind.Sell?
    ensures Sum(SoldShares, ts) >= 0.0
    ensures Fold(MetricsStep, m, ts) ==
            m.(shares := m.shares - Sum(SoldShares, ts),
               cost := CostAfterSell(m.shares, m.cost, Sum(SoldShares, ts)))
    decreases |ts|
  {
    assert ts[0] in ts && forall t :: t in ts[1..] ==> t in ts;
    var next := MetricsStep(m, ts[0]);
    if ts[1..] == [] {
      assert Sum(SoldShares, ts) == ts[0].shares;
    } else {
      SellsTotal(next, ts[1..]);
      SellsAdd(m.shares, m.cost, ts[0].shares, Sum(SoldShares, ts[1..]));
    }
  }

  /** Shares, dividends and fees are the same in any order; only the cost depends on it. */
  lemma {:induction false} TotalsApartFromCost(m: Metrics, ts: seq<Transaction>)
    ensures var after := Fold(MetricsStep, m, ts);
            && after.shares == m.shares + Sum(BoughtShares, ts) - Sum(SoldShares, ts)
            && after.dividends == m.dividends + Sum(PaidDividends, ts)
            && after.fees == m.fees + Sum(PaidFees, ts)
    decreases |ts|
  {
    if ts != [] {
      TotalsApartFromCost(MetricsStep(m, ts[0]), ts[1..]);
    }
  }

  lemma {:induction false} TotalsNonNegative(ts: seq<Transaction>)
    ensures Sum(BoughtShares, ts) >= 0.0 && Sum(SoldShares, ts) >= 0.0
  {
    if ts != [] {
      TotalsNonNegative(ts[1..]);
    }
  }

  lemma SameTotals(a: seq<Transaction>, b: seq<Transaction>)
    requires multiset(a) == multiset(b)
    ensures Sum(BoughtShares, a) == Sum(BoughtShares, b) && Sum(SoldShares, a) == Sum(SoldShares, b)
    ensures Sum(MoneyMoved, a) == Sum(MoneyMoved, b)
    ensures Sum(PaidDividends, a) == Sum(PaidDividends, b) && Sum(PaidFees, a) == Sum(PaidFees, b)
    ensures forall t :: t in a <==> t in b
  {
    SumPermutation(BoughtShares, a, b);
    SumPermutation(SoldShares, a, b);
    SumPermutation(MoneyMoved, a, b);
    SumPermutation(PaidDividends, a, b);
    SumPermutation(PaidFees, a, b);
    assert forall t :: t in a <==> t in multiset(a);
    assert forall t :: t in b <==> t in multiset(b);
  }

  // ------------------------------------------------------------ one swap

  /** Moving a purchase of B shares for K in front of sales of S shares, from s shares at cost c. */
  predicate Neutral(s: real, c: real, S: real, B: real, K: real)
  {
    if s > S then S == 0.0 || K * s == c * B
    else if s + B <= S then K == 0.0
    else c * (s + B - S) == K * S
  }

  lemma Scaled(c: real, s: real, left: real)
    requires s > 0.0
    ensures (c / s) * left * s == c * left
  {
    assert (c / s) * s == c;
  }

  lemma EnoughShares(s: real, c: real, S: real, B: real, K: real)
    requires s > S >= 0.0 && B >= 0.0
    ensures CostAfterSell(s + B, c + K, S) == CostAfterSell(s, c, S) + K <==> S == 0.0 || K * s == c * B
  {
    var x, y := CostAfterSell(s + B, c + K, S), CostAfterSell(s, c, S);
    Scaled(c + K, s + B, s + B - S);
    Scaled(c, s, s - S);
    assert x * (s + B) == (c + K) * (s + B - S);
    assert y * s == c * (s - S);
    assert (x - y - K) * (s + B) * s == (c + K) * (s + B - S) * s - c * (s - S) * (s + B) - K * (s + B) * s;
    assert (c + K) * (s + B - S) * s - c * (s - S) * (s + B) - K * (s + B) * s == S * (c * B - K * s);
    ZeroProduct(x - y - K, s + B, s);
    ZeroFactor(S, c * B - K * s);
  }

  lemma ZeroProduct(x: real, a: real, b: real)
    requires a > 0.0 && b > 0.0
    ensures x == 0.0 <==> x * a * b == 0.0
  {
    if x != 0.0 {
      assert x * a != 0.0;
      assert (x * a) * b != 0.0;
    }
  }

  lemma SoldOut(s: real, c: real, S: real, B: real, K: real)
    requires s <= S && S >= 0.0 && B >= 0.0
    ensures CostAfterSell(s + B, c + K, S) == K <==> (if s + B <= S then K == 0.0 else c * (s + B - S) == K * S)
  {
    if s + B > S {
      var x := CostAfterSell(s + B, c + K, S);
      Scaled(c + K, s + B, s + B - S);
      assert x * (s + B) == (c + K) * (s + B - S);
      assert (x - K) * (s + B) == c * (s + B - S) - K * S;
    }
  }

  lemma NeutralIff(s: real, c: real, S: real, B: real, K: real)
    requires S >= 0.0 && B >= 0.0
    ensures CostAfterSell(s + B, c + K, S) == CostAfterSell(s, c, S) + K <==> Neutral(s, c, S, B, K)
  {
    if s > S {
      EnoughShares(s, c, S, B, K);
    } else {
      SoldOut(s, c, S, B, K);
    }
  }

  /**
   A sale and another transaction may be swapped exactly when: with shares left after the sale, nothing is
   sold or the money moved is that of the shares bought at the average cost; when the sale takes all
   shares held before, the purchase costs nothing or just what the sale leaves of it.
   */
  lemma SwapIff(m: Metrics, x: Transaction, t: Transaction)
    requires !x.kind.Sell? && t.kind.Sell?
    ensures MetricsStep(MetricsStep(m, x), t) == MetricsStep(MetricsStep(m, t), x) <==>
            Neutral(m.shares, m.cost, t.shares, BoughtShares(x), MoneyMoved(x))
  {
    NeutralIff(m.shares, m.cost, t.shares, BoughtShares(x), MoneyMoved(x));
  }

  /** Two sales, or two transactions of which neither is one, may always be swapped. */
  lemma LikeSwap(m: Metrics, x: Transaction, y: Transaction)
    requires x.kind.Sell? <==> y.kind.Sell?
    ensures MetricsStep(MetricsStep(m, x), y) == MetricsStep(MetricsStep(m, y), x)
  {
    if x.kind.Sell? {
      SellsAdd(m.shares, m.cost, x.shares, y.shares);
      SellsAdd(m.shares, m.cost, y.shares, x.shares);
    }
  }

  // ------------------------------------------------- what all orders need

  ghost predicate AllOrdersAgree(m: Metrics, day: seq<Transaction>)
  {
    forall order :: multiset(order) == multiset(day) ==> Fold(MetricsStep, m, order) == Fold(MetricsStep, m, day)
  }

  predicate MoneyFree(day: seq<Transaction>)
  {
    forall t :: t in day ==> MoneyMoved(t) == 0.0
  }

  /** The transaction costs what its shares cost on average. */
  predicate AverageTrade(m: Metrics, t: Transaction)
  {
    MoneyMoved(t) * m.shares == m.cost * BoughtShares(t)
  }

  /** Whatever is bought is bought at the average cost, and no fee is paid. */
  predicate AtAverage(m: Metrics, day: seq<Transaction>)
  {
    forall t :: t in day ==> AverageTrade(m, t)
  }

  /** A purchase that leaves no shares costs nothing. */
  predicate CoveredByCost(m: Metrics, day: seq<Transaction>)
  {
    forall t :: t in day && m.shares + BoughtShares(t) <= 0.0 ==> MoneyMoved(t) == 0.0
  }

  /** The purchase costs what a sale of more than was held leaves of it. */
  predicate Repaid(m: Metrics, sold: real, bought: real, money: real)
  {
    m.shares + bought > sold && m.cost * (m.shares + bought - sold) == money * sold
  }

  /** Part of such a pair, or without any effect beside it. */
  predicate OfPair(m: Metrics, sold: real, bought: real, money: real, t: Transaction)
  {
    && (t.kind.Sell? ==> t.shares == sold || (t.shares == 0.0 && m.shares > 0.0))
    && ((BoughtShares(t) == 0.0 && MoneyMoved(t) == 0.0) || (BoughtShares(t) == bought && MoneyMoved(t) == money))
  }

  /**
   One sale takes more than was held, and one purchase costs just what the sale leaves of it: all the
   others of the day sell nothing, and buy and cost nothing.
   */
  predicate OnePair(m: Metrics, day: seq<Transaction>)
  {
    var sold, bought, money := Sum(SoldShares, day), Sum(BoughtShares, day), Sum(MoneyMoved, day);
    && Repaid(m, sold, bought, money)
    && forall t :: t in day ==> OfPair(m, sold, bought, money, t)
  }

  /** Why no order of the day matters, given the shares and the cost at its start. */
  predicate OrderFree(m: Metrics, day: seq<Transaction>)
  {
    var sold, bought := Sum(SoldShares, day), Sum(BoughtShares, day);
    if !HasSell(day) then true
    else if sold == 0.0 then
      || m.shares > 0.0
      || (MoneyFree(day) && m.shares + bought <= 0.0)
      || (m.cost == 0.0 && CoveredByCost(m, day))
    else if m.shares >= sold then AtAverage(m, day)
    else (MoneyFree(day) && (m.cost == 0.0 || m.shares + bought <= sold)) || OnePair(m, day)
  }

  /** The cost after reading the sales first. */
  function SalesFirst(m: Metrics, day: seq<Transaction>): real
  {
    TotalsNonNegative(day);
    Sum(MoneyMoved, day) + (if HasSell(day) then CostAfterSell(m.shares, m.cost, Sum(SoldShares, day)) else m.cost)
  }

  // --------------------------------------------------- why they suffice

  lemma LastStep(m: Metrics, init: seq<Transaction>, t: Transaction)
    ensures Fold(MetricsStep, m, init + [t]) == MetricsStep(Fold(MetricsStep, m, init), t)
    ensures Sum(SoldShares, init + [t]) == Sum(SoldShares, init) + SoldShares(t)
    ensures Sum(BoughtShares, init + [t]) == Sum(BoughtShares, init) + BoughtShares(t)
    ensures Sum(MoneyMoved, init + [t]) == Sum(MoneyMoved, init) + MoneyMoved(t)
    ensures Fold(MetricsStep, m, init).shares == m.shares + Sum(BoughtShares, init) - Sum(SoldShares, init)
    ensures Sum(BoughtShares, init) >= 0.0 && Sum(SoldShares, init) >= 0.0
    ensures forall u :: u in init ==> u in init + [t]
  {
    FoldConcat(MetricsStep, m, init, [t]);
    assert [t][1..] == [];
    assert Fold(MetricsStep, Fold(MetricsStep, m, init), [t]) == MetricsStep(Fold(MetricsStep, m, init), t);
    SumConcat(SoldShares, init, [t]);
    SumConcat(BoughtShares, init, [t]);
    SumConcat(MoneyMoved, init, [t]);
    SumOne(SoldShares, t);
    SumOne(BoughtShares, t);
    SumOne(MoneyMoved, t);
    TotalsApartFromCost(m, init);
    TotalsNonNegative(init);
  }

  lemma {:induction false} NothingSold(m: Metrics, ts: seq<Transaction>)
    requires Sum(SoldShares, ts) == 0.0 && m.shares > 0.0
    ensures Fold(MetricsStep, m, ts).cost == m.cost + Sum(MoneyMoved, ts)
    decreases |ts|
  {
    if ts != [] {
      var init, t := ts[..|ts| - 1], ts[|ts| - 1];
      assert ts == init + [t];
      LastStep(m, init, t);
      NothingSold(m, init);
    }
  }

  ghost predicate AllPriced(average: real, ts: seq<Transaction>)
  {
    forall t :: t in ts ==> PricedAt(average, t)
  }

  predicate Costs(average: real, shares: real, money: real)
  {
    money == average * shares
  }

  predicate PricedAt(average: real, t: Transaction)
  {
    Costs(average, BoughtShares(t), MoneyMoved(t))
  }

  lemma AtPrice(m: Metrics, average: real, t: Transaction)
    requires m.shares > 0.0 && average == m.cost / m.shares && AverageTrade(m, t)
    ensures PricedAt(average, t)
  {
    assert average * m.shares == m.cost;
    assert (MoneyMoved(t) - average * BoughtShares(t)) * m.shares == 0.0;
    ZeroFactor(MoneyMoved(t) - average * BoughtShares(t), m.shares);
  }

  /** The cost of the shares at a price. */
  predicate CostAt(average: real, m: Metrics)
  {
    Costs(average, m.shares, m.cost)
  }

  /** Every purchase at the average keeps the average. */
  lemma {:induction false} AverageKept(m: Metrics, ts: seq<Transaction>, average: real)
    requires AllPriced(average, ts) && m.shares >= Sum(SoldShares, ts) && CostAt(average, m)
    ensures CostAt(average, Fold(MetricsStep, m, ts))
    decreases |ts|
  {
    if ts != [] {
      var init, t := ts[..|ts| - 1], ts[|ts| - 1];
      assert ts == init + [t] && t in ts;
      LastStep(m, init, t);
      AverageKept(m, init, average);
      assert PricedAt(average, t);
      AverageStep(Fold(MetricsStep, m, init), average, t);
    }
  }

  lemma AverageStep(before: Metrics, average: real, t: Transaction)
    requires PricedAt(average, t) && CostAt(average, before) && before.shares >= SoldShares(t)
    ensures CostAt(average, MetricsStep(before, t))
  {
    if t.kind.Sell? && before.shares > t.shares {
      assert (average * before.shares) / before.shares == average;
    }
  }

  lemma {:induction false} NoCost(m: Metrics, ts: seq<Transaction>)
    requires MoneyFree(ts) && m.cost == 0.0
    ensures Fold(MetricsStep, m, ts).cost == 0.0 && Sum(MoneyMoved, ts) == 0.0
    decreases |ts|
  {
    if ts != [] {
      var init, t := ts[..|ts| - 1], ts[|ts| - 1];
      assert ts == init + [t] && t in ts;
      LastStep(m, init, t);
      NoCost(m, init);
      assert 0.0 / 1.0 == 0.0;
    }
  }

  lemma {:induction false} NoMoney(ts: seq<Transaction>)
    requires MoneyFree(ts)
    ensures Sum(MoneyMoved, ts) == 0.0
  {
    if ts != [] {
      assert ts[0] in ts && forall t :: t in ts[1..] ==> t in ts;
      NoMoney(ts[1..]);
    }
  }

  /** The last sale of a day that ends without shares takes the whole cost. */
  lemma {:induction false} AllTaken(m: Metrics, ts: seq<Transaction>)
    requires MoneyFree(ts) && HasSell(ts) && m.shares + Sum(BoughtShares, ts) <= Sum(SoldShares, ts)
    ensures Fold(MetricsStep, m, ts).cost == 0.0
    decreases |ts|
  {
    var init, t := ts[..|ts| - 1], ts[|ts| - 1];
    assert ts == init + [t] && t in ts;
    LastStep(m, init, t);
    if !t.kind.Sell? {
      assert HasSell(init);
      AllTaken(m, init);
    }
  }

  /** Sales of nothing from shares that are short wipe out a cost that is nil. */
  lemma {:induction false} ShortAndFree(m: Metrics, ts: seq<Transaction>)
    requires Sum(SoldShares, ts) == 0.0 && m.cost == 0.0 && m.shares <= 0.0 && CoveredByCost(m, ts)
    ensures Fold(MetricsStep, m, ts).cost == Sum(MoneyMoved, ts)
    ensures m.shares + Sum(BoughtShares, ts) <= 0.0 ==> Sum(MoneyMoved, ts) == 0.0
    decreases |ts|
  {
    if ts != [] {
      var init, t := ts[..|ts| - 1], ts[|ts| - 1];
      assert ts == init + [t] && t in ts;
      LastStep(m, init, t);
      ShortAndFree(m, init);
    }
  }

  /** Where the pair stands after part of the day: neither, one, or both of the two have been read. */
  ghost predicate Halfway(m: Metrics, sold: real, bought: real, money: real, now: Metrics, b: real, k: real, s: real)
  {
    && ((b == 0.0 && k == 0.0) || (b == bought && k == money))
    && (s == 0.0 || s == sold)
    && now.shares == m.shares + b - s
    && now.cost == (if s == 0.0 then m.cost + k else k)
  }

  lemma PairStep(
    m: Metrics, sold: real, bought: real, money: real, now: Metrics, b: real, k: real, s: real, t: Transaction)
    requires 0.0 < sold && m.shares < sold && Repaid(m, sold, bought, money)
    requires Halfway(m, sold, bought, money, now, b, k, s)
    requires b + BoughtShares(t) <= bought && s + SoldShares(t) <= sold
    requires OfPair(m, sold, bought, money, t)
    ensures Halfway(m, sold, bought, money, MetricsStep(now, t),
                    b + BoughtShares(t), k + MoneyMoved(t), s + SoldShares(t))
  {
    if t.kind.Sell? && t.shares == sold && b == bought {
      SoldOut(m.shares, m.cost, sold, bought, money);
    }
  }

  lemma PairNext(
    m: Metrics, sold: real, bought: real, money: real, init: seq<Transaction>, t: Transaction)
    requires 0.0 < sold && m.shares < sold && Repaid(m, sold, bought, money) && OfPair(m, sold, bought, money, t)
    requires Halfway(m, sold, bought, money, Fold(MetricsStep, m, init),
                     Sum(BoughtShares, init), Sum(MoneyMoved, init), Sum(SoldShares, init))
    requires Sum(BoughtShares, init + [t]) <= bought && Sum(SoldShares, init + [t]) <= sold
    ensures Halfway(m, sold, bought, money, Fold(MetricsStep, m, init + [t]),
                    Sum(BoughtShares, init + [t]), Sum(MoneyMoved, init + [t]), Sum(SoldShares, init + [t]))
  {
    LastStep(m, init, t);
    PairStep(m, sold, bought, money, Fold(MetricsStep, m, init),
             Sum(BoughtShares, init), Sum(MoneyMoved, init), Sum(SoldShares, init), t);
  }

  lemma {:induction false} PairRead(
    m: Metrics, ts: seq<Transaction>, sold: real, bought: real, money: real)
    requires 0.0 < sold && m.shares < sold && Repaid(m, sold, bought, money)
    requires forall t :: t in ts ==> OfPair(m, sold, bought, money, t)
    requires Sum(BoughtShares, ts) <= bought && Sum(SoldShares, ts) <= sold
    ensures Halfway(m, sold, bought, money, Fold(MetricsStep, m, ts),
                    Sum(BoughtShares, ts), Sum(MoneyMoved, ts), Sum(SoldShares, ts))
    decreases |ts|
  {
    if ts != [] {
      var init, t := ts[..|ts| - 1], ts[|ts| - 1];
      assert ts == init + [t] && t in ts;
      PartOfTotals(init, t);
      PairRead(m, init, sold, bought, money);
      PairNext(m, sold, bought, money, init, t);
    }
  }

  lemma PartOfTotals(init: seq<Transaction>, t: Transaction)
    ensures Sum(BoughtShares, init) <= Sum(BoughtShares, init + [t])
    ensures Sum(SoldShares, init) <= Sum(SoldShares, init + [t])
    ensures forall u :: u in init ==> u in init + [t]
  {
    SumConcat(BoughtShares, init, [t]);
    SumConcat(SoldShares, init, [t]);
    TotalsNonNegative([t]);
  }

  lemma Distributes(a: real, x: real, y: real)
    ensures a * (x + y) == a * x + a * y
  {
  }

  lemma CostsAdd(average: real, shares: real, money: real, shares': real, money': real)
    requires Costs(average, shares, money) && Costs(average, shares', money')
    ensures Costs(average, shares + shares', money + money')
  {
    Distributes(average, shares, shares');
  }

  lemma {:induction false} PricedSums<T>(f: T -> real, g: T -> real, average: real, xs: seq<T>)
    requires forall x :: x in xs ==> Costs(average, f(x), g(x))
    ensures Costs(average, Sum(f, xs), Sum(g, xs))
  {
    if xs != [] {
      assert xs[0] in xs && forall x :: x in xs[1..] ==> x in xs;
      PricedSums(f, g, average, xs[1..]);
      CostsAdd(average, f(xs[0]), g(xs[0]), Sum(f, xs[1..]), Sum(g, xs[1..]));
    }
  }

  lemma {:induction false} SumNil<T>(f: T -> real, xs: seq<T>)
    requires forall x :: x in xs ==> f(x) == 0.0
    ensures Sum(f, xs) == 0.0
  {
    if xs != [] {
      assert xs[0] in xs && forall x :: x in xs[1..] ==> x in xs;
      SumNil(f, xs[1..]);
    }
  }

  lemma AverageSold(m: Metrics, after: Metrics, average: real, sold: real, bought: real, money: real)
    requires m.shares >= sold > 0.0 && CostAt(average, m) && Costs(average, bought, money)
    requires CostAt(average, after) && after.shares == m.shares + bought - sold
    ensures after.cost == money + CostAfterSell(m.shares, m.cost, sold)
  {
    var left := m.shares - sold;
    Distributes(average, bought, left);
    assert bought + left == m.shares + bought - sold;
    if left > 0.0 {
      assert left + sold == m.shares && (average * m.shares) / m.shares == average;
      assert CostAfterSell(m.shares, m.cost, sold) == average * left;
    } else {
      assert left == 0.0 && average * left == 0.0;
    }
  }

  lemma AllAtPrice(m: Metrics, ts: seq<Transaction>) returns (average: real)
    requires m.shares > 0.0 && AtAverage(m, ts)
    ensures AllPriced(average, ts) && CostAt(average, m)
  {
    average := m.cost / m.shares;
    forall t | t in ts
      ensures PricedAt(average, t)
    {
      AtPrice(m, average, t);
    }
  }

  lemma AllAverage(ts: seq<Transaction>, average: real)
    requires AllPriced(average, ts)
    ensures Costs(average, Sum(BoughtShares, ts), Sum(MoneyMoved, ts))
  {
    forall t | t in ts
      ensures Costs(average, BoughtShares(t), MoneyMoved(t))
    {
      assert PricedAt(average, t);
    }
    PricedSums(BoughtShares, MoneyMoved, average, ts);
  }

  lemma AverageEnds(m: Metrics, ts: seq<Transaction>, sold: real, average: real)
    requires AllPriced(average, ts) && CostAt(average, m) && sold == Sum(SoldShares, ts) && m.shares >= sold
    ensures var after := Fold(MetricsStep, m, ts);
            CostAt(average, after) && after.shares == m.shares + Sum(BoughtShares, ts) - sold
  {
    AverageKept(m, ts, average);
    TotalsApartFromCost(m, ts);
  }

  lemma AverageFirst(m: Metrics, ts: seq<Transaction>, sold: real, average: real)
    requires AllPriced(average, ts) && CostAt(average, m) && sold == Sum(SoldShares, ts) && m.shares >= sold > 0.0
    ensures Fold(MetricsStep, m, ts).cost == Sum(MoneyMoved, ts) + CostAfterSell(m.shares, m.cost, sold)
  {
    var bought, money := Sum(BoughtShares, ts), Sum(MoneyMoved, ts);
    AllAverage(ts, average);
    AverageEnds(m, ts, sold, average);
    AverageSold(m, Fold(MetricsStep, m, ts), average, sold, bought, money);
  }

  lemma FreeOfMoney(m: Metrics, ts: seq<Transaction>, sold: real, bought: real)
    requires sold == Sum(SoldShares, ts) && bought == Sum(BoughtShares, ts)
    requires HasSell(ts) && MoneyFree(ts) && (m.cost == 0.0 || m.shares + bought <= sold)
    ensures Fold(MetricsStep, m, ts).cost == 0.0 && Sum(MoneyMoved, ts) == 0.0
  {
    NoMoney(ts);
    if m.cost == 0.0 {
      NoCost(m, ts);
    } else {
      AllTaken(m, ts);
    }
  }

  lemma NothingSoldFirst(m: Metrics, ts: seq<Transaction>)
    requires OrderFree(m, ts) && HasSell(ts) && Sum(SoldShares, ts) == 0.0
    ensures Fold(MetricsStep, m, ts).cost == SalesFirst(m, ts)
  {
    if m.shares > 0.0 {
      NothingSold(m, ts);
    } else if m.cost == 0.0 && CoveredByCost(m, ts) {
      ShortAndFree(m, ts);
    } else {
      FreeOfMoney(m, ts, 0.0, Sum(BoughtShares, ts));
    }
  }

  lemma MoreSoldFirst(m: Metrics, ts: seq<Transaction>, sold: real)
    requires OrderFree(m, ts) && HasSell(ts) && sold == Sum(SoldShares, ts) && 0.0 < sold && m.shares < sold
    ensures Fold(MetricsStep, m, ts).cost == SalesFirst(m, ts)
  {
    var bought, money := Sum(BoughtShares, ts), Sum(MoneyMoved, ts);
    if OnePair(m, ts) {
      PairRead(m, ts, sold, bought, money);
    } else {
      FreeOfMoney(m, ts, sold, bought);
    }
  }

  /** Whichever of the conditions holds, the day costs what it costs with the sales first. */
  lemma FreeCost(m: Metrics, ts: seq<Transaction>)
    requires OrderFree(m, ts)
    ensures Fold(MetricsStep, m, ts).cost == SalesFirst(m, ts)
  {
    var sold := Sum(SoldShares, ts);
    TotalsNonNegative(ts);
    if !HasSell(ts) {
      NonSellsTotal(m, ts);
    } else if sold == 0.0 {
      NothingSoldFirst(m, ts);
    } else if m.shares >= sold {
      var average := AllAtPrice(m, ts);
      AverageFirst(m, ts, sold, average);
    } else {
      MoreSoldFirst(m, ts, sold);
    }
  }

  lemma FreeInAnyOrder(m: Metrics, day: seq<Transaction>, order: seq<Transaction>)
    requires multiset(order) == multiset(day) && OrderFree(m, day)
    ensures OrderFree(m, order) && SalesFirst(m, order) == SalesFirst(m, day)
  {
    SameTotals(order, day);
  }

  lemma FreeAgrees(m: Metrics, day: seq<Transaction>)
    requires OrderFree(m, day)
    ensures AllOrdersAgree(m, day)
  {
    forall order | multiset(order) == multiset(day)
      ensures Fold(MetricsStep, m, order) == Fold(MetricsStep, m, day)
    {
      FreeInAnyOrder(m, day, order);
      FreeCost(m, order);
      FreeCost(m, day);
      SameTotals(order, day);
      TotalsApartFromCost(m, order);
      TotalsApartFromCost(m, day);
    }
  }
}
