/** fund_metrics.go and the position folds: weighted-average cost over a portfolio fund's transactions. */
module Ledger {
  import opened Collections
  import opened Sorting
  import opened Schema

  // ----------------------------------------------------- calculateFundMetrics

  datatype Metrics = Metrics(shares: real, cost: real, dividends: real, fees: real)

  datatype FundMetrics = FundMetrics(
    shares: real, cost: real, price: real, dividends: real, value: real, unrealizedGain: real, fees: real)

  /** The cost that stays with the shares left after a sale. */
  function CostAfterSell(shares: real, cost: real, sold: real): real
    requires sold >= 0.0
  {
    var left := shares - sold;
    if left > 0.0 then (cost / (left + sold)) * left else 0.0
  }

  lemma ZeroFactor(a: real, b: real)
    ensures a * b == 0.0 <==> a == 0.0 || b == 0.0
  {
  }

  function MetricsStep(m: Metrics, t: Transaction): Metrics
  {
    match t.kind
    case Buy => m.(shares := m.shares + t.shares, cost := m.cost + t.shares * t.costPerShare)
    case Dividend => m.(dividends := m.dividends + t.shares * t.costPerShare)
    case Sell => m.(shares := m.shares - t.shares, cost := CostAfterSell(m.shares, m.cost, t.shares))
    case Fee => m.(cost := m.cost + t.costPerShare, fees := m.fees + t.costPerShare)
    case Other(_) => m
  }

  function MetricsOf(dividendShares: real, ts: seq<Transaction>): Metrics
  {
    Fold(MetricsStep, Metrics(dividendShares, 0.0, 0.0, 0.0), ts)
  }

  function PriceUpTo(date: Day): FundPrice -> bool
  {
    (p: FundPrice) => p.date <= date
  }

  function LastPrice(prices: seq<FundPrice>): real
  {
    if prices == [] then 0.0 else prices[|prices| - 1].price
  }

  function Valued(m: Metrics, price: real): FundMetrics
  {
    var value := if price > 0.0 then m.shares * price else 0.0;
    FundMetrics(m.shares, m.cost, price, m.dividends, value, value - m.cost, m.fees)
  }

  ghost predicate Chronological(prices: seq<FundPrice>)
  {
    forall i, j :: 0 <= i < j < |prices| ==> prices[i].date <= prices[j].date
  }

  /** Every price but this one is older, or past the date where that matters. */
  ghost predicate Newest(prices: seq<FundPrice>, p: FundPrice, date: Option<Day>)
  {
    && p in prices && (date.Some? ==> p.date <= date.value)
    && forall q :: q in prices && (date.Some? ==> q.date <= date.value) ==> q.date < p.date || q == p
  }

  lemma NewestIsLast(prices: seq<FundPrice>, p: FundPrice)
    requires Chronological(prices) && Newest(prices, p, None)
    ensures LastPrice(prices) == p.price
  {
    var i :| 0 <= i < |prices| && prices[i] == p;
    assert prices[|prices| - 1] in prices && prices[i].date <= prices[|prices| - 1].date;
  }

  lemma ReadUpTo(prices: seq<FundPrice>, date: Day, i: nat)
    requires i < |prices| && forall k :: 0 <= k <= i ==> prices[k].date <= date
    ensures prices[i] in TakeWhile(PriceUpTo(date), prices)
  {
    var read := TakeWhile(PriceUpTo(date), prices);
    assert |read| > i && read[i] == prices[i];
  }

  lemma NewestIsRead(prices: seq<FundPrice>, p: FundPrice, date: Day)
    requires Chronological(prices) && Newest(prices, p, Some(date))
    ensures Newest(TakeWhile(PriceUpTo(date), prices), p, None)
  {
    var i :| 0 <= i < |prices| && prices[i] == p;
    ReadUpTo(prices, date, i);
  }

  /** Of prices in date order: the newest one, or the newest on or before the date. */
  lemma LastPriceIsNewest(prices: seq<FundPrice>, date: Option<Day>, p: FundPrice)
    requires Chronological(prices) && Newest(prices, p, date)
    ensures LastPrice(if date.None? then prices else TakeWhile(PriceUpTo(date.value), prices)) == p.price
  {
    if date.Some? {
      NewestIsRead(prices, p, date.value);
      NewestIsLast(TakeWhile(PriceUpTo(date.value), prices), p);
    } else {
      NewestIsLast(prices, p);
    }
  }

  method GetPriceForDate(prices: seq<FundPrice>, date: Day) returns (latestPrice: real)
    ensures latestPrice == LastPrice(TakeWhile(PriceUpTo(date), prices))
  {
    latestPrice := 0.0;
    var i := 0;
    while i < |prices|
      invariant 0 <= i <= |prices|
      invariant forall k :: 0 <= k < i ==> prices[k].date <= date
      invariant latestPrice == LastPrice(prices[..i])
    {
      if prices[i].date <= date {
        latestPrice := prices[i].price;
      } else {
        break;
      }
      i := i + 1;
    }
    TakeWhileIs(PriceUpTo(date), prices, i);
  }

  lemma NextMetrics(dividendShares: real, ts: seq<Transaction>, i: nat)
    requires i < |ts|
    ensures MetricsOf(dividendShares, ts[..i + 1]) == MetricsStep(MetricsOf(dividendShares, ts[..i]), ts[i])
  {
    FoldNext(MetricsStep, Metrics(dividendShares, 0.0, 0.0, 0.0), ts, i);
  }

  lemma ReadsUnsupported(date: Day, ts: seq<Transaction>, i: nat)
    requires i < |ts| && ts[i].kind.Other?
    requires forall k :: 0 <= k <= i ==> ts[k].date <= date
    ensures Unsupported(TakeWhile(UpTo(date), ts))
  {
    var read := TakeWhile(UpTo(date), ts);
    assert |read| > i && read[i] == ts[i];
    assert ts[i] in read;
  }

  /** The transaction loop: stops at the first transaction past the date, fails on an unsupported type. */
  method ProcessTransactions(date: Day, transactions: seq<Transaction>, dividendShares: real)
    returns (r: Result<Metrics, Error>)
    ensures r == if Unsupported(TakeWhile(UpTo(date), transactions)) then Err(UnsupportedKind)
                 else Ok(MetricsOf(dividendShares, TakeWhile(UpTo(date), transactions)))
  {
    var shares, cost, dividends, fees := dividendShares, 0.0, 0.0, 0.0;
    var i := 0;
    while i < |transactions|
      invariant 0 <= i <= |transactions|
      invariant forall k :: 0 <= k < i ==> transactions[k].date <= date && !transactions[k].kind.Other?
      invariant Metrics(shares, cost, dividends, fees) == MetricsOf(dividendShares, transactions[..i])
    {
      var t := transactions[i];
      if t.date <= date {
        NextMetrics(dividendShares, transactions, i);
        match t.kind {
          case Buy =>
            shares := shares + t.shares;
            cost := cost + t.shares * t.costPerShare;
          case Dividend =>
            dividends := dividends + t.shares * t.costPerShare;
          case Sell =>
            shares := shares - t.shares;
            if shares > 0.0 {
              cost := (cost / (shares + t.shares)) * shares;
            } else {
              cost := 0.0;
            }
          case Fee =>
            cost := cost + t.costPerShare;
            fees := fees + t.costPerShare;
          case Other(_) =>
            ReadsUnsupported(date, transactions, i);
            return Err(UnsupportedKind);
        }
      } else {
        break;
      }
      i := i + 1;
    }
    TakeWhileIs(UpTo(date), transactions, i);
    assert !Unsupported(transactions[..i]);
    r := Ok(Metrics(shares, cost, dividends, fees));
  }

  /** Values what the transactions on or before the date left, at the latest price or that of the date. */
  method CalculateFundMetrics(
    date: Day, transactions: seq<Transaction>, dividendShares: real, fundPrices: seq<FundPrice>, useLatestPrice: bool)
    returns (r: Result<FundMetrics, Error>)
    ensures r == if Unsupported(TakeWhile(UpTo(date), transactions)) then Err(UnsupportedKind)
                 else Ok(Valued(
                   MetricsOf(dividendShares, TakeWhile(UpTo(date), transactions)),
                   LastPrice(if useLatestPrice then fundPrices else TakeWhile(PriceUpTo(date), fundPrices))))
  {
    var processed := ProcessTransactions(date, transactions, dividendShares);
    if processed.Err? {
      return Err(processed.error);
    }
    var m := processed.value;
    var latestPrice := 0.0;
    var value := 0.0;
    if |fundPrices| > 0 {
      if useLatestPrice {
        latestPrice := fundPrices[|fundPrices| - 1].price;
      } else {
        latestPrice := GetPriceForDate(fundPrices, date);
      }
      if latestPrice > 0.0 {
        value := m.shares * latestPrice;
      }
    }
    assert latestPrice == LastPrice(if useLatestPrice then fundPrices else TakeWhile(PriceUpTo(date), fundPrices));
    var metrics := FundMetrics(m.shares, m.cost, latestPrice, m.dividends, value, value - m.cost, m.fees);
    assert metrics == Valued(m, latestPrice);
    r := Ok(metrics);
  }

  /** Shares are worth their price; without a positive price they are worth nothing. */
  predicate PricedAs(m: FundMetrics, price: real)
  {
    && m.price == price && m.value == (if price > 0.0 then m.shares * price else 0.0)
    && m.unrealizedGain == m.value - m.cost
  }

  lemma ValuedAs(m: Metrics, price: real)
    ensures PricedAs(Valued(m, price), price)
    ensures Valued(m, price).shares == m.shares && Valued(m, price).cost == m.cost
    ensures Valued(m, price).dividends == m.dividends && Valued(m, price).fees == m.fees
  {
  }

  /** The latest of the prices in date order, or the latest on or before the date, is the one that values. */
  lemma ValuedAtNewest(m: Metrics, prices: seq<FundPrice>, date: Option<Day>, p: FundPrice)
    requires Chronological(prices) && Newest(prices, p, date)
    ensures PricedAs(
              Valued(m, LastPrice(if date.None? then prices else TakeWhile(PriceUpTo(date.value), prices))), p.price)
  {
    LastPriceIsNewest(prices, date, p);
    ValuedAs(m, p.price);
  }

  /** Without such a price nothing has a value. */
  lemma ValuedAtNothing(m: Metrics, prices: seq<FundPrice>, date: Option<Day>)
    requires Chronological(prices) && forall p :: p in prices ==> date.Some? && p.date > date.value
    ensures PricedAs(
              Valued(m, LastPrice(if date.None? then prices else TakeWhile(PriceUpTo(date.value), prices))), 0.0)
  {
    assert forall i :: 0 <= i < |prices| ==> prices[i] in prices;
    ValuedAs(m, 0.0);
  }

  // ------------------------------------------------ calculateCurrentPosition

  datatype Position = Position(shares: real, cost: real)

  function PositionStep(p: Position, t: Transaction): Position
  {
    match t.kind
    case Buy | Dividend => Position(p.shares + t.shares, p.cost + t.shares * t.costPerShare)
    case Sell => Position(p.shares - t.shares, CostAfterSell(p.shares, p.cost, t.shares))
    case Fee => Position(p.shares, p.cost + t.costPerShare)
    case Other(_) => p
  }

  function PositionOf(ts: seq<Transaction>): Position
  {
    Fold(PositionStep, Position(0.0, 0.0), ts)
  }

  lemma NextPosition(ts: seq<Transaction>, excludeId: Id, i: nat)
    requires i < |ts|
    ensures var before := PositionOf(Filter(NotId(excludeId), ts[..i]));
            PositionOf(Filter(NotId(excludeId), ts[..i + 1])) ==
              if ts[i].id == excludeId then before else PositionStep(before, ts[i])
  {
    var kept := Filter(NotId(excludeId), ts[..i]);
    assert ts[..i + 1] == ts[..i] + [ts[i]];
    FilterConcat(NotId(excludeId), ts[..i], [ts[i]]);
    FilterOne(NotId(excludeId), ts[i]);
    if ts[i].id == excludeId {
      assert kept + [] == kept;
    } else {
      FoldConcat(PositionStep, Position(0.0, 0.0), kept, [ts[i]]);
    }
  }

  method CalculateCurrentPosition(transactions: seq<Transaction>, excludeId: Id)
    returns (r: Result<Position, Error>)
    ensures r == if Unsupported(Filter(NotId(excludeId), transactions)) then Err(UnsupportedKind)
                 else Ok(PositionOf(Filter(NotId(excludeId), transactions)))
  {
    var shares, cost := 0.0, 0.0;
    var i := 0;
    FilterMembers(NotId(excludeId), transactions);
    while i < |transactions|
      invariant 0 <= i <= |transactions|
      invariant forall k :: 0 <= k < i && transactions[k].id != excludeId ==> !transactions[k].kind.Other?
      invariant Position(shares, cost) == PositionOf(Filter(NotId(excludeId), transactions[..i]))
    {
      var t := transactions[i];
      NextPosition(transactions, excludeId, i);
      ghost var before := Position(shares, cost);
      if t.id != excludeId {
        match t.kind {
          case Buy | Dividend =>
            shares := shares + t.shares;
            cost := cost + t.shares * t.costPerShare;
            assert Position(shares, cost) == PositionStep(before, t);
          case Sell =>
            shares := shares - t.shares;
            if shares > 0.0 {
              cost := (cost / (shares + t.shares)) * shares;
            } else {
              cost := 0.0;
            }
            assert cost == CostAfterSell(before.shares, before.cost, t.shares);
            assert Position(shares, cost) == PositionStep(before, t);
          case Fee =>
            cost := cost + t.costPerShare;
            assert Position(shares, cost) == PositionStep(before, t);
          case Other(_) =>
            assert t in Filter(NotId(excludeId), transactions);
            return Err(UnsupportedKind);
        }
      }
      i := i + 1;
    }
    assert transactions[..i] == transactions;
    r := Ok(Position(shares, cost));
  }

  // ------------------------------------------------------ GetSharesOnDate

  function SignedShares(t: Transaction): real
  {
    match t.kind
    case Buy | Dividend => t.shares
    case Sell => -(t.shares as real)
    case _ => 0.0
  }

  /** SELECT SUM(CASE type ...) over the rows of one portfolio fund dated on or before the date. */
  function SharesOnDate(rows: seq<Transaction>, date: Day): real
  {
    Sum(SignedShares, Filter(UpTo(date), rows))
  }

  // ------------------------------------------------------ the folds agree

  function ReinvestedShares(t: Transaction): real
  {
    if t.kind.Dividend? then t.shares else 0.0
  }

  lemma {:induction false} MetricsShares(m: Metrics, ts: seq<Transaction>)
    ensures Fold(MetricsStep, m, ts).shares + Sum(ReinvestedShares, ts) == m.shares + Sum(SignedShares, ts)
    decreases |ts|
  {
    if ts != [] {
      MetricsShares(MetricsStep(m, ts[0]), ts[1..]);
    }
  }

  lemma {:induction false} PositionShares(p: Position, ts: seq<Transaction>)
    ensures Fold(PositionStep, p, ts).shares == p.shares + Sum(SignedShares, ts)
    decreases |ts|
  {
    if ts != [] {
      PositionShares(PositionStep(p, ts[0]), ts[1..]);
    }
  }

  lemma {:induction false} CostsMove(m: Metrics, p: Position, ts: seq<Transaction>)
    requires m.shares == p.shares && m.cost == p.cost
    requires forall t :: t in ts ==> !t.kind.Dividend?
    ensures Fold(MetricsStep, m, ts).cost == Fold(PositionStep, p, ts).cost
    decreases |ts|
  {
    if ts != [] {
      assert ts[0] in ts && forall t :: t in ts[1..] ==> t in ts;
      CostsMove(MetricsStep(m, ts[0]), PositionStep(p, ts[0]), ts[1..]);
    }
  }

  /**
   The valuation engine, the sell validation and the SQL sum count the same shares of a portfolio fund,
   whatever order the rows are stored in and at any date.
   */
  lemma PositionFoldsAgree(rows: seq<Transaction>, date: Day)
    ensures var known := Filter(UpTo(date), rows);
            var loaded := Sort(ByDate, known);
            && MetricsOf(Sum(ReinvestedShares, known), loaded).shares == SharesOnDate(rows, date)
            && PositionOf(loaded).shares == SharesOnDate(rows, date)
            && ((forall t :: t in known ==> !t.kind.Dividend?) ==>
                  MetricsOf(Sum(ReinvestedShares, known), loaded).cost == PositionOf(loaded).cost)
  {
    var known := Filter(UpTo(date), rows);
    var loaded := Sort(ByDate, known);
    SortMultiset(ByDate, known);
    SortMembers(ByDate, known);
    var reinvested := Sum(ReinvestedShares, known);
    SumPermutation(SignedShares, loaded, known);
    SumPermutation(ReinvestedShares, loaded, known);
    MetricsShares(Metrics(reinvested, 0.0, 0.0, 0.0), loaded);
    PositionShares(Position(0.0, 0.0), loaded);
    if forall t :: t in known ==> !t.kind.Dividend? {
      NoReinvestedShares(known);
      CostsMove(Metrics(reinvested, 0.0, 0.0, 0.0), Position(0.0, 0.0), loaded);
    }
  }

  lemma {:induction false} NoReinvestedShares(ts: seq<Transaction>)
    requires forall t :: t in ts ==> !t.kind.Dividend?
    ensures Sum(ReinvestedShares, ts) == 0.0
  {
    if ts != [] {
      assert ts[0] in ts && forall t :: t in ts[1..] ==> t in ts;
      NoReinvestedShares(ts[1..]);
    }
  }

  function PaidDividends(t: Transaction): real { if t.kind.Dividend? then t.shares * t.costPerShare else 0.0 }

  lemma {:induction false} CostsPart(m: Metrics, p: Position, ts: seq<Transaction>)
    requires forall t :: t in ts ==> !t.kind.Sell?
    ensures Fold(PositionStep, p, ts).cost - Fold(MetricsStep, m, ts).cost ==
            p.cost - m.cost + Sum(PaidDividends, ts)
    decreases |ts|
  {
    if ts != [] {
      assert ts[0] in ts && forall t :: t in ts[1..] ==> t in ts;
      CostsPart(MetricsStep(m, ts[0]), PositionStep(p, ts[0]), ts[1..]);
    }
  }

  /** Before the first sale the two costs differ by the reinvested dividends, so they agree when these are nil. */
  lemma DividendsPartTheCosts(reinvested: real, ts: seq<Transaction>)
    requires forall t :: t in ts ==> !t.kind.Sell?
    ensures PositionOf(ts).cost == MetricsOf(reinvested, ts).cost + Sum(PaidDividends, ts)
  {
    CostsPart(Metrics(reinvested, 0.0, 0.0, 0.0), Position(0.0, 0.0), ts);
  }

  /** With a reinvestment the two costs part: the engine counts its shares from the start, at no cost. */
  lemma ReinvestmentSplitsTheCosts() returns (rows: seq<Transaction>)
    ensures MetricsOf(Sum(ReinvestedShares, rows), rows).cost != PositionOf(rows).cost
  {
    var bought := Transaction(1, 0, 1, Buy, 1.0, 10.0);
    var reinvested := Transaction(2, 0, 2, Dividend, 1.0, 10.0);
    rows := [bought, reinvested];
    assert rows[1..] == [reinvested];
    assert rows[1..][1..] == [];
    assert Fold(PositionStep, Position(1.0, 10.0), [reinvested]) == Position(2.0, 20.0);
    assert Sum(ReinvestedShares, [reinvested]) == 1.0;
    assert Sum(ReinvestedShares, rows) == 1.0;
    assert Fold(MetricsStep, Metrics(2.0, 10.0, 0.0, 0.0), [reinvested]).cost == 10.0;
  }

  /** Costs never turn negative, so an average cost is never negative either. */
  lemma {:induction false} CostNonNegative(m: Metrics, ts: seq<Transaction>)
    requires m.cost >= 0.0 && forall t :: t in ts ==> t.costPerShare >= 0.0
    ensures Fold(MetricsStep, m, ts).cost >= 0.0
    decreases |ts|
  {
    if ts != [] {
      var t := ts[0];
      assert t in ts && forall u :: u in ts[1..] ==> u in ts;
      var next := MetricsStep(m, t);
      assert next.cost >= 0.0 by {
        assert t.shares * t.costPerShare >= 0.0;
        var left := m.shares - t.shares;
        if left > 0.0 {
          assert m.cost / (left + t.shares) >= 0.0;
          assert (m.cost / (left + t.shares)) * left >= 0.0;
        }
      }
      CostNonNegative(next, ts[1..]);
    }
  }
}
