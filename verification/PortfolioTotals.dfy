/**
 The portfolio totals of one day, computed on demand and rounded once, against the sum of the rounded
 rows of the materialized table.
 */
module PortfolioTotals {
  import opened Collections
  import opened Sorting
  import opened Schema
  import opened Rounding
  import opened Ledger
  import opened FundHistory
  import opened FundHistoryService
  import opened Causality
  import opened MaterializedCache
  import opened CacheAgreement
  import opened Consistency
  import opened Operations
  import opened Transactions
  import Inbox

  // ------------------------------------------------------ on-demand totals

  datatype PortfolioSummary = PortfolioSummary(
    totalValue: real, totalCost: real, totalDividends: real, totalUnrealized: real, totalRealized: real,
    totalProceeds: real, totalOriginalCost: real, totalGainLoss: real)

  function AllTransactions(data: PortfolioData, funds: seq<PortfolioFund>): seq<Transaction>
  {
    if funds == [] then []
    else AllTransactions(data, funds[..|funds| - 1]) + Get(data.transactionsByPf, funds[|funds| - 1].id)
  }

  /** The metrics of a fund within its portfolio: reinvestments are looked up among all its transactions. */
  function MetricsWithin(data: PortfolioData, all: seq<Transaction>, pf: PortfolioFund, date: Day): FundMetrics
  {
    if Get(data.transactionsByPf, pf.id) == [] then FundMetrics(0.0, 0.0, 0.0, 0.0, 0.0, 0.0, 0.0)
    else
      var reinvested := DividendShares(Get(data.dividendsByPf, pf.id), all, date);
      var price := LastPrice(TakeWhile(PriceUpTo(date), Get(data.pricesByFund, pf.fundId)));
      Valued(MetricsOf(reinvested, Due(data, pf, date)), price)
  }

  function ValueWithin(data: PortfolioData, all: seq<Transaction>, date: Day): PortfolioFund -> real
  {
    (pf: PortfolioFund) => MetricsWithin(data, all, pf, date).value
  }

  function CostWithin(data: PortfolioData, all: seq<Transaction>, date: Day): PortfolioFund -> real
  {
    (pf: PortfolioFund) => MetricsWithin(data, all, pf, date).cost
  }

  function SharesWithin(data: PortfolioData, all: seq<Transaction>, date: Day): PortfolioFund -> real
  {
    (pf: PortfolioFund) => MetricsWithin(data, all, pf, date).shares
  }

  function DividendsWithin(data: PortfolioData, all: seq<Transaction>, date: Day): PortfolioFund -> real
  {
    (pf: PortfolioFund) => MetricsWithin(data, all, pf, date).dividends
  }

  function FeesWithin(data: PortfolioData, all: seq<Transaction>, date: Day): PortfolioFund -> real
  {
    (pf: PortfolioFund) => MetricsWithin(data, all, pf, date).fees
  }

  function AtLeastZero(x: real): real
  {
    if x > 0.0 then x else 0.0
  }

  function Summarized(value: real, cost: real, dividends: real, realized: Realized): PortfolioSummary
  {
    PortfolioSummary(
      Round(value), Round(cost), Round(dividends), Round(value - cost), Round(realized.gain),
      Round(realized.proceeds), Round(realized.basis), Round(realized.gain + (value - cost)))
  }

  /** The portfolio's dividends come as one list, in whatever order its funds were grouped. */
  function Summary(data: PortfolioData, allDividends: seq<DividendRow>, date: Day): PortfolioSummary
  {
    var all := AllTransactions(data, data.funds);
    Summarized(
      AtLeastZero(Sum(ValueWithin(data, all, date), data.funds)),
      AtLeastZero(Sum(CostWithin(data, all, date), data.funds)),
      DividendAmount(allDividends, date),
      RealizedUpTo(data.gains, date))
  }

  datatype TransactionMetrics = TransactionMetrics(
    totalShares: real, totalCost: real, totalValue: real, totalDividends: real, totalFees: real)

  function MetricsTotals(data: PortfolioData, all: seq<Transaction>, date: Day, funds: seq<PortfolioFund>)
    : TransactionMetrics
  {
    TransactionMetrics(
      Sum(SharesWithin(data, all, date), funds), Sum(CostWithin(data, all, date), funds),
      Sum(ValueWithin(data, all, date), funds), Sum(DividendsWithin(data, all, date), funds),
      Sum(FeesWithin(data, all, date), funds))
  }

  function NotNegative(m: TransactionMetrics): TransactionMetrics
  {
    TransactionMetrics(AtLeastZero(m.totalShares), AtLeastZero(m.totalCost), AtLeastZero(m.totalValue),
                       AtLeastZero(m.totalDividends), AtLeastZero(m.totalFees))
  }

  lemma NextTotals(data: PortfolioData, all: seq<Transaction>, date: Day, i: nat)
    requires i < |data.funds|
    ensures var t := MetricsTotals(data, all, date, data.funds[..i]);
            var m := MetricsWithin(data, all, data.funds[i], date);
            MetricsTotals(data, all, date, data.funds[..i + 1]) ==
            TransactionMetrics(t.totalShares + m.shares, t.totalCost + m.cost, t.totalValue + m.value,
                               t.totalDividends + m.dividends, t.totalFees + m.fees)
  {
    SumNext(SharesWithin(data, all, date), data.funds, i);
    SumNext(CostWithin(data, all, date), data.funds, i);
    SumNext(ValueWithin(data, all, date), data.funds, i);
    SumNext(DividendsWithin(data, all, date), data.funds, i);
    SumNext(FeesWithin(data, all, date), data.funds, i);
  }

  lemma NextUnreadableFund(data: PortfolioData, date: Day, i: nat)
    requires i < |data.funds| && Unsupported(Due(data, data.funds[i], date))
    ensures SomeUnreadable(data, date, data.funds)
  {
    assert data.funds[i] in data.funds;
  }

  method FundMetricsWithin(
    data: PortfolioData, all: seq<Transaction>, dividendShares: map<Id, real>, pf: PortfolioFund, date: Day)
    returns (r: Result<FundMetrics, Error>)
    requires dividendShares == map id | id in data.dividendsByPf :: DividendShares(data.dividendsByPf[id], all, date)
    requires Get(data.transactionsByPf, pf.id) != []
    ensures r == if Unsupported(Due(data, pf, date)) then Err(UnsupportedKind)
                 else Ok(MetricsWithin(data, all, pf, date))
  {
    var transactions := Get(data.transactionsByPf, pf.id);
    var reinvested := if pf.id in dividendShares then dividendShares[pf.id] else 0.0;
    assert reinvested == DividendShares(Get(data.dividendsByPf, pf.id), all, date);
    r := CalculateFundMetrics(date, transactions, reinvested, Get(data.pricesByFund, pf.fundId), false);
  }

  /** Sums the metrics of all funds that have transactions; negative totals become zero. */
  method ProcessTransactionsForDate(data: PortfolioData, all: seq<Transaction>, date: Day)
    returns (r: Result<TransactionMetrics, Error>)
    ensures r == if SomeUnreadable(data, date, data.funds) then Err(UnsupportedKind)
                 else Ok(NotNegative(MetricsTotals(data, all, date, data.funds)))
  {
    var dividendShares := ProcessDividendSharesForDate(data.dividendsByPf, all, date);
    var shares, cost, value, dividends, fees := 0.0, 0.0, 0.0, 0.0, 0.0;
    var i := 0;
    while i < |data.funds|
      invariant 0 <= i <= |data.funds|
      invariant TransactionMetrics(shares, cost, value, dividends, fees) ==
                MetricsTotals(data, all, date, data.funds[..i])
      invariant forall k :: 0 <= k < i ==> !Unsupported(Due(data, data.funds[k], date))
    {
      var pf := data.funds[i];
      NextTotals(data, all, date, i);
      if |Get(data.transactionsByPf, pf.id)| > 0 {
        var metrics := FundMetricsWithin(data, all, dividendShares, pf, date);
        if metrics.Err? {
          NextUnreadableFund(data, date, i);
          return Err(metrics.error);
        }
        var m := metrics.value;
        value := value + m.value;
        shares := shares + m.shares;
        cost := cost + m.cost;
        dividends := dividends + m.dividends;
        fees := fees + m.fees;
      }
      i := i + 1;
    }
    assert data.funds[..|data.funds|] == data.funds;
    r := Ok(NotNegative(TransactionMetrics(shares, cost, value, dividends, fees)));
  }

  method CalculateSinglePortfolioSummary(data: PortfolioData, allDividends: seq<DividendRow>, date: Day)
    returns (r: Result<PortfolioSummary, Error>)
    ensures r == if SomeUnreadable(data, date, data.funds) then Err(UnsupportedKind)
                 else Ok(Summary(data, allDividends, date))
  {
    var all := AllTransactions(data, data.funds);
    var metrics := ProcessTransactionsForDate(data, all, date);
    if metrics.Err? {
      return Err(metrics.error);
    }
    var dividends := ProcessDividendAmountForDate(allDividends, date);
    var realized := ProcessRealizedGainLossForDate(data.gains, date);
    r := Ok(Summarized(metrics.value.totalValue, metrics.value.totalCost, dividends, realized));
  }

  /**
   The dividend total breaks off at the first dividend past the date, but the portfolio's list is only
   ordered within each fund: it counts all that are due exactly when none that pays is behind a later one.
   */
  lemma DividendTotalIff(ds: seq<DividendRow>, date: Day)
    requires forall v :: v in ds ==> v.totalAmount >= 0.0
    ensures DividendAmount(ds, date) == Sum(TotalAmount, Filter(ExUpTo(date), ds)) <==>
            forall v :: v in ds[|TakeWhile(ExUpTo(date), ds)|..] && v.exDate <= date ==> v.totalAmount == 0.0
  {
    var read := TakeWhile(ExUpTo(date), ds);
    var rest := ds[|read|..];
    assert ds == read + rest;
    FilterConcat(ExUpTo(date), read, rest);
    FilterAll(ExUpTo(date), read);
    SumConcat(TotalAmount, read, Filter(ExUpTo(date), rest));
    FilterMembers(ExUpTo(date), rest);
    assert forall v :: v in rest ==> v in ds;
    SumNilIff(Filter(ExUpTo(date), rest));
  }

  lemma {:induction false} SumNilIff(ds: seq<DividendRow>)
    requires forall v :: v in ds ==> v.totalAmount >= 0.0
    ensures Sum(TotalAmount, ds) == 0.0 <==> forall v :: v in ds ==> v.totalAmount == 0.0
    ensures Sum(TotalAmount, ds) >= 0.0
  {
    if ds != [] {
      assert ds == [ds[0]] + ds[1..];
      SumNilIff(ds[1..]);
    }
  }

  /** Two funds' dividends, grouped one way and the other: the same portfolio, different totals. */
  lemma DividendTotalDependsOnGrouping() returns (a: seq<DividendRow>, b: seq<DividendRow>, date: Day)
    ensures multiset(a) == multiset(b) && DividendAmount(a, date) != DividendAmount(b, date)
  {
    var early, late := DividendRow(1, 1, 2, 3.0, None), DividendRow(2, 2, 9, 4.0, None);
    a, b, date := [early, late], [late, early], 5;
    assert a[1..] == [late] && TakeWhile(ExUpTo(5), [late]) == [];
    assert TakeWhile(ExUpTo(5), a) == [early] + TakeWhile(ExUpTo(5), [late]);
    SumOne(TotalAmount, early);
  }

  // ------------------------------------------------------- the cached totals

  const ValueIn: FundHistoryEntry -> real := (e: FundHistoryEntry) => e.value
  const CostIn: FundHistoryEntry -> real := (e: FundHistoryEntry) => e.cost
  const RealizedIn: FundHistoryEntry -> real := (e: FundHistoryEntry) => e.realizedGain

  function CachedField(cache: Cache, date: Day, field: FundHistoryEntry -> real): PortfolioFund -> real
  {
    (pf: PortfolioFund) => match Cached(cache, pf.id, date)
      case Some(e) => field(e)
      case None => 0.0
  }

  /** SUM over the rows of one portfolio and one day. */
  function CachedTotal(tb: Tables, cache: Cache, portfolioId: Id, date: Day, field: FundHistoryEntry -> real): real
  {
    Sum(CachedField(cache, date, field), FundsOf(tb, portfolioId))
  }

  // ------------------------------------------------------- sums of rounded rows

  lemma {:induction false} RoundedRowsNear<T>(f: T -> real, g: T -> real, xs: seq<T>)
    requires forall x :: x in xs ==> g(x) == Round(f(x))
    ensures Abs(Sum(g, xs) - Sum(f, xs)) <= |xs| as real * HalfUnit
  {
    if xs != [] {
      assert xs[0] in xs && forall x :: x in xs[1..] ==> x in xs;
      RoundedRowsNear(f, g, xs[1..]);
      RoundError(f(xs[0]));
      assert |xs| as real * HalfUnit == |xs[1..]| as real * HalfUnit + HalfUnit;
    }
  }

  ghost predicate WithinRounding(cached: real, total: real, n: nat)
  {
    Abs(cached - total) <= (n + 1) as real * HalfUnit
  }

  /** Rounding n terms and their sum moves the two apart by n + 1 half units at most. */
  lemma SumOfRounded<T>(f: T -> real, g: T -> real, xs: seq<T>)
    requires forall x :: x in xs ==> g(x) == Round(f(x))
    ensures WithinRounding(Sum(g, xs), Round(Sum(f, xs)), |xs|)
  {
    RoundedRowsNear(f, g, xs);
    RoundError(Sum(f, xs));
    assert (|xs| + 1) as real * HalfUnit == |xs| as real * HalfUnit + HalfUnit;
  }

  // ------------------------------------------------- one fund, both ways

  /** A dividend's reinvestment, where it is loaded at all, is among the transactions of its own fund. */
  ghost predicate OwnReinvestments(data: PortfolioData, all: seq<Transaction>, pf: PortfolioFund)
  {
    forall v, t :: v in Get(data.dividendsByPf, pf.id) && t in all && v.reinvestment == Some(t.id) ==>
      t in Get(data.transactionsByPf, pf.id)
  }

  ghost predicate UniqueTransactions(all: seq<Transaction>)
  {
    forall t, u :: t in all && u in all && t.id == u.id ==> t == u
  }

  lemma {:induction false} LookupIs(ts: seq<Transaction>, id: Id)
    ensures (forall t :: t in ts ==> t.id != id) ==> LookupShares(ts, id) == 0.0
    ensures (exists t :: t in ts && t.id == id) ==>
              exists t :: t in ts && t.id == id && LookupShares(ts, id) == t.shares
  {
    if ts != [] {
      assert ts == [ts[0]] + ts[1..];
      LookupIs(ts[1..], id);
    }
  }

  lemma SameLookupWithin(own: seq<Transaction>, all: seq<Transaction>, id: Id)
    requires UniqueTransactions(all) && forall t :: t in own ==> t in all
    requires forall t :: t in all && t.id == id ==> t in own
    ensures LookupShares(own, id) == LookupShares(all, id)
  {
    LookupIs(own, id);
    LookupIs(all, id);
  }

  lemma SameReinvestedWithin(own: seq<Transaction>, all: seq<Transaction>, ds: seq<DividendRow>)
    requires UniqueTransactions(all) && forall t :: t in own ==> t in all
    requires forall v, t :: v in ds && t in all && v.reinvestment == Some(t.id) ==> t in own
    ensures Sum(SharesReinvestedIn(own), ds) == Sum(SharesReinvestedIn(all), ds)
  {
    forall v | v in ds
      ensures SharesReinvestedIn(own)(v) == SharesReinvestedIn(all)(v)
    {
      if v.reinvestment.Some? {
        SameLookupWithin(own, all, v.reinvestment.value);
      }
    }
    SumSame(SharesReinvestedIn(own), SharesReinvestedIn(all), ds);
  }

  lemma {:induction false} OwnAmongAll(data: PortfolioData, funds: seq<PortfolioFund>, pf: PortfolioFund)
    requires pf in funds
    ensures forall t :: t in Get(data.transactionsByPf, pf.id) ==> t in AllTransactions(data, funds)
  {
    var init, last := funds[..|funds| - 1], funds[|funds| - 1];
    assert funds == init + [last];
    if pf != last {
      OwnAmongAll(data, init, pf);
    }
  }

  /** Within its portfolio a fund has the metrics it has on its own. */
  lemma MetricsWithinAreOwn(data: PortfolioData, pf: PortfolioFund, date: Day)
    requires pf in data.funds
    requires var all := AllTransactions(data, data.funds);
             UniqueTransactions(all) && OwnReinvestments(data, all, pf)
    ensures var m := MetricsWithin(data, AllTransactions(data, data.funds), pf, date);
            var own := MetricsAt(data, pf, date);
            && m.value == own.value && m.cost == own.cost && m.shares == own.shares
            && m.dividends == own.dividends && m.fees == own.fees
  {
    var all, own := AllTransactions(data, data.funds), Get(data.transactionsByPf, pf.id);
    var ds := TakeWhile(ExUpTo(date), Get(data.dividendsByPf, pf.id));
    OwnAmongAll(data, data.funds, pf);
    if own == [] {
      NothingFoundInNothing(ds);
      assert MetricsAt(data, pf, date).shares == 0.0;
    } else {
      SameReinvestedWithin(own, all, ds);
    }
  }

  // ------------------------------------------------------ realized per fund

  /** Every realized gain is on exactly one of the funds. */
  ghost predicate OneFundEach(gains: seq<RealizedGain>, funds: seq<PortfolioFund>)
  {
    forall g :: g in gains ==> |Filter(HoldsFund(g.fundId), funds)| == 1
  }

  function GainShare(g: RealizedGain, date: Day): PortfolioFund -> real
  {
    (pf: PortfolioFund) => if pf.fundId == g.fundId && g.date <= date then g.gain else 0.0
  }

  function GainsFrom(gains: seq<RealizedGain>, date: Day): PortfolioFund -> real
  {
    (pf: PortfolioFund) => Sum(GainOf, Filter(GainUpTo(date), Filter(OfFund(pf.fundId), gains)))
  }

  lemma {:induction false} ShareOfOne(g: RealizedGain, date: Day, funds: seq<PortfolioFund>)
    ensures |Filter(HoldsFund(g.fundId), funds)| == 0 ==> Sum(GainShare(g, date), funds) == 0.0
    ensures |Filter(HoldsFund(g.fundId), funds)| == 1 ==>
              Sum(GainShare(g, date), funds) == if g.date <= date then g.gain else 0.0
  {
    if funds != [] {
      ShareOfOne(g, date, funds[1..]);
    }
  }

  lemma {:induction false} SumPlus<T>(f: T -> real, g: T -> real, h: T -> real, xs: seq<T>)
    requires forall x :: x in xs ==> h(x) == f(x) + g(x)
    ensures Sum(h, xs) == Sum(f, xs) + Sum(g, xs)
  {
    if xs != [] {
      assert xs[0] in xs && forall x :: x in xs[1..] ==> x in xs;
      SumPlus(f, g, h, xs[1..]);
    }
  }

  lemma NextGainsFrom(g: RealizedGain, rest: seq<RealizedGain>, date: Day, pf: PortfolioFund)
    ensures GainsFrom([g] + rest, date)(pf) == GainShare(g, date)(pf) + GainsFrom(rest, date)(pf)
  {
    assert ([g] + rest)[1..] == rest;
    var mine := Filter(OfFund(pf.fundId), rest);
    if pf.fundId == g.fundId {
      assert ([g] + mine)[1..] == mine;
      var due := Filter(GainUpTo(date), mine);
      assert ([g] + due)[1..] == due;
    }
  }

  lemma {:induction false} NoGains(date: Day, funds: seq<PortfolioFund>)
    ensures Sum(GainsFrom([], date), funds) == 0.0
  {
    if funds != [] {
      NoGains(date, funds[1..]);
    }
  }

  /** Summing gains by fund is summing them all, when each is on one fund. */
  lemma {:induction false} GainsByFund(gains: seq<RealizedGain>, date: Day, funds: seq<PortfolioFund>)
    requires OneFundEach(gains, funds)
    ensures Sum(GainsFrom(gains, date), funds) == Sum(GainOf, Filter(GainUpTo(date), gains))
  {
    if gains == [] {
      NoGains(date, funds);
    } else {
      var g, rest := gains[0], gains[1..];
      assert gains == [g] + rest;
      GainsByFund(rest, date, funds);
      forall pf | pf in funds
        ensures GainsFrom(gains, date)(pf) == GainShare(g, date)(pf) + GainsFrom(rest, date)(pf)
      {
        NextGainsFrom(g, rest, date, pf);
      }
      SumPlus(GainShare(g, date), GainsFrom(rest, date), GainsFrom(gains, date), funds);
      assert g in gains;
      ShareOfOne(g, date, funds);
    }
  }

  /** In consistent tables each loaded gain is on exactly one fund of the portfolio. */
  lemma LoadedGainsOnOneFund(tb: Tables, portfolioId: Id, today: Day)
    requires LedgerTables(tb)
    ensures OneFundEach(Loaded(tb, portfolioId, today).gains, FundsOf(tb, portfolioId))
  {
    var data := Loaded(tb, portfolioId, today);
    FilterMembers(GainWindow(portfolioId, Oldest(tb, portfolioId), today), tb.gains);
    forall g | g in data.gains
      ensures |Filter(HoldsFund(g.fundId), data.funds)| == 1
    {
      assert g in tb.gains && g.portfolioId == portfolioId;
      FilterFilter(HoldsFund(g.fundId), InPortfolio(portfolioId), Inbox.IsPair(portfolioId, g.fundId),
                   tb.portfolioFunds);
      assert PairOk(tb, portfolioId, g.fundId);
      FundOfGain(tb, g);
    }
  }

  lemma FundOfGain(tb: Tables, g: RealizedGain)
    requires LedgerTables(tb) && g in tb.gains
    ensures Filter(Inbox.IsPair(g.portfolioId, g.fundId), tb.portfolioFunds) != []
  {
    InOwnGains(tb, g);
    var t := RowsOf(tb, g.transactionId)[0];
    assert LedgerOk(tb, g.transactionId);
    FoundRow(IsPf(t.pfId), tb.portfolioFunds);
    FilterMembers(Inbox.IsPair(g.portfolioId, g.fundId), tb.portfolioFunds);
    assert FindPf(tb, t.pfId).value in Filter(Inbox.IsPair(g.portfolioId, g.fundId), tb.portfolioFunds);
  }

  // ------------------------------------------------------------- the bound

  /** A row that is left out of the table would have shown no value and no cost. */
  predicate SilentWhenBlank(e: FundHistoryEntry)
  {
    Blank(e) ==> e.value == 0.0 && e.cost == 0.0
  }

  lemma CachedEntry(tb: Tables, cache: Cache, portfolioId: Id, pf: PortfolioFund, date: Day, today: Day)
    requires pf in FundsOf(tb, portfolioId) && pf.portfolioId == portfolioId && date <= today
    requires Agrees(tb, cache, pf, today)
    ensures var e := EntryFor(Loaded(tb, portfolioId, today), pf, date);
            Cached(cache, pf.id, date) == if Blank(e) then None else Some(e)
  {
    assert Cached(cache, pf.id, date) == Oracle(tb, pf, date, today);
  }

  ghost predicate CacheRight(tb: Tables, cache: Cache, portfolioId: Id, today: Day)
  {
    forall pf :: pf in FundsOf(tb, portfolioId) ==> pf.portfolioId == portfolioId && Agrees(tb, cache, pf, today)
  }

  /** A right table sums a field of the rows to within rounding of the unrounded sum, rounded once. */
  lemma CachedTotalNear(
    tb: Tables, cache: Cache, portfolioId: Id, date: Day, today: Day,
    field: FundHistoryEntry -> real, exact: PortfolioFund -> real)
    requires CacheRight(tb, cache, portfolioId, today) && date <= today
    requires forall pf :: pf in FundsOf(tb, portfolioId) ==>
               var e := EntryFor(Loaded(tb, portfolioId, today), pf, date);
               field(e) == Round(exact(pf)) && (Blank(e) ==> field(e) == 0.0)
    ensures WithinRounding(CachedTotal(tb, cache, portfolioId, date, field),
                           Round(Sum(exact, FundsOf(tb, portfolioId))), |FundsOf(tb, portfolioId)|)
  {
    var funds := FundsOf(tb, portfolioId);
    forall pf | pf in funds
      ensures CachedField(cache, date, field)(pf) == Round(exact(pf))
    {
      CachedEntry(tb, cache, portfolioId, pf, date, today);
    }
    SumOfRounded(exact, CachedField(cache, date, field), funds);
  }

  lemma {:induction false} LoadedAreRows(tb: Tables, portfolioId: Id, today: Day, funds: seq<PortfolioFund>)
    requires forall pf :: pf in funds ==> pf in FundsOf(tb, portfolioId)
    ensures forall t :: t in AllTransactions(Loaded(tb, portfolioId, today), funds) ==> t in tb.transactions
  {
    if funds != [] {
      var init, pf := funds[..|funds| - 1], funds[|funds| - 1];
      assert funds == init + [pf];
      LoadedAreRows(tb, portfolioId, today, init);
      LoadedKeys(tb, portfolioId, today, pf);
      var window := TransactionWindow(pf.id, Oldest(tb, portfolioId), today);
      FilterMembers(window, tb.transactions);
      SortMembers(ByDate, Filter(window, tb.transactions));
    }
  }

  lemma LoadedAreUnique(tb: Tables, portfolioId: Id, today: Day)
    requires LedgerTables(tb)
    ensures UniqueTransactions(AllTransactions(Loaded(tb, portfolioId, today), FundsOf(tb, portfolioId)))
  {
    var all := AllTransactions(Loaded(tb, portfolioId, today), FundsOf(tb, portfolioId));
    LoadedAreRows(tb, portfolioId, today, FundsOf(tb, portfolioId));
    forall t, u | t in all && u in all && t.id == u.id
      ensures t == u
    {
      InOwnRows(tb, t);
      InOwnRows(tb, u);
    }
  }

  lemma ValuesNear(tb: Tables, cache: Cache, portfolioId: Id, date: Day, today: Day, all: seq<Transaction>)
    requires CacheRight(tb, cache, portfolioId, today) && date <= today
    requires var data := Loaded(tb, portfolioId, today);
             && all == AllTransactions(data, data.funds) && UniqueTransactions(all)
             && forall pf :: pf in data.funds ==>
                  OwnReinvestments(data, all, pf) && SilentWhenBlank(EntryFor(data, pf, date))
    ensures var data := Loaded(tb, portfolioId, today);
            var n := |FundsOf(tb, portfolioId)|;
            && WithinRounding(CachedTotal(tb, cache, portfolioId, date, ValueIn),
                              Round(Sum(ValueWithin(data, all, date), data.funds)), n)
            && WithinRounding(CachedTotal(tb, cache, portfolioId, date, CostIn),
                              Round(Sum(CostWithin(data, all, date), data.funds)), n)
  {
    var data := Loaded(tb, portfolioId, today);
    forall pf | pf in data.funds
      ensures ValueIn(EntryFor(data, pf, date)) == Round(ValueWithin(data, all, date)(pf))
      ensures CostIn(EntryFor(data, pf, date)) == Round(CostWithin(data, all, date)(pf))
    {
      MetricsWithinAreOwn(data, pf, date);
    }
    CachedTotalNear(tb, cache, portfolioId, date, today, ValueIn, ValueWithin(data, all, date));
    CachedTotalNear(tb, cache, portfolioId, date, today, CostIn, CostWithin(data, all, date));
  }

  lemma GainsNear(
    tb: Tables, cache: Cache, portfolioId: Id, allDividends: seq<DividendRow>, date: Day, today: Day)
    requires LedgerTables(tb) && CacheRight(tb, cache, portfolioId, today) && date <= today
    ensures WithinRounding(CachedTotal(tb, cache, portfolioId, date, RealizedIn),
                           Summary(Loaded(tb, portfolioId, today), allDividends, date).totalRealized,
                           |FundsOf(tb, portfolioId)|)
  {
    var data := Loaded(tb, portfolioId, today);
    LoadedGainsOnOneFund(tb, portfolioId, today);
    GainsByFund(data.gains, date, data.funds);
    CachedTotalNear(tb, cache, portfolioId, date, today, RealizedIn, GainsFrom(data.gains, date));
  }

  /**
   For consistent tables and a right cache: the portfolio's cached value and cost are within n + 1 half
   units of the on-demand totals as long as those are not negative, no row left out would have shown
   either, and reinvestments stay in their dividend's fund. Its realized gain always is.
   */
  lemma CachedTotalsAgree(
    tb: Tables, cache: Cache, portfolioId: Id, date: Day, today: Day, all: seq<Transaction>,
    allDividends: seq<DividendRow>)
    requires LedgerTables(tb) && CacheRight(tb, cache, portfolioId, today) && date <= today
    requires var data := Loaded(tb, portfolioId, today);
             && all == AllTransactions(data, data.funds)
             && Sum(ValueWithin(data, all, date), data.funds) >= 0.0
             && Sum(CostWithin(data, all, date), data.funds) >= 0.0
             && forall pf :: pf in data.funds ==>
                  OwnReinvestments(data, all, pf) && SilentWhenBlank(EntryFor(data, pf, date))
    ensures var summary := Summary(Loaded(tb, portfolioId, today), allDividends, date);
            var n := |FundsOf(tb, portfolioId)|;
            && WithinRounding(CachedTotal(tb, cache, portfolioId, date, ValueIn), summary.totalValue, n)
            && WithinRounding(CachedTotal(tb, cache, portfolioId, date, CostIn), summary.totalCost, n)
            && WithinRounding(CachedTotal(tb, cache, portfolioId, date, RealizedIn), summary.totalRealized, n)
  {
    LoadedAreUnique(tb, portfolioId, today);
    ValuesNear(tb, cache, portfolioId, date, today, all);
    GainsNear(tb, cache, portfolioId, allDividends, date, today);
  }
}
