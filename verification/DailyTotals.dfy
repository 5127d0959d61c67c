/**
 The totals of a portfolio on a day in terms of the tables: what its funds are worth and have cost, and
 what its sales have realized.
 */
module DailyTotals {
  import opened Collections
  import opened Sorting
  import opened Schema
  import opened Rounding
  import opened Ledger
  import opened FundHistory
  import opened FundHistoryService
  import opened Causality
  import opened DailyEntry
  import opened Backfill
  import opened PortfolioTotals
  import Consistency
  import Operations

  // ---------------------------------------------------------------- one fund

  ghost predicate HasPrice(tb: Tables, pf: PortfolioFund, d: Day)
  {
    exists p :: PriceOn(tb, pf, p, d)
  }

  /** The last price of the fund by the day, or nothing. */
  ghost function PriceAt(tb: Tables, pf: PortfolioFund, d: Day): real
  {
    if HasPrice(tb, pf, d) then
      var p :| PriceOn(tb, pf, p, d);
      p.price
    else 0.0
  }

  ghost function Worth(tb: Tables, d: Day, today: Day): PortfolioFund -> real
  {
    (pf: PortfolioFund) => AtPrice(Held(tb, pf, d, today), PriceAt(tb, pf, d))
  }

  ghost function CostOf(tb: Tables, d: Day, today: Day): PortfolioFund -> real
  {
    (pf: PortfolioFund) => CostLeft(tb, pf, d, today)
  }

  ghost function SharesOf(tb: Tables, d: Day, today: Day): PortfolioFund -> real
  {
    (pf: PortfolioFund) => Held(tb, pf, d, today)
  }

  ghost function FeesOf(tb: Tables, d: Day): PortfolioFund -> real
  {
    (pf: PortfolioFund) => Sum(FeePaid, Trades(tb, pf, d))
  }

  /** The money of the reinvested dividends booked as transactions. */
  ghost function ReinvestedOf(tb: Tables, d: Day): PortfolioFund -> real
  {
    (pf: PortfolioFund) => Sum(PaidDividends, Trades(tb, pf, d))
  }

  ghost predicate SomePriceCounts(tb: Tables, pf: PortfolioFund, d: Day, prices: seq<FundPrice>)
  {
    exists p :: p in prices && p.fundId == pf.fundId && CountsOn(tb, pf.portfolioId, p.date, d)
  }

  /** Among some prices that count there is a last one. */
  lemma {:induction false} LastAmong(tb: Tables, pf: PortfolioFund, d: Day, prices: seq<FundPrice>)
    returns (p: FundPrice)
    requires SomePriceCounts(tb, pf, d, prices)
    ensures p in prices && p.fundId == pf.fundId && CountsOn(tb, pf.portfolioId, p.date, d)
    ensures forall q :: q in prices && q.fundId == pf.fundId && CountsOn(tb, pf.portfolioId, q.date, d) ==>
              q.date <= p.date
  {
    var last := prices[|prices| - 1];
    assert prices == prices[..|prices| - 1] + [last];
    if SomePriceCounts(tb, pf, d, prices[..|prices| - 1]) {
      p := LastAmong(tb, pf, d, prices[..|prices| - 1]);
      if last.fundId == pf.fundId && CountsOn(tb, pf.portfolioId, last.date, d) && last.date > p.date {
        p := last;
      }
    } else {
      p := last;
    }
  }

  lemma LaterCounts(tb: Tables, portfolioId: Id, date: Day, later: Day, d: Day)
    requires CountsOn(tb, portfolioId, date, d) && date <= later <= d
    ensures CountsOn(tb, portfolioId, later, d)
  {
  }

  lemma PricedWhenCounted(tb: Tables, pf: PortfolioFund, d: Day)
    ensures HasPrice(tb, pf, d) <==> SomePriceCounts(tb, pf, d, tb.prices)
  {
    if SomePriceCounts(tb, pf, d, tb.prices) {
      var p := LastAmong(tb, pf, d, tb.prices);
      forall q | q in tb.prices && q.fundId == pf.fundId && q.date <= d
        ensures q.date <= p.date
      {
        if q.date > p.date {
          LaterCounts(tb, pf.portfolioId, p.date, q.date, d);
        }
      }
      assert PriceOn(tb, pf, p, d);
    }
  }

  lemma PriceAtIs(tb: Tables, pf: PortfolioFund, d: Day, today: Day)
    requires pf in tb.portfolioFunds && d <= today && OnePricePerDay(tb.prices)
    ensures PricedAs(MetricsAt(Loaded(tb, pf.portfolioId, today), pf, d), PriceAt(tb, pf, d))
  {
    PricedWhenCounted(tb, pf, d);
    if HasPrice(tb, pf, d) {
      var p :| PriceOn(tb, pf, p, d);
      forall q | PriceOn(tb, pf, q, d)
        ensures q == p
      {
        SameDaySamePrice(tb.prices, p, q);
      }
      PriceIs(tb, pf, d, today, p);
    } else {
      NoPriceIs(tb, pf, d, today);
    }
  }

  lemma FundFigures(tb: Tables, pf: PortfolioFund, d: Day, today: Day)
    requires pf in tb.portfolioFunds && d <= today && OneRowPerId(tb) && OnePricePerDay(tb.prices)
    ensures var m := MetricsAt(Loaded(tb, pf.portfolioId, today), pf, d);
            && m.value == Worth(tb, d, today)(pf) && m.cost == CostOf(tb, d, today)(pf)
            && m.shares == SharesOf(tb, d, today)(pf) && m.fees == FeesOf(tb, d)(pf)
  {
    HeldIs(tb, pf, d, today);
    CostIs(tb, pf, d, today);
    PriceAtIs(tb, pf, d, today);
    ValuedAtPrice(MetricsAt(Loaded(tb, pf.portfolioId, today), pf, d), PriceAt(tb, pf, d), Held(tb, pf, d, today));
  }

  lemma {:induction false} FoldedDividends(m: Metrics, ts: seq<Transaction>)
    ensures Fold(MetricsStep, m, ts).dividends == m.dividends + Sum(PaidDividends, ts)
    decreases |ts|
  {
    if ts != [] {
      FoldedDividends(MetricsStep(m, ts[0]), ts[1..]);
    }
  }

  lemma ReinvestedMoney(tb: Tables, pf: PortfolioFund, d: Day, today: Day)
    requires pf in tb.portfolioFunds && d <= today
    ensures MetricsAt(Loaded(tb, pf.portfolioId, today), pf, d).dividends == ReinvestedOf(tb, d)(pf)
  {
    var data := Loaded(tb, pf.portfolioId, today);
    ReadOnDay(tb, pf, d, today);
    FoldedDividends(Metrics(DividendShares(Get(data.dividendsByPf, pf.id), Get(data.transactionsByPf, pf.id), d),
                            0.0, 0.0, 0.0), Due(data, pf, d));
    SortMultiset(ByDate, Trades(tb, pf, d));
    SumPermutation(PaidDividends, Sort(ByDate, Trades(tb, pf, d)), Trades(tb, pf, d));
  }

  // ------------------------------------------------------------ the portfolio

  /** The gains of the portfolio's sales that count on the day. */
  ghost function PortfolioGains(tb: Tables, portfolioId: Id, d: Day): seq<RealizedGain>
  {
    Filter((g: RealizedGain) => g.portfolioId == portfolioId && CountsOn(tb, portfolioId, g.date, d), tb.gains)
  }

  lemma GainsRead(tb: Tables, portfolioId: Id, d: Day, today: Day)
    requires d <= today
    ensures Filter(GainUpTo(d), Loaded(tb, portfolioId, today).gains) == PortfolioGains(tb, portfolioId, d)
  {
    var lo := Oldest(tb, portfolioId);
    FilterFilter(GainUpTo(d), GainWindow(portfolioId, lo, today), GainWindow(portfolioId, lo, d), tb.gains);
    forall g | g in tb.gains
      ensures CountsOn(tb, portfolioId, g.date, d) <==> Within(lo, d, g.date)
    {
      WindowCounts(tb, portfolioId, g.date, d);
    }
    FilterSame(GainWindow(portfolioId, lo, d),
               (g: RealizedGain) => g.portfolioId == portfolioId && CountsOn(tb, portfolioId, g.date, d), tb.gains);
  }

  function Positive(x: real): real
  {
    if x < 0.0 then 0.0 else x
  }

  /** Each total in terms of the funds' worth and cost and of the realized gains, rounded once. */
  predicate Totals(s: PortfolioSummary, worth: real, cost: real, dividends: real, realized: Realized)
  {
    && s.totalValue == Round(worth) && s.totalCost == Round(cost) && s.totalUnrealized == Round(worth - cost)
    && s.totalDividends == Round(dividends)
    && s.totalRealized == Round(realized.gain) && s.totalProceeds == Round(realized.proceeds)
    && s.totalOriginalCost == Round(realized.basis) && s.totalGainLoss == Round(realized.gain + (worth - cost))
  }

  /** Where reinvestments are booked on the fund that pays them. */
  ghost predicate ReinvestedAtHome(tb: Tables, portfolioId: Id, today: Day)
  {
    var data := Loaded(tb, portfolioId, today);
    forall pf :: pf in data.funds ==> OwnReinvestments(data, AllTransactions(data, data.funds), pf)
  }

  lemma WithinFigures(tb: Tables, portfolioId: Id, pf: PortfolioFund, d: Day, today: Day)
    requires Consistency.LedgerTables(tb) && OnePricePerDay(tb.prices) && d <= today
    requires ReinvestedAtHome(tb, portfolioId, today) && pf in FundsOf(tb, portfolioId)
    ensures var data := Loaded(tb, portfolioId, today);
            var m := MetricsWithin(data, AllTransactions(data, data.funds), pf, d);
            && m.value == Worth(tb, d, today)(pf) && m.cost == CostOf(tb, d, today)(pf)
            && m.shares == SharesOf(tb, d, today)(pf) && m.fees == FeesOf(tb, d)(pf)
            && m.dividends == ReinvestedOf(tb, d)(pf)
  {
    FilterMembers(InPortfolio(portfolioId), tb.portfolioFunds);
    LoadedAreUnique(tb, portfolioId, today);
    MetricsWithinAreOwn(Loaded(tb, portfolioId, today), pf, d);
    OneRowEach(tb);
    FundFigures(tb, pf, d, today);
    ReinvestedMoney(tb, pf, d, today);
  }

  lemma OneRowEach(tb: Tables)
    requires Consistency.LedgerTables(tb)
    ensures OneRowPerId(tb)
  {
    forall t, u | t in tb.transactions && u in tb.transactions && t.id == u.id
      ensures t == u
    {
      Operations.InOwnRows(tb, t);
      Operations.InOwnRows(tb, u);
    }
  }

  lemma SummarizedTotals(worth: real, cost: real, dividends: real, realized: Realized)
    ensures Totals(Summarized(AtLeastZero(worth), AtLeastZero(cost), dividends, realized),
                   Positive(worth), Positive(cost), dividends, realized)
  {
  }

  lemma FundTotals(tb: Tables, portfolioId: Id, d: Day, today: Day)
    requires Consistency.LedgerTables(tb) && OnePricePerDay(tb.prices) && d <= today
    requires ReinvestedAtHome(tb, portfolioId, today)
    ensures var data, funds := Loaded(tb, portfolioId, today), FundsOf(tb, portfolioId);
            var all := AllTransactions(data, funds);
            && Sum(ValueWithin(data, all, d), funds) == Sum(Worth(tb, d, today), funds)
            && Sum(CostWithin(data, all, d), funds) == Sum(CostOf(tb, d, today), funds)
  {
    var data := Loaded(tb, portfolioId, today);
    var all := AllTransactions(data, data.funds);
    forall pf | pf in data.funds
      ensures ValueWithin(data, all, d)(pf) == Worth(tb, d, today)(pf)
      ensures CostWithin(data, all, d)(pf) == CostOf(tb, d, today)(pf)
    {
      WithinFigures(tb, portfolioId, pf, d, today);
    }
    SumSame(ValueWithin(data, all, d), Worth(tb, d, today), data.funds);
    SumSame(CostWithin(data, all, d), CostOf(tb, d, today), data.funds);
  }

  /**
   The totals of a day: the worth and the cost of all funds of the portfolio, not below zero, what all its
   sales by the day have realized, and the n dividends of the list before the first one past the day.
   */
  lemma SummaryIs(tb: Tables, portfolioId: Id, allDividends: seq<DividendRow>, n: nat, d: Day, today: Day)
    requires Consistency.LedgerTables(tb) && OnePricePerDay(tb.prices) && d <= today
    requires ReinvestedAtHome(tb, portfolioId, today)
    requires n <= |allDividends| && (n < |allDividends| ==> allDividends[n].exDate > d)
    requires forall i :: 0 <= i < n ==> allDividends[i].exDate <= d
    ensures var funds, gains := FundsOf(tb, portfolioId), PortfolioGains(tb, portfolioId, d);
            Totals(Summary(Loaded(tb, portfolioId, today), allDividends, d),
                   Positive(Sum(Worth(tb, d, today), funds)), Positive(Sum(CostOf(tb, d, today), funds)),
                   Sum(TotalAmount, allDividends[..n]),
                   Realized(Sum(GainOf, gains), Sum(ProceedsOf, gains), Sum(BasisOf, gains)))
  {
    var funds, gains := FundsOf(tb, portfolioId), PortfolioGains(tb, portfolioId, d);
    FundTotals(tb, portfolioId, d, today);
    GainsRead(tb, portfolioId, d, today);
    TakeWhileIs(ExUpTo(d), allDividends, n);
    SummarizedTotals(Sum(Worth(tb, d, today), funds), Sum(CostOf(tb, d, today), funds),
                     Sum(TotalAmount, allDividends[..n]),
                     Realized(Sum(GainOf, gains), Sum(ProceedsOf, gains), Sum(BasisOf, gains)));
  }

  lemma OtherTotals(tb: Tables, portfolioId: Id, d: Day, today: Day)
    requires Consistency.LedgerTables(tb) && OnePricePerDay(tb.prices) && d <= today
    requires ReinvestedAtHome(tb, portfolioId, today)
    ensures var data, funds := Loaded(tb, portfolioId, today), FundsOf(tb, portfolioId);
            var all := AllTransactions(data, funds);
            && Sum(SharesWithin(data, all, d), funds) == Sum(SharesOf(tb, d, today), funds)
            && Sum(FeesWithin(data, all, d), funds) == Sum(FeesOf(tb, d), funds)
            && Sum(DividendsWithin(data, all, d), funds) == Sum(ReinvestedOf(tb, d), funds)
  {
    var data := Loaded(tb, portfolioId, today);
    var all := AllTransactions(data, data.funds);
    forall pf | pf in data.funds
      ensures SharesWithin(data, all, d)(pf) == SharesOf(tb, d, today)(pf)
      ensures FeesWithin(data, all, d)(pf) == FeesOf(tb, d)(pf)
      ensures DividendsWithin(data, all, d)(pf) == ReinvestedOf(tb, d)(pf)
    {
      WithinFigures(tb, portfolioId, pf, d, today);
    }
    SumSame(SharesWithin(data, all, d), SharesOf(tb, d, today), data.funds);
    SumSame(FeesWithin(data, all, d), FeesOf(tb, d), data.funds);
    SumSame(DividendsWithin(data, all, d), ReinvestedOf(tb, d), data.funds);
  }

  /** The five totals over the funds with transactions are those over all funds of the portfolio. */
  lemma MetricsTotalsAre(tb: Tables, portfolioId: Id, d: Day, today: Day)
    requires Consistency.LedgerTables(tb) && OnePricePerDay(tb.prices) && d <= today
    requires ReinvestedAtHome(tb, portfolioId, today)
    ensures var data, funds := Loaded(tb, portfolioId, today), FundsOf(tb, portfolioId);
            var m := NotNegative(MetricsTotals(data, AllTransactions(data, funds), d, funds));
            && m.totalShares == Positive(Sum(SharesOf(tb, d, today), funds))
            && m.totalCost == Positive(Sum(CostOf(tb, d, today), funds))
            && m.totalValue == Positive(Sum(Worth(tb, d, today), funds))
            && m.totalDividends == Positive(Sum(ReinvestedOf(tb, d), funds))
            && m.totalFees == Positive(Sum(FeesOf(tb, d), funds))
  {
    FundTotals(tb, portfolioId, d, today);
    OtherTotals(tb, portfolioId, d, today);
  }
}
