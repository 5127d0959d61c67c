/**
 What an entry of the daily history says in terms of the tables alone: which rows count on a day, and
 each of its figures as a sum over them, whatever the order in which they are loaded and read.
 */
module DailyEntry {
  import opened Collections
  import opened Sorting
  import opened Schema
  import opened Rounding
  import opened Ledger
  import opened DayOrder
  import opened FundHistory
  import opened Causality
  import opened CacheAgreement
  import opened Backfill

  // ------------------------------------------------------ the rows that count

  ghost predicate OnPortfolio(tb: Tables, portfolioId: Id, t: Transaction)
  {
    exists pf :: pf in tb.portfolioFunds && pf.portfolioId == portfolioId && pf.id == t.pfId
  }

  /** The portfolio has a transaction by then, or none at all. */
  ghost predicate Open(tb: Tables, portfolioId: Id, day: Day)
  {
    || (exists t :: t in tb.transactions && OnPortfolio(tb, portfolioId, t) && t.date <= day)
    || (forall t :: t in tb.transactions ==> !OnPortfolio(tb, portfolioId, t))
  }

  /** A row of that date counts on the day. */
  ghost predicate CountsOn(tb: Tables, portfolioId: Id, date: Day, d: Day)
  {
    date <= d && Open(tb, portfolioId, date)
  }

  ghost function TradeDue(tb: Tables, pf: PortfolioFund, d: Day): Transaction -> bool
  {
    (t: Transaction) => t.pfId == pf.id && CountsOn(tb, pf.portfolioId, t.date, d)
  }

  ghost function DividendDue(tb: Tables, pf: PortfolioFund, d: Day): DividendRow -> bool
  {
    (v: DividendRow) => v.pfId == pf.id && CountsOn(tb, pf.portfolioId, v.exDate, d)
  }

  ghost function GainDue(tb: Tables, pf: PortfolioFund, d: Day): RealizedGain -> bool
  {
    (g: RealizedGain) =>
      g.portfolioId == pf.portfolioId && g.fundId == pf.fundId && CountsOn(tb, pf.portfolioId, g.date, d)
  }

  lemma OwnRows(tb: Tables, portfolioId: Id, t: Transaction)
    ensures OfAny(PfIds(FundsOf(tb, portfolioId)))(t) <==> OnPortfolio(tb, portfolioId, t)
  {
    FilterMembers(InPortfolio(portfolioId), tb.portfolioFunds);
  }

  /** The loader's window starts where the portfolio opens. */
  lemma WindowIsOpen(tb: Tables, portfolioId: Id, day: Day)
    ensures Open(tb, portfolioId, day) <==>
            (Oldest(tb, portfolioId).Some? ==> Oldest(tb, portfolioId).value <= day)
  {
    var own := OfAny(PfIds(FundsOf(tb, portfolioId)));
    FilterMembers(own, tb.transactions);
    forall t | t in tb.transactions
      ensures own(t) <==> OnPortfolio(tb, portfolioId, t)
    {
      OwnRows(tb, portfolioId, t);
    }
    if Filter(own, tb.transactions) != [] {
      assert Filter(own, tb.transactions)[0] in Filter(own, tb.transactions);
    }
  }

  lemma WindowCounts(tb: Tables, portfolioId: Id, date: Day, d: Day)
    ensures CountsOn(tb, portfolioId, date, d) <==> Within(Oldest(tb, portfolioId), d, date)
  {
    WindowIsOpen(tb, portfolioId, date);
  }

  lemma DueRows(tb: Tables, pf: PortfolioFund, d: Day)
    ensures Filter(TransactionWindow(pf.id, Oldest(tb, pf.portfolioId), d), tb.transactions) ==
            Filter(TradeDue(tb, pf, d), tb.transactions)
    ensures Filter(DividendWindow(pf.id, Oldest(tb, pf.portfolioId), d), tb.dividends) ==
            Filter(DividendDue(tb, pf, d), tb.dividends)
    ensures Filter(FundGainWindow(pf.portfolioId, pf.fundId, Oldest(tb, pf.portfolioId), d), tb.gains) ==
            Filter(GainDue(tb, pf, d), tb.gains)
  {
    var lo := Oldest(tb, pf.portfolioId);
    forall date
      ensures CountsOn(tb, pf.portfolioId, date, d) <==> Within(lo, d, date)
    {
      WindowCounts(tb, pf.portfolioId, date, d);
    }
    FilterSame(TransactionWindow(pf.id, lo, d), TradeDue(tb, pf, d), tb.transactions);
    FilterSame(DividendWindow(pf.id, lo, d), DividendDue(tb, pf, d), tb.dividends);
    FilterSame(FundGainWindow(pf.portfolioId, pf.fundId, lo, d), GainDue(tb, pf, d), tb.gains);
  }

  // -------------------------------------------------------------- the sums

  ghost function Trades(tb: Tables, pf: PortfolioFund, d: Day): seq<Transaction>
  {
    Filter(TradeDue(tb, pf, d), tb.transactions)
  }

  ghost function Dividends(tb: Tables, pf: PortfolioFund, d: Day): seq<DividendRow>
  {
    Filter(DividendDue(tb, pf, d), tb.dividends)
  }

  ghost function Gains(tb: Tables, pf: PortfolioFund, d: Day): seq<RealizedGain>
  {
    Filter(GainDue(tb, pf, d), tb.gains)
  }

  function BoughtLessSold(t: Transaction): real
  {
    match t.kind
    case Buy => t.shares
    case Sell => 0.0 - t.shares
    case _ => 0.0
  }

  function FeePaid(t: Transaction): real
  {
    if t.kind == Fee then t.costPerShare else 0.0
  }

  /** The shares of the fund's own transaction that the dividend reinvests, of whatever date up to today. */
  ghost function SharesFrom(tb: Tables, pf: PortfolioFund, today: Day): DividendRow -> real
  {
    (v: DividendRow) =>
      if exists t :: t in tb.transactions && TradeDue(tb, pf, today)(t) && v.reinvestment == Some(t.id) then
        var t :| t in tb.transactions && TradeDue(tb, pf, today)(t) && v.reinvestment == Some(t.id);
        t.shares as real
      else 0.0
  }

  /** Bought less sold by the day, and what dividends due by then were reinvested for. */
  ghost function Held(tb: Tables, pf: PortfolioFund, d: Day, today: Day): real
  {
    Sum(BoughtLessSold, Trades(tb, pf, d)) + Sum(SharesFrom(tb, pf, today), Dividends(tb, pf, d))
  }

  ghost predicate OneRowPerId(tb: Tables)
  {
    forall t, u :: t in tb.transactions && u in tb.transactions && t.id == u.id ==> t == u
  }

  lemma {:induction false} LookupFinds(ts: seq<Transaction>, id: Id, t: Transaction)
    requires forall u :: u in ts && u.id == id ==> u == t
    ensures LookupShares(ts, id) == if t in ts && t.id == id then t.shares else 0.0
  {
    if ts != [] {
      assert ts == [ts[0]] + ts[1..];
      LookupFinds(ts[1..], id, t);
    }
  }

  lemma {:induction false} LookupMisses(ts: seq<Transaction>, id: Id)
    requires forall u :: u in ts ==> u.id != id
    ensures LookupShares(ts, id) == 0.0
  {
    if ts != [] {
      assert ts[0] in ts && forall u :: u in ts[1..] ==> u in ts;
      LookupMisses(ts[1..], id);
    }
  }

  /** The lookup by id in the loaded transactions. */
  lemma ReinvestedIs(tb: Tables, pf: PortfolioFund, today: Day, v: DividendRow)
    requires OneRowPerId(tb)
    ensures SharesReinvestedIn(Sort(ByDate, Trades(tb, pf, today)))(v) == SharesFrom(tb, pf, today)(v)
  {
    var own, load := Trades(tb, pf, today), Sort(ByDate, Trades(tb, pf, today));
    SortMembers(ByDate, own);
    FilterMembers(TradeDue(tb, pf, today), tb.transactions);
    if v.reinvestment.Some? {
      if exists t :: t in tb.transactions && TradeDue(tb, pf, today)(t) && v.reinvestment == Some(t.id) {
        var t :| t in tb.transactions && TradeDue(tb, pf, today)(t) && v.reinvestment == Some(t.id);
        LookupFinds(load, v.reinvestment.value, t);
      } else {
        LookupMisses(load, v.reinvestment.value);
      }
    }
  }

  lemma {:induction false} FoldedFigures(m: Metrics, ts: seq<Transaction>)
    ensures Fold(MetricsStep, m, ts).shares == m.shares + Sum(BoughtLessSold, ts)
    ensures Fold(MetricsStep, m, ts).fees == m.fees + Sum(FeePaid, ts)
    decreases |ts|
  {
    if ts != [] {
      FoldedFigures(MetricsStep(m, ts[0]), ts[1..]);
    }
  }

  /** What is read of the loaded rows on a day, in the order of the tables. */
  lemma ReadOnDay(tb: Tables, pf: PortfolioFund, d: Day, today: Day)
    requires pf in tb.portfolioFunds && d <= today
    ensures var data := Loaded(tb, pf.portfolioId, today);
            && Due(data, pf, d) == Sort(ByDate, Trades(tb, pf, d))
            && Get(data.transactionsByPf, pf.id) == Sort(ByDate, Trades(tb, pf, today))
            && TakeWhile(ExUpTo(d), Get(data.dividendsByPf, pf.id)) == Sort(ByExDate, Dividends(tb, pf, d))
            && Filter(GainUpTo(d), Filter(OfFund(pf.fundId), data.gains)) == Gains(tb, pf, d)
  {
    var lo := Oldest(tb, pf.portfolioId);
    FilterMembers(InPortfolio(pf.portfolioId), tb.portfolioFunds);
    LoadedKeys(tb, pf.portfolioId, today, pf);
    LoadedTransactions(tb.transactions, pf.id, lo, today, d);
    LoadedDividends(tb.dividends, pf.id, lo, today, d);
    LoadedGains(tb.gains, pf.portfolioId, pf.fundId, lo, today, d);
    DueRows(tb, pf, d);
    DueRows(tb, pf, today);
  }

  lemma HeldIs(tb: Tables, pf: PortfolioFund, d: Day, today: Day)
    requires pf in tb.portfolioFunds && d <= today && OneRowPerId(tb)
    ensures MetricsAt(Loaded(tb, pf.portfolioId, today), pf, d).shares == Held(tb, pf, d, today)
    ensures MetricsAt(Loaded(tb, pf.portfolioId, today), pf, d).fees == Sum(FeePaid, Trades(tb, pf, d))
  {
    var data, ds := Loaded(tb, pf.portfolioId, today), Sort(ByExDate, Dividends(tb, pf, d));
    var own, trades := Sort(ByDate, Trades(tb, pf, today)), Sort(ByDate, Trades(tb, pf, d));
    ReadOnDay(tb, pf, d, today);
    forall v | v in ds
      ensures SharesReinvestedIn(own)(v) == SharesFrom(tb, pf, today)(v)
    {
      ReinvestedIs(tb, pf, today, v);
    }
    SumSame(SharesReinvestedIn(own), SharesFrom(tb, pf, today), ds);
    SortMultiset(ByExDate, Dividends(tb, pf, d));
    SumPermutation(SharesFrom(tb, pf, today), ds, Dividends(tb, pf, d));
    FoldedFigures(Metrics(Sum(SharesReinvestedIn(own), ds), 0.0, 0.0, 0.0), trades);
    SortMultiset(ByDate, Trades(tb, pf, d));
    SumPermutation(BoughtLessSold, trades, Trades(tb, pf, d));
    SumPermutation(FeePaid, trades, Trades(tb, pf, d));
  }

  // -------------------------------------------------------------- the price

  /** The fund's price of the day: the last one on or before it, since the portfolio opened. */
  ghost predicate PriceOn(tb: Tables, pf: PortfolioFund, p: FundPrice, d: Day)
  {
    && p in tb.prices && p.fundId == pf.fundId && CountsOn(tb, pf.portfolioId, p.date, d)
    && forall q :: q in tb.prices && q.fundId == pf.fundId && q.date <= d ==> q.date <= p.date
  }

  lemma PricesRead(tb: Tables, pf: PortfolioFund, d: Day, q: FundPrice)
    ensures var prices := Sort(ByPriceDate, Filter(PriceWindow(pf.fundId, Oldest(tb, pf.portfolioId), d), tb.prices));
            && Chronological(prices)
            && (q in prices <==> q in tb.prices && q.fundId == pf.fundId && CountsOn(tb, pf.portfolioId, q.date, d))
  {
    var kept := Filter(PriceWindow(pf.fundId, Oldest(tb, pf.portfolioId), d), tb.prices);
    FilterMembers(PriceWindow(pf.fundId, Oldest(tb, pf.portfolioId), d), tb.prices);
    SortMembers(ByPriceDate, kept);
    SortSorted(ByPriceDate, kept);
    WindowCounts(tb, pf.portfolioId, q.date, d);
    assert forall i, j :: 0 <= i < j < |kept| ==> ByPriceDate(Sort(ByPriceDate, kept)[i], Sort(ByPriceDate, kept)[j]);
  }

  lemma SameDaySamePrice(prices: seq<FundPrice>, p: FundPrice, q: FundPrice)
    requires OnePricePerDay(prices) && p in prices && q in prices && p.fundId == q.fundId && p.date == q.date
    ensures p == q
  {
    var i :| 0 <= i < |prices| && prices[i] == p;
    var j :| 0 <= j < |prices| && prices[j] == q;
    assert i == j;
  }

  /** The price of the day is the one the entry's metrics are valued at. */
  lemma PriceIs(tb: Tables, pf: PortfolioFund, d: Day, today: Day, p: FundPrice)
    requires pf in tb.portfolioFunds && d <= today && OnePricePerDay(tb.prices) && PriceOn(tb, pf, p, d)
    ensures PricedAs(MetricsAt(Loaded(tb, pf.portfolioId, today), pf, d), p.price)
  {
    var data, lo := Loaded(tb, pf.portfolioId, today), Oldest(tb, pf.portfolioId);
    var prices := Sort(ByPriceDate, Filter(PriceWindow(pf.fundId, lo, d), tb.prices));
    FilterMembers(InPortfolio(pf.portfolioId), tb.portfolioFunds);
    LoadedKeys(tb, pf.portfolioId, today, pf);
    LoadedPrices(tb.prices, pf.fundId, lo, today, d);
    PricesRead(tb, pf, d, p);
    forall q | q in prices
      ensures q.date < p.date || q == p
    {
      PricesRead(tb, pf, d, q);
      if q.date == p.date {
        SameDaySamePrice(tb.prices, p, q);
      }
    }
    NewestIsLast(prices, p);
    ValuedAs(MetricsRead(data, pf, d), p.price);
  }

  function MetricsRead(data: PortfolioData, pf: PortfolioFund, d: Day): Metrics
  {
    MetricsOf(DividendShares(Get(data.dividendsByPf, pf.id), Get(data.transactionsByPf, pf.id), d), Due(data, pf, d))
  }

  lemma NoPricesRead(tb: Tables, pf: PortfolioFund, d: Day)
    requires forall p :: p in tb.prices && p.fundId == pf.fundId ==> !CountsOn(tb, pf.portfolioId, p.date, d)
    ensures Filter(PriceWindow(pf.fundId, Oldest(tb, pf.portfolioId), d), tb.prices) == []
  {
    forall q | q in tb.prices
      ensures !PriceWindow(pf.fundId, Oldest(tb, pf.portfolioId), d)(q)
    {
      WindowCounts(tb, pf.portfolioId, q.date, d);
    }
    FilterNone(PriceWindow(pf.fundId, Oldest(tb, pf.portfolioId), d), tb.prices);
  }

  lemma NoPriceIs(tb: Tables, pf: PortfolioFund, d: Day, today: Day)
    requires pf in tb.portfolioFunds && d <= today
    requires forall p :: p in tb.prices && p.fundId == pf.fundId ==> !CountsOn(tb, pf.portfolioId, p.date, d)
    ensures PricedAs(MetricsAt(Loaded(tb, pf.portfolioId, today), pf, d), 0.0)
  {
    FilterMembers(InPortfolio(pf.portfolioId), tb.portfolioFunds);
    LoadedKeys(tb, pf.portfolioId, today, pf);
    LoadedPrices(tb.prices, pf.fundId, Oldest(tb, pf.portfolioId), today, d);
    NoPricesRead(tb, pf, d);
    ValuedAs(MetricsRead(Loaded(tb, pf.portfolioId, today), pf, d), 0.0);
  }

  // -------------------------------------------------------------- the entry

  /** The cost the trades due leave, in date order, from the reinvested shares on. */
  ghost function CostLeft(tb: Tables, pf: PortfolioFund, d: Day, today: Day): real
  {
    MetricsOf(Sum(SharesFrom(tb, pf, today), Dividends(tb, pf, d)), Sort(ByDate, Trades(tb, pf, d))).cost
  }

  /** What shares are worth at a price; without a positive one, nothing. */
  function AtPrice(shares: real, price: real): real
  {
    if price > 0.0 then shares * price else 0.0
  }

  lemma ValuedAtPrice(m: FundMetrics, price: real, shares: real)
    requires PricedAs(m, price) && m.shares == shares
    ensures m.value == AtPrice(shares, price)
  {
  }

  /** An entry made of these figures, each rounded on its own. */
  predicate Rounds(
    e: FundHistoryEntry, pf: PortfolioFund, held: real, price: real, cost: real, fees: real, dividends: real,
    realized: Realized)
  {
    var value := AtPrice(held, price);
    && e.pfId == pf.id && e.fundId == pf.fundId
    && e.shares == Round(held) && e.price == Round(price) && e.value == Round(value) && e.cost == Round(cost)
    && e.unrealizedGain == Round(value - cost) && e.totalGainLoss == Round(value - cost + realized.gain)
    && e.fees == Round(fees) && e.dividends == Round(dividends)
    && e.realizedGain == Round(realized.gain) && e.saleProceeds == Round(realized.proceeds)
    && e.originalCost == Round(realized.basis)
  }

  /** The entry of a day at a price: its figures are sums over the rows that count on the day. */
  ghost predicate Says(tb: Tables, pf: PortfolioFund, d: Day, today: Day, e: FundHistoryEntry, price: real)
  {
    var trades, gains := Trades(tb, pf, d), Gains(tb, pf, d);
    Rounds(e, pf, Held(tb, pf, d, today), price, CostLeft(tb, pf, d, today), Sum(FeePaid, trades),
           Sum(TotalAmount, Dividends(tb, pf, d)),
           Realized(Sum(GainOf, gains), Sum(ProceedsOf, gains), Sum(BasisOf, gains)))
  }

  lemma CostIs(tb: Tables, pf: PortfolioFund, d: Day, today: Day)
    requires pf in tb.portfolioFunds && d <= today && OneRowPerId(tb)
    ensures MetricsAt(Loaded(tb, pf.portfolioId, today), pf, d).cost == CostLeft(tb, pf, d, today)
  {
    var data, ds := Loaded(tb, pf.portfolioId, today), Sort(ByExDate, Dividends(tb, pf, d));
    var own := Sort(ByDate, Trades(tb, pf, today));
    ReadOnDay(tb, pf, d, today);
    forall v | v in ds
      ensures SharesReinvestedIn(own)(v) == SharesFrom(tb, pf, today)(v)
    {
      ReinvestedIs(tb, pf, today, v);
    }
    SumSame(SharesReinvestedIn(own), SharesFrom(tb, pf, today), ds);
    SortMultiset(ByExDate, Dividends(tb, pf, d));
    SumPermutation(SharesFrom(tb, pf, today), ds, Dividends(tb, pf, d));
  }

  lemma RoundedAs(pf: PortfolioFund, m: FundMetrics, price: real, dividends: real, realized: Realized)
    requires m.price == price && m.value == AtPrice(m.shares, price) && m.unrealizedGain == m.value - m.cost
    ensures Rounds(Rounded(pf, m, dividends, realized), pf, m.shares, price, m.cost, m.fees, dividends, realized)
  {
  }

  lemma PaidIs(tb: Tables, pf: PortfolioFund, d: Day, today: Day)
    requires pf in tb.portfolioFunds && d <= today
    ensures var data, gains := Loaded(tb, pf.portfolioId, today), Gains(tb, pf, d);
            && DividendAmount(Get(data.dividendsByPf, pf.id), d) == Sum(TotalAmount, Dividends(tb, pf, d))
            && RealizedAt(data, pf, d) == Realized(Sum(GainOf, gains), Sum(ProceedsOf, gains), Sum(BasisOf, gains))
  {
    ReadOnDay(tb, pf, d, today);
    SortMultiset(ByExDate, Dividends(tb, pf, d));
    SumPermutation(TotalAmount, Sort(ByExDate, Dividends(tb, pf, d)), Dividends(tb, pf, d));
  }

  lemma SaysWith(
    tb: Tables, pf: PortfolioFund, d: Day, today: Day, m: FundMetrics, price: real, dividends: real,
    realized: Realized)
    requires PricedAs(m, price)
    requires m.shares == Held(tb, pf, d, today) && m.cost == CostLeft(tb, pf, d, today)
    requires m.fees == Sum(FeePaid, Trades(tb, pf, d)) && dividends == Sum(TotalAmount, Dividends(tb, pf, d))
    requires var gains := Gains(tb, pf, d);
             realized == Realized(Sum(GainOf, gains), Sum(ProceedsOf, gains), Sum(BasisOf, gains))
    ensures Says(tb, pf, d, today, Rounded(pf, m, dividends, realized), price)
  {
    ValuedAtPrice(m, price, m.shares);
    RoundedAs(pf, m, price, dividends, realized);
  }

  lemma SaysIs(tb: Tables, pf: PortfolioFund, d: Day, today: Day, price: real)
    requires pf in tb.portfolioFunds && d <= today && OneRowPerId(tb)
    requires PricedAs(MetricsAt(Loaded(tb, pf.portfolioId, today), pf, d), price)
    ensures Says(tb, pf, d, today, EntryFor(Loaded(tb, pf.portfolioId, today), pf, d), price)
  {
    var data := Loaded(tb, pf.portfolioId, today);
    HeldIs(tb, pf, d, today);
    CostIs(tb, pf, d, today);
    PaidIs(tb, pf, d, today);
    SaysWith(tb, pf, d, today, MetricsAt(data, pf, d), price,
             DividendAmount(Get(data.dividendsByPf, pf.id), d), RealizedAt(data, pf, d));
  }

  /** Something of the entry is not nil: shares, gains, dividends, proceeds, their cost or fees. */
  predicate Shows(e: FundHistoryEntry)
  {
    || e.shares != 0.0 || e.fees != 0.0 || e.dividends != 0.0
    || e.realizedGain != 0.0 || e.saleProceeds != 0.0 || e.originalCost != 0.0
  }

  /** The history has a row for a day up to today exactly when its entry is not nil; the row is the entry. */
  ghost predicate RowSays(tb: Tables, pf: PortfolioFund, d: Day, today: Day, price: real)
  {
    if d > today then Oracle(tb, pf, d, today).None?
    else exists e :: Says(tb, pf, d, today, e, price) && Oracle(tb, pf, d, today) == if Shows(e) then Some(e) else None
  }

  lemma RowIs(tb: Tables, pf: PortfolioFund, d: Day, today: Day, e: FundHistoryEntry)
    requires d <= today && e == EntryFor(Loaded(tb, pf.portfolioId, today), pf, d)
    ensures Oracle(tb, pf, d, today) == if Shows(e) then Some(e) else None
  {
  }

  /** With a price of the fund by the day, its row is valued at the last one. */
  lemma PricedDay(tb: Tables, pf: PortfolioFund, d: Day, today: Day, p: FundPrice)
    requires pf in tb.portfolioFunds && OneRowPerId(tb) && OnePricePerDay(tb.prices) && PriceOn(tb, pf, p, d)
    ensures RowSays(tb, pf, d, today, p.price)
  {
    if d <= today {
      var e := EntryFor(Loaded(tb, pf.portfolioId, today), pf, d);
      PriceIs(tb, pf, d, today, p);
      SaysIs(tb, pf, d, today, p.price);
      RowIs(tb, pf, d, today, e);
    }
  }

  /** Without one, at a price and a value of nil. */
  lemma UnpricedDay(tb: Tables, pf: PortfolioFund, d: Day, today: Day)
    requires pf in tb.portfolioFunds && OneRowPerId(tb)
    requires forall p :: p in tb.prices && p.fundId == pf.fundId ==> !CountsOn(tb, pf.portfolioId, p.date, d)
    ensures RowSays(tb, pf, d, today, 0.0)
  {
    if d <= today {
      var e := EntryFor(Loaded(tb, pf.portfolioId, today), pf, d);
      NoPriceIs(tb, pf, d, today);
      SaysIs(tb, pf, d, today, 0.0);
      RowIs(tb, pf, d, today, e);
    }
  }
}
