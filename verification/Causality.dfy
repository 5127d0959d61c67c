/**
 The on-demand history at a date depends on nothing dated after it, with the two exceptions the
 loader makes: reinvested shares are found by id, and the window opens at the oldest transaction.
 */
module Causality {
  import opened Collections
  import opened Sorting
  import opened Schema
  import opened Rounding
  import opened Ledger
  import opened FundHistory

  // --------------------------------------------- prefixes of ordered loads

  lemma LoadedTransactions(ts: seq<Transaction>, pfId: Id, lo: Option<Day>, today: Day, d: Day)
    requires d <= today
    ensures TakeWhile(UpTo(d), Sort(ByDate, Filter(TransactionWindow(pfId, lo, today), ts))) ==
            Sort(ByDate, Filter(TransactionWindow(pfId, lo, d), ts))
  {
    var kept := Filter(TransactionWindow(pfId, lo, today), ts);
    SortSorted(ByDate, kept);
    TakeWhileSorted(ByDate, UpTo(d), Sort(ByDate, kept));
    FilterSort(ByDate, UpTo(d), kept);
    FilterFilter(UpTo(d), TransactionWindow(pfId, lo, today), TransactionWindow(pfId, lo, d), ts);
  }

  lemma LoadedDividends(ds: seq<DividendRow>, pfId: Id, lo: Option<Day>, today: Day, d: Day)
    requires d <= today
    ensures TakeWhile(ExUpTo(d), Sort(ByExDate, Filter(DividendWindow(pfId, lo, today), ds))) ==
            Sort(ByExDate, Filter(DividendWindow(pfId, lo, d), ds))
  {
    var kept := Filter(DividendWindow(pfId, lo, today), ds);
    SortSorted(ByExDate, kept);
    TakeWhileSorted(ByExDate, ExUpTo(d), Sort(ByExDate, kept));
    FilterSort(ByExDate, ExUpTo(d), kept);
    FilterFilter(ExUpTo(d), DividendWindow(pfId, lo, today), DividendWindow(pfId, lo, d), ds);
  }

  lemma LoadedPrices(ps: seq<FundPrice>, fundId: Id, lo: Option<Day>, today: Day, d: Day)
    requires d <= today
    ensures TakeWhile(PriceUpTo(d), Sort(ByPriceDate, Filter(PriceWindow(fundId, lo, today), ps))) ==
            Sort(ByPriceDate, Filter(PriceWindow(fundId, lo, d), ps))
  {
    var kept := Filter(PriceWindow(fundId, lo, today), ps);
    SortSorted(ByPriceDate, kept);
    TakeWhileSorted(ByPriceDate, PriceUpTo(d), Sort(ByPriceDate, kept));
    FilterSort(ByPriceDate, PriceUpTo(d), kept);
    FilterFilter(PriceUpTo(d), PriceWindow(fundId, lo, today), PriceWindow(fundId, lo, d), ps);
  }

  function FundGainWindow(portfolioId: Id, fundId: Id, lo: Option<Day>, hi: Day): RealizedGain -> bool
  {
    (g: RealizedGain) => g.portfolioId == portfolioId && g.fundId == fundId && Within(lo, hi, g.date)
  }

  lemma LoadedGains(gs: seq<RealizedGain>, portfolioId: Id, fundId: Id, lo: Option<Day>, today: Day, d: Day)
    requires d <= today
    ensures Filter(GainUpTo(d), Filter(OfFund(fundId), Filter(GainWindow(portfolioId, lo, today), gs))) ==
            Filter(FundGainWindow(portfolioId, fundId, lo, d), gs)
  {
    FilterFilter(OfFund(fundId), GainWindow(portfolioId, lo, today),
                 FundGainWindow(portfolioId, fundId, lo, today), gs);
    FilterFilter(GainUpTo(d), FundGainWindow(portfolioId, fundId, lo, today),
                 FundGainWindow(portfolioId, fundId, lo, d), gs);
  }

  // ---------------------------------------------------- before the oldest

  lemma NothingDue(data: PortfolioData, pf: PortfolioFund, d: Day)
    requires Due(data, pf, d) == []
    requires TakeWhile(ExUpTo(d), Get(data.dividendsByPf, pf.id)) == []
    requires Filter(GainUpTo(d), Filter(OfFund(pf.fundId), data.gains)) == []
    ensures Blank(EntryFor(data, pf, d))
  {
    assert Round(0.0) == 0.0;
    assert MetricsAt(data, pf, d).shares == 0.0 && MetricsAt(data, pf, d).fees == 0.0;
    assert RealizedAt(data, pf, d) == Realized(0.0, 0.0, 0.0);
    assert DividendAmount(Get(data.dividendsByPf, pf.id), d) == 0.0;
  }

  lemma LoadedKeys(tb: Tables, portfolioId: Id, today: Day, pf: PortfolioFund)
    requires pf in FundsOf(tb, portfolioId)
    ensures var data := Loaded(tb, portfolioId, today);
            var lo := Oldest(tb, portfolioId);
            && Get(data.transactionsByPf, pf.id) ==
                 Sort(ByDate, Filter(TransactionWindow(pf.id, lo, today), tb.transactions))
            && Get(data.dividendsByPf, pf.id) ==
                 Sort(ByExDate, Filter(DividendWindow(pf.id, lo, today), tb.dividends))
            && Get(data.pricesByFund, pf.fundId) ==
                 Sort(ByPriceDate, Filter(PriceWindow(pf.fundId, lo, today), tb.prices))
            && data.gains == Filter(GainWindow(portfolioId, lo, today), tb.gains)
  {
  }

  ghost predicate NothingWithin(tb: Tables, portfolioId: Id, pf: PortfolioFund, lo: Option<Day>, d: Day)
  {
    && (forall t :: t in tb.transactions && t.pfId == pf.id ==> !Within(lo, d, t.date))
    && (forall v :: v in tb.dividends && v.pfId == pf.id ==> !Within(lo, d, v.exDate))
    && (forall g :: g in tb.gains && g.portfolioId == portfolioId && g.fundId == pf.fundId ==>
          !Within(lo, d, g.date))
  }

  lemma BlankEntry(tb: Tables, portfolioId: Id, today: Day, pf: PortfolioFund, d: Day)
    requires pf in FundsOf(tb, portfolioId) && d <= today
    requires NothingWithin(tb, portfolioId, pf, Oldest(tb, portfolioId), d)
    ensures Due(Loaded(tb, portfolioId, today), pf, d) == []
    ensures Blank(EntryFor(Loaded(tb, portfolioId, today), pf, d))
  {
    var lo := Oldest(tb, portfolioId);
    LoadedKeys(tb, portfolioId, today, pf);
    LoadedTransactions(tb.transactions, pf.id, lo, today, d);
    LoadedDividends(tb.dividends, pf.id, lo, today, d);
    LoadedGains(tb.gains, portfolioId, pf.fundId, lo, today, d);
    FilterNone(TransactionWindow(pf.id, lo, d), tb.transactions);
    FilterNone(DividendWindow(pf.id, lo, d), tb.dividends);
    FilterNone(FundGainWindow(portfolioId, pf.fundId, lo, d), tb.gains);
    NothingDue(Loaded(tb, portfolioId, today), pf, d);
  }

  /** Days before the oldest transaction have no entries at all. */
  lemma BlankBeforeOldest(tb: Tables, portfolioId: Id, today: Day, pf: PortfolioFund, d: Day)
    requires pf in FundsOf(tb, portfolioId) && d <= today
    requires Oldest(tb, portfolioId).Some? && d < Oldest(tb, portfolioId).value
    ensures Due(Loaded(tb, portfolioId, today), pf, d) == []
    ensures Blank(EntryFor(Loaded(tb, portfolioId, today), pf, d))
  {
    BlankEntry(tb, portfolioId, today, pf, d);
  }

  lemma {:induction false} NoRowsOn(data: PortfolioData, d: Day, funds: seq<PortfolioFund>)
    requires forall pf :: pf in funds ==> Blank(EntryFor(data, pf, d))
    ensures RowsOn(data, d, funds) == []
  {
    if funds != [] {
      assert funds[|funds| - 1] in funds;
      NoRowsOn(data, d, funds[..|funds| - 1]);
    }
  }

  lemma {:induction false} ClampedRows(tb: Tables, portfolioId: Id, today: Day, from: Day, last: Day)
    requires last <= today
    ensures var data := Loaded(tb, portfolioId, today);
            RowsBetween(data, Clamped(data.oldest, from), last) == RowsBetween(data, from, last)
    decreases last - from + 1
  {
    var data := Loaded(tb, portfolioId, today);
    if from <= last {
      ClampedRows(tb, portfolioId, today, from, last - 1);
      if last < Clamped(data.oldest, from) {
        forall pf | pf in data.funds
          ensures Blank(EntryFor(data, pf, last))
        {
          BlankBeforeOldest(tb, portfolioId, today, pf, last);
        }
        NoRowsOn(data, last, data.funds);
        assert RowsBetween(data, from, last) == RowsBetween(data, from, last - 1) + [];
      }
    }
  }

  /**
   Starting the iteration at the oldest transaction loses nothing: from any earlier start the history,
   and the failure on an unsupported transaction, are the same.
   */
  lemma ClampingPreservesHistory(tb: Tables, portfolioId: Id, today: Day, from: Day)
    ensures var data := Loaded(tb, portfolioId, today);
            && RowsBetween(data, Clamped(data.oldest, from), today) == RowsBetween(data, from, today)
            && (Unreadable(data, Clamped(data.oldest, from), today) <==> Unreadable(data, from, today))
  {
    var data := Loaded(tb, portfolioId, today);
    ClampedRows(tb, portfolioId, today, from, today);
    if from <= today < Clamped(data.oldest, from) {
      forall pf | pf in data.funds
        ensures !Unsupported(Due(data, pf, today))
      {
        BlankBeforeOldest(tb, portfolioId, today, pf, today);
      }
    }
  }

  // ------------------------------------------------------- rows by the key

  /** The row the on-demand calculation has for a portfolio fund and a day, if it has one. */
  function OracleRow(tb: Tables, portfolioId: Id, pf: PortfolioFund, date: Day, today: Day): Option<FundHistoryEntry>
  {
    if date > today then None
    else
      var entry := EntryFor(Loaded(tb, portfolioId, today), pf, date);
      if Blank(entry) then None else Some(entry)
  }

  ghost predicate SomeRow(data: PortfolioData, d: Day, funds: seq<PortfolioFund>, r: CacheRow)
  {
    exists pf :: pf in funds && r in RowFor(data, d, pf)
  }

  lemma NextSomeRow(data: PortfolioData, d: Day, init: seq<PortfolioFund>, pf: PortfolioFund, r: CacheRow)
    ensures SomeRow(data, d, init + [pf], r) <==> SomeRow(data, d, init, r) || r in RowFor(data, d, pf)
  {
    assert forall x :: x in init + [pf] <==> x in init || x == pf;
  }

  lemma NextRowOn(data: PortfolioData, d: Day, init: seq<PortfolioFund>, pf: PortfolioFund, r: CacheRow)
    requires r in RowsOn(data, d, init) <==> SomeRow(data, d, init, r)
    ensures r in RowsOn(data, d, init + [pf]) <==> SomeRow(data, d, init + [pf], r)
  {
    assert (init + [pf])[..|init|] == init;
    NextSomeRow(data, d, init, pf, r);
  }

  lemma {:induction false} RowsOnMembers(data: PortfolioData, d: Day, funds: seq<PortfolioFund>, r: CacheRow)
    ensures r in RowsOn(data, d, funds) <==> SomeRow(data, d, funds, r)
  {
    if funds != [] {
      var init, pf := funds[..|funds| - 1], funds[|funds| - 1];
      RowsOnMembers(data, d, init, r);
      NextRowOn(data, d, init, pf, r);
      assert funds == init + [pf];
    }
  }

  lemma {:induction false} RowsBetweenMembers(data: PortfolioData, from: Day, last: Day, r: CacheRow)
    ensures r in RowsBetween(data, from, last) <==>
            (from <= r.date <= last && exists pf :: pf in data.funds && r in RowFor(data, r.date, pf))
    decreases last - from + 1
  {
    if from <= last {
      RowsBetweenMembers(data, from, last - 1, r);
      RowsOnMembers(data, last, data.funds, r);
    }
  }

  lemma OracleRowIs(tb: Tables, portfolioId: Id, pf: PortfolioFund, today: Day, r: CacheRow)
    requires r.date <= today
    ensures OracleRow(tb, portfolioId, pf, r.date, today) == Some(r.entry) <==>
            r in RowFor(Loaded(tb, portfolioId, today), r.date, pf)
  {
  }

  /** The history holds exactly the rows that exist for its days and funds. */
  lemma HistoryRowsAreOracleRows(tb: Tables, portfolioId: Id, from: Day, today: Day, r: CacheRow)
    ensures r in RowsBetween(Loaded(tb, portfolioId, today), from, today) <==>
            (from <= r.date <= today &&
             exists pf :: pf in FundsOf(tb, portfolioId) &&
               OracleRow(tb, portfolioId, pf, r.date, today) == Some(r.entry))
  {
    var data := Loaded(tb, portfolioId, today);
    RowsBetweenMembers(data, from, today, r);
    if from <= r.date <= today {
      forall pf | pf in data.funds
        ensures OracleRow(tb, portfolioId, pf, r.date, today) == Some(r.entry) <==>
                r in RowFor(data, r.date, pf)
      {
        OracleRowIs(tb, portfolioId, pf, today, r);
      }
    }
  }

  // ------------------------------------------------------------- causality

  /** The tables differ in some transactions and their realized gains only. */
  ghost predicate SameBut(tb: Tables, tb': Tables, ids: seq<Id>)
  {
    && tb'.portfolios == tb.portfolios
    && tb'.portfolioFunds == tb.portfolioFunds
    && tb'.dividends == tb.dividends
    && tb'.prices == tb.prices
    && Filter(RowNotIn(ids), tb'.transactions) == Filter(RowNotIn(ids), tb.transactions)
    && Filter(GainNotIn(ids), tb'.gains) == Filter(GainNotIn(ids), tb.gains)
  }

  /** On the fund, the transactions and their gains count only after the day. */
  ghost predicate OnlyAfter(tb: Tables, portfolioId: Id, pf: PortfolioFund, ids: seq<Id>, d: Day)
  {
    && (forall t :: t in tb.transactions && t.id in ids && t.pfId == pf.id ==> t.date > d)
    && (forall g :: g in tb.gains && g.transactionId in ids && g.portfolioId == portfolioId && g.fundId == pf.fundId
          ==> g.date > d)
  }

  ghost predicate NotReinvested(tb: Tables, ids: seq<Id>)
  {
    forall v :: v in tb.dividends && v.reinvestment.Some? ==> v.reinvestment.value !in ids
  }

  function WindowWithId(pfId: Id, lo: Option<Day>, hi: Day, id: Id): Transaction -> bool
  {
    (t: Transaction) => t.id == id && t.pfId == pfId && Within(lo, hi, t.date)
  }

  lemma {:induction false} LookupFiltered(ts: seq<Transaction>, id: Id)
    ensures LookupShares(ts, id) == LookupShares(Filter(HasId(id), ts), id)
  {
    if ts != [] {
      LookupFiltered(ts[1..], id);
    }
  }

  /** A lookup by id sees the same row in both loads, whatever the dates, unless it is the changed one. */
  lemma SameLookup(
    ts: seq<Transaction>, ts': seq<Transaction>, ids: seq<Id>, other: Id, pfId: Id, lo: Option<Day>, today: Day)
    requires Filter(RowNotIn(ids), ts) == Filter(RowNotIn(ids), ts') && other !in ids
    ensures LookupShares(Sort(ByDate, Filter(TransactionWindow(pfId, lo, today), ts)), other) ==
            LookupShares(Sort(ByDate, Filter(TransactionWindow(pfId, lo, today), ts')), other)
  {
    LookupInLoad(ts, other, pfId, lo, today);
    LookupInLoad(ts', other, pfId, lo, today);
    FilterAvoids(WindowWithId(pfId, lo, today, other), RowNotIn(ids), ts, ts');
  }

  lemma LookupInLoad(ts: seq<Transaction>, other: Id, pfId: Id, lo: Option<Day>, today: Day)
    ensures LookupShares(Sort(ByDate, Filter(TransactionWindow(pfId, lo, today), ts)), other) ==
            LookupShares(Sort(ByDate, Filter(WindowWithId(pfId, lo, today, other), ts)), other)
  {
    var kept := Filter(TransactionWindow(pfId, lo, today), ts);
    LookupFiltered(Sort(ByDate, kept), other);
    FilterSort(ByDate, HasId(other), kept);
    FilterFilter(HasId(other), TransactionWindow(pfId, lo, today), WindowWithId(pfId, lo, today, other), ts);
  }

  lemma SameReinvested(
    tb: Tables, tb': Tables, ids: seq<Id>, pfId: Id, lo: Option<Day>, today: Day, ds: seq<DividendRow>)
    requires SameBut(tb, tb', ids)
    requires forall v :: v in ds && v.reinvestment.Some? ==> v.reinvestment.value !in ids
    ensures Sum(SharesReinvestedIn(Sort(ByDate, Filter(TransactionWindow(pfId, lo, today), tb.transactions))), ds) ==
            Sum(SharesReinvestedIn(Sort(ByDate, Filter(TransactionWindow(pfId, lo, today), tb'.transactions))), ds)
  {
    var a := Sort(ByDate, Filter(TransactionWindow(pfId, lo, today), tb.transactions));
    var b := Sort(ByDate, Filter(TransactionWindow(pfId, lo, today), tb'.transactions));
    forall v | v in ds
      ensures SharesReinvestedIn(a)(v) == SharesReinvestedIn(b)(v)
    {
      if v.reinvestment.Some? {
        SameLookup(tb.transactions, tb'.transactions, ids, v.reinvestment.value, pfId, lo, today);
      }
    }
    SumSame(SharesReinvestedIn(a), SharesReinvestedIn(b), ds);
  }

  lemma SameMetrics(tb: Tables, tb': Tables, portfolioId: Id, pf: PortfolioFund, d: Day, today: Day, ids: seq<Id>)
    requires SameBut(tb, tb', ids) && Oldest(tb, portfolioId) == Oldest(tb', portfolioId)
    requires pf in FundsOf(tb, portfolioId) && d <= today && NotReinvested(tb, ids)
    requires OnlyAfter(tb, portfolioId, pf, ids, d) && OnlyAfter(tb', portfolioId, pf, ids, d)
    ensures MetricsAt(Loaded(tb, portfolioId, today), pf, d) == MetricsAt(Loaded(tb', portfolioId, today), pf, d)
  {
    var lo := Oldest(tb, portfolioId);
    LoadedKeys(tb, portfolioId, today, pf);
    LoadedKeys(tb', portfolioId, today, pf);
    LoadedTransactions(tb.transactions, pf.id, lo, today, d);
    LoadedTransactions(tb'.transactions, pf.id, lo, today, d);
    FilterAvoids(TransactionWindow(pf.id, lo, d), RowNotIn(ids), tb.transactions, tb'.transactions);
    var ds := Sort(ByExDate, Filter(DividendWindow(pf.id, lo, today), tb.dividends));
    SortMembers(ByExDate, Filter(DividendWindow(pf.id, lo, today), tb.dividends));
    FilterMembers(DividendWindow(pf.id, lo, today), tb.dividends);
    SameReinvested(tb, tb', ids, pf.id, lo, today, TakeWhile(ExUpTo(d), ds));
  }

  lemma SameRealized(tb: Tables, tb': Tables, portfolioId: Id, pf: PortfolioFund, d: Day, today: Day, ids: seq<Id>)
    requires SameBut(tb, tb', ids) && Oldest(tb, portfolioId) == Oldest(tb', portfolioId)
    requires pf in FundsOf(tb, portfolioId) && d <= today
    requires OnlyAfter(tb, portfolioId, pf, ids, d) && OnlyAfter(tb', portfolioId, pf, ids, d)
    ensures RealizedAt(Loaded(tb, portfolioId, today), pf, d) == RealizedAt(Loaded(tb', portfolioId, today), pf, d)
  {
    var lo := Oldest(tb, portfolioId);
    LoadedGains(tb.gains, portfolioId, pf.fundId, lo, today, d);
    LoadedGains(tb'.gains, portfolioId, pf.fundId, lo, today, d);
    FilterAvoids(FundGainWindow(portfolioId, pf.fundId, lo, d), GainNotIn(ids), tb.gains, tb'.gains);
  }

  lemma SameEntry(tb: Tables, tb': Tables, portfolioId: Id, pf: PortfolioFund, d: Day, today: Day, ids: seq<Id>)
    requires SameBut(tb, tb', ids) && Oldest(tb, portfolioId) == Oldest(tb', portfolioId)
    requires pf in FundsOf(tb, portfolioId) && NotReinvested(tb, ids)
    requires OnlyAfter(tb, portfolioId, pf, ids, d) && OnlyAfter(tb', portfolioId, pf, ids, d)
    ensures OracleRow(tb, portfolioId, pf, d, today) == OracleRow(tb', portfolioId, pf, d, today)
  {
    if d <= today {
      SameMetrics(tb, tb', portfolioId, pf, d, today, ids);
      SameRealized(tb, tb', portfolioId, pf, d, today, ids);
      LoadedKeys(tb, portfolioId, today, pf);
      LoadedKeys(tb', portfolioId, today, pf);
    }
  }

  // --------------------------------------------- the oldest transaction

  /** The transactions, wherever they are in the tables, are dated on or after the day. */
  ghost predicate ChangedFrom(tb: Tables, ids: seq<Id>, r: Day)
  {
    && (forall t :: t in tb.transactions && t.id in ids ==> t.date >= r)
    && (forall g :: g in tb.gains && g.transactionId in ids ==> g.date >= r)
  }

  predicate NotBefore(oldest: Option<Day>, r: Day)
  {
    oldest.None? || oldest.value >= r
  }

  lemma OldestSurvives(tb: Tables, tb': Tables, portfolioId: Id, ids: seq<Id>, r: Day)
    requires SameBut(tb, tb', ids) && ChangedFrom(tb, ids, r)
    requires !NotBefore(Oldest(tb, portfolioId), r)
    ensures Oldest(tb', portfolioId).Some? && Oldest(tb', portfolioId).value <= Oldest(tb, portfolioId).value
  {
    var owned := OfAny(PfIds(FundsOf(tb, portfolioId)));
    FilterMembers(owned, tb.transactions);
    FilterMembers(owned, tb'.transactions);
    FilterMembers(RowNotIn(ids), tb.transactions);
    FilterMembers(RowNotIn(ids), tb'.transactions);
    var t :| t in Filter(owned, tb.transactions) && t.date == Oldest(tb, portfolioId).value;
    assert t in Filter(RowNotIn(ids), tb.transactions);
    assert t in Filter(owned, tb'.transactions);
  }

  /** A change dated r or later keeps the oldest transaction, unless that is itself dated r or later. */
  lemma OldestSameOrLate(tb: Tables, tb': Tables, portfolioId: Id, ids: seq<Id>, r: Day)
    requires SameBut(tb, tb', ids) && ChangedFrom(tb, ids, r) && ChangedFrom(tb', ids, r)
    ensures Oldest(tb, portfolioId) == Oldest(tb', portfolioId) ||
            (NotBefore(Oldest(tb, portfolioId), r) && NotBefore(Oldest(tb', portfolioId), r))
  {
    if !NotBefore(Oldest(tb, portfolioId), r) {
      OldestSurvives(tb, tb', portfolioId, ids, r);
      OldestSurvives(tb', tb, portfolioId, ids, r);
    } else if !NotBefore(Oldest(tb', portfolioId), r) {
      OldestSurvives(tb', tb, portfolioId, ids, r);
    }
  }

  /** Every realized gain belongs to a transaction of the fund it is booked on. */
  ghost predicate GainsBacked(tb: Tables)
  {
    forall g :: g in tb.gains ==>
      exists t, pf :: t in tb.transactions && pf in tb.portfolioFunds && t.id == g.transactionId &&
        t.date == g.date && t.pfId == pf.id && pf.portfolioId == g.portfolioId && pf.fundId == g.fundId
  }

  lemma NoTransactionsNoGains(tb: Tables, portfolioId: Id)
    requires Oldest(tb, portfolioId).None? && GainsBacked(tb)
    ensures forall t :: t in tb.transactions ==> t.pfId !in PfIds(FundsOf(tb, portfolioId))
    ensures forall g :: g in tb.gains ==> g.portfolioId != portfolioId
  {
    var owned := OfAny(PfIds(FundsOf(tb, portfolioId)));
    FilterMembers(owned, tb.transactions);
    FilterMembers(InPortfolio(portfolioId), tb.portfolioFunds);
    assert forall t :: t in tb.transactions && owned(t) ==> t in Filter(owned, tb.transactions);
  }

  /** What the dividends of a fund add up to on a day, when no transaction limits the window. */
  function PaidUpTo(tb: Tables, pf: PortfolioFund, d: Day): real
  {
    Sum(TotalAmount, Filter(DividendWindow(pf.id, None, d), tb.dividends))
  }

  lemma {:induction false} NothingFoundInNothing(ds: seq<DividendRow>)
    ensures Sum(SharesReinvestedIn([]), ds) == 0.0
  {
    if ds != [] {
      NothingFoundInNothing(ds[1..]);
    }
  }

  lemma OnlyDividendsDue(data: PortfolioData, pf: PortfolioFund, d: Day)
    requires Get(data.transactionsByPf, pf.id) == []
    requires Filter(GainUpTo(d), Filter(OfFund(pf.fundId), data.gains)) == []
    ensures Blank(EntryFor(data, pf, d)) <==>
            Round(DividendAmount(Get(data.dividendsByPf, pf.id), d)) == 0.0
  {
    NothingFoundInNothing(TakeWhile(ExUpTo(d), Get(data.dividendsByPf, pf.id)));
    assert Round(0.0) == 0.0;
    assert MetricsAt(data, pf, d).shares == 0.0 && MetricsAt(data, pf, d).fees == 0.0;
    assert RealizedAt(data, pf, d) == Realized(0.0, 0.0, 0.0);
  }

  /** A portfolio without transactions still shows its dividends, and nothing else. */
  lemma BlankWithoutTransactions(tb: Tables, portfolioId: Id, pf: PortfolioFund, d: Day, today: Day)
    requires pf in FundsOf(tb, portfolioId) && d <= today && GainsBacked(tb)
    requires Oldest(tb, portfolioId).None?
    ensures OracleRow(tb, portfolioId, pf, d, today).None? <==> Round(PaidUpTo(tb, pf, d)) == 0.0
  {
    var data := Loaded(tb, portfolioId, today);
    var due := Filter(DividendWindow(pf.id, None, d), tb.dividends);
    NoTransactionsNoGains(tb, portfolioId);
    LoadedKeys(tb, portfolioId, today, pf);
    FilterNone(TransactionWindow(pf.id, None, today), tb.transactions);
    LoadedDividends(tb.dividends, pf.id, None, today, d);
    LoadedGains(tb.gains, portfolioId, pf.fundId, None, today, d);
    FilterNone(FundGainWindow(portfolioId, pf.fundId, None, d), tb.gains);
    SortMultiset(ByExDate, due);
    SumPermutation(TotalAmount, Sort(ByExDate, due), due);
    OnlyDividendsDue(data, pf, d);
  }

  /** The portfolio has transactions both before and after the change, or neither time. */
  predicate SameEmptiness(tb: Tables, tb': Tables, portfolioId: Id)
  {
    Oldest(tb, portfolioId).None? <==> Oldest(tb', portfolioId).None?
  }

  /**
   Causality: change transactions that no dividend reinvests, dated r or later before and after.
   The on-demand history of an earlier day stays as it was, if and only if the change neither empties
   nor starts the portfolio or the fund has no dividends to show by that day.
   */
  lemma CausalityTheorem(
    tb: Tables, tb': Tables, portfolioId: Id, pf: PortfolioFund, d: Day, today: Day, ids: seq<Id>, r: Day)
    requires SameBut(tb, tb', ids) && ChangedFrom(tb, ids, r) && ChangedFrom(tb', ids, r)
    requires NotReinvested(tb, ids) && GainsBacked(tb) && GainsBacked(tb')
    requires pf in FundsOf(tb, portfolioId) && d < r && d <= today
    ensures OracleRow(tb, portfolioId, pf, d, today) == OracleRow(tb', portfolioId, pf, d, today) <==>
            SameEmptiness(tb, tb', portfolioId) || Round(PaidUpTo(tb, pf, d)) == 0.0
  {
    OldestSameOrLate(tb, tb', portfolioId, ids, r);
    if Oldest(tb, portfolioId) == Oldest(tb', portfolioId) {
      SameEntry(tb, tb', portfolioId, pf, d, today, ids);
    } else {
      if Oldest(tb, portfolioId).Some? {
        BlankBeforeOldest(tb, portfolioId, today, pf, d);
      } else {
        BlankWithoutTransactions(tb, portfolioId, pf, d, today);
      }
      if Oldest(tb', portfolioId).Some? {
        BlankBeforeOldest(tb', portfolioId, today, pf, d);
      } else {
        BlankWithoutTransactions(tb', portfolioId, pf, d, today);
      }
    }
  }

  /** A change on funds of other portfolios alters no day of this one. */
  lemma UntouchedPortfolio(
    tb: Tables, tb': Tables, portfolioId: Id, pf: PortfolioFund, d: Day, today: Day, ids: seq<Id>)
    requires SameBut(tb, tb', ids) && NotReinvested(tb, ids)
    requires pf in FundsOf(tb, portfolioId)
    requires forall t :: t in tb.transactions + tb'.transactions && t.id in ids ==>
               t.pfId !in PfIds(FundsOf(tb, portfolioId))
    requires forall g :: g in tb.gains + tb'.gains && g.transactionId in ids ==> g.portfolioId != portfolioId
    ensures OracleRow(tb, portfolioId, pf, d, today) == OracleRow(tb', portfolioId, pf, d, today)
  {
    FilterAvoids(OfAny(PfIds(FundsOf(tb, portfolioId))), RowNotIn(ids), tb.transactions, tb'.transactions);
    SameEntry(tb, tb', portfolioId, pf, d, today, ids);
  }
}
