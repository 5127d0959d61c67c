/**
 New prices of a fund and the regeneration of the portfolios holding it: prices alter values but never
 which days have a row.
 */
module CachePrices {
  import opened Collections
  import opened Sorting
  import opened Schema
  import opened Rounding
  import opened Ledger
  import opened FundHistory
  import opened FundHistoryService
  import opened Causality
  import opened MaterializedCache
  import opened CacheAgreement
  import opened CacheRequests
  import opened CacheChanges
  import opened CacheCoverage
  import opened CacheRuns
  import opened Consistency
  import Backfill

  function WithPrices(tb: Tables, added: seq<FundPrice>): Tables
  {
    tb.(prices := tb.prices + added)
  }

  /** Prices of one fund from a day on. */
  ghost predicate PricesFrom(added: seq<FundPrice>, fundId: Id, r: Day)
  {
    forall p :: p in added ==> p.fundId == fundId && p.date >= r
  }

  function ForFund(from: Day, fundId: Id): Regeneration
  {
    Regeneration(from, Scope([], Some(fundId), None))
  }

  // --------------------------------------------------------- what they alter

  lemma SameApartFromPrices(data: PortfolioData, data': PortfolioData, pf: PortfolioFund, d: Day)
    requires Get(data.transactionsByPf, pf.id) == Get(data'.transactionsByPf, pf.id)
    requires Get(data.dividendsByPf, pf.id) == Get(data'.dividendsByPf, pf.id) && data.gains == data'.gains
    ensures Blank(EntryFor(data, pf, d)) <==> Blank(EntryFor(data', pf, d))
  {
  }

  lemma PricesAlterOnlyValues(tb: Tables, added: seq<FundPrice>, pf: PortfolioFund, d: Day, today: Day)
    requires pf in tb.portfolioFunds
    ensures Oracle(WithPrices(tb, added), pf, d, today).Some? <==> Oracle(tb, pf, d, today).Some?
  {
    var p := pf.portfolioId;
    SameApartFromPrices(Loaded(tb, p, today), Loaded(WithPrices(tb, added), p, today), pf, d);
  }

  lemma SamePrices(
    prices: seq<FundPrice>, added: seq<FundPrice>, fundId: Id, lo: Option<Day>, today: Day, d: Day)
    requires d <= today && forall p :: p in added ==> p.fundId != fundId || p.date > d
    ensures TakeWhile(PriceUpTo(d), Sort(ByPriceDate, Filter(PriceWindow(fundId, lo, today), prices + added))) ==
            TakeWhile(PriceUpTo(d), Sort(ByPriceDate, Filter(PriceWindow(fundId, lo, today), prices)))
  {
    LoadedPrices(prices, fundId, lo, today, d);
    LoadedPrices(prices + added, fundId, lo, today, d);
    FilterConcat(PriceWindow(fundId, lo, d), prices, added);
    FilterNone(PriceWindow(fundId, lo, d), added);
    assert Filter(PriceWindow(fundId, lo, d), prices) + [] == Filter(PriceWindow(fundId, lo, d), prices);
  }

  /** The price of a day does not depend on later prices, nor on those of other funds. */
  lemma PriceCausality(
    tb: Tables, added: seq<FundPrice>, fundId: Id, r: Day, pf: PortfolioFund, d: Day, today: Day)
    requires PricesFrom(added, fundId, r) && pf in tb.portfolioFunds && (d < r || pf.fundId != fundId)
    ensures Oracle(WithPrices(tb, added), pf, d, today) == Oracle(tb, pf, d, today)
  {
    var tb', p := WithPrices(tb, added), pf.portfolioId;
    if d <= today {
      FilterMembers(InPortfolio(p), tb.portfolioFunds);
      LoadedKeys(tb, p, today, pf);
      LoadedKeys(tb', p, today, pf);
      SamePrices(tb.prices, added, pf.fundId, Oldest(tb, p), today, d);
      var data, data' := Loaded(tb, p, today), Loaded(tb', p, today);
      assert MetricsAt(data, pf, d) == MetricsAt(data', pf, d);
      assert EntryFor(data, pf, d) == EntryFor(data', pf, d);
    }
  }

  // ----------------------------------------------------- the agreement

  /** All portfolios that hold the fund start by today. */
  ghost predicate HoldersStarted(tb: Tables, fundId: Id, today: Day)
  {
    forall pf :: pf in tb.portfolioFunds && pf.fundId == fundId ==> StartsBy(tb, pf.portfolioId, today)
  }

  lemma HolderComputes(tb: Tables, cache: Cache, added: seq<FundPrice>, pf: PortfolioFund, r: Day, today: Day)
    requires Sound(tb) && AllRight(tb, cache, today) && pf in tb.portfolioFunds
    ensures Computes(WithPrices(tb, added), pf.portfolioId, r, today) <==> StartsBy(tb, pf.portfolioId, today)
  {
    assert Right(tb, cache, pf, today);
    assert Readable(WithPrices(tb, added), pf.portfolioId, today);
  }

  lemma HolderReached(tb: Tables, fundId: Id, r: Day, p: Id)
    ensures Reaches(tb, ForFund(r, fundId), p) <==>
            exists pf :: pf in tb.portfolioFunds && pf.portfolioId == p && pf.fundId == fundId
  {
    FundScopeIs(tb, fundId, p);
    FilterMembers(HoldsFund(fundId), tb.portfolioFunds);
  }

  lemma HoldersComputable(
    tb: Tables, cache: Cache, added: seq<FundPrice>, fundId: Id, r: Day, holder: PortfolioFund, today: Day)
    requires Sound(tb) && AllRight(tb, cache, today) && holder in tb.portfolioFunds && holder.fundId == fundId
    ensures Computable(WithPrices(tb, added), ForFund(r, fundId), today) <==> HoldersStarted(tb, fundId, today)
  {
    var tb', q := WithPrices(tb, added), ForFund(r, fundId);
    HolderReached(tb', fundId, r, holder.portfolioId);
    if Computable(tb', q, today) {
      forall pf | pf in tb.portfolioFunds && pf.fundId == fundId
        ensures StartsBy(tb, pf.portfolioId, today)
      {
        HolderReached(tb', fundId, r, pf.portfolioId);
        HolderComputes(tb, cache, added, pf, r, today);
      }
    }
    if HoldersStarted(tb, fundId, today) {
      forall p | p in Resolve(tb', q.scope).value
        ensures Computes(tb', p, r, today)
      {
        HolderReached(tb', fundId, r, p);
        var pf :| pf in tb.portfolioFunds && pf.portfolioId == p && pf.fundId == fundId;
        HolderComputes(tb, cache, added, pf, r, today);
      }
    }
  }

  lemma PricedFundIff(
    tb: Tables, cache: Cache, added: seq<FundPrice>, fundId: Id, r: Day, pf: PortfolioFund, today: Day)
    requires Sound(tb) && AllRight(tb, cache, today) && PricesFrom(added, fundId, r) && pf in tb.portfolioFunds
    ensures var tb' := WithPrices(tb, added);
            Right(tb', ServeAll(tb', cache, [ForFund(r, fundId)], today), pf, today) <==>
            (pf.fundId == fundId ==> HoldersStarted(tb, fundId, today) || SameFrom(tb, tb', pf, r, today))
  {
    var tb', q := WithPrices(tb, added), ForFund(r, fundId);
    PfIdsDistinct(tb);
    assert Right(tb, cache, pf, today);
    assert Readable(tb', pf.portfolioId, today);
    assert SameBefore(tb, tb', pf, r, today) && (pf.fundId != fundId ==> SameFrom(tb, tb', pf, r, today)) by {
      forall d | d < r || pf.fundId != fundId
        ensures Oracle(tb', pf, d, today) == Oracle(tb, pf, d, today)
      {
        PriceCausality(tb, added, fundId, r, pf, d, today);
      }
    }
    ServedAgreesIff(tb, tb', cache, [q], r, today, pf);
    if pf.fundId == fundId {
      HoldersComputable(tb, cache, added, fundId, r, pf, today);
      HeldIff(tb, added, fundId, r, pf, today);
    }
  }

  /** A holder's rows are replaced or did not change, exactly when the request succeeds or nothing changed. */
  lemma HeldIff(tb: Tables, added: seq<FundPrice>, fundId: Id, r: Day, pf: PortfolioFund, today: Day)
    requires DistinctPfIds(tb.portfolioFunds) && pf in tb.portfolioFunds && pf.fundId == fundId
    ensures var tb', q := WithPrices(tb, added), ForFund(r, fundId);
            SomeRefreshes(tb', [q], pf, today) || SameFrom(tb, tb', pf, r, today) <==>
            Computable(tb', q, today) || SameFrom(tb, tb', pf, r, today)
  {
    var tb', q := WithPrices(tb, added), ForFund(r, fundId);
    HolderReached(tb', fundId, r, pf.portfolioId);
    assert q in [q];
    if Recomputes(tb', pf, r, today) {
      assert Refreshes(tb', q, pf, today) <==> Computable(tb', q, today);
    } else {
      forall d | d >= r
        ensures Oracle(tb, pf, d, today) == Oracle(tb', pf, d, today)
      {
        PricesAlterOnlyValues(tb, added, pf, d, today);
        assert Oracle(tb', pf, d, today).None?;
      }
    }
  }

  /**
   From a right table, new prices of a fund with the one regeneration they request leave a right table if
   and only if every portfolio holding the fund starts by today, or the prices alter no row: a single
   portfolio whose transactions all lie in the future keeps the rows of all the others stale.
   */
  lemma PricesAgreeIff(tb: Tables, cache: Cache, added: seq<FundPrice>, fundId: Id, r: Day, today: Day)
    requires Sound(tb) && AllRight(tb, cache, today) && PricesFrom(added, fundId, r)
    ensures var tb' := WithPrices(tb, added);
            AllRight(tb', ServeAll(tb', cache, [ForFund(r, fundId)], today), today) <==>
            HoldersStarted(tb, fundId, today) ||
            forall pf :: pf in tb.portfolioFunds && pf.fundId == fundId ==> SameFrom(tb, tb', pf, r, today)
  {
    var tb', qs := WithPrices(tb, added), [ForFund(r, fundId)];
    ServedAllOwned(tb', cache, qs, today);
    forall pf | pf in tb.portfolioFunds
      ensures Right(tb', ServeAll(tb', cache, qs, today), pf, today) <==>
              (pf.fundId == fundId ==> HoldersStarted(tb, fundId, today) || SameFrom(tb, tb', pf, r, today))
    {
      PricedFundIff(tb, cache, added, fundId, r, pf, today);
    }
  }

  // ---------------------------------------------------------- the backfill

  /** The same equivalence for a backfill that added something. */
  lemma BackfillAgreesIff(
    before: Tables, after: Tables, cache: Cache, fundId: Id, today: Day, indicators: seq<Backfill.Indicator>)
    requires Sound(before) && AllRight(before, cache, today)
    requires Backfill.Backfilled(before, after, fundId, today, indicators) && |before.prices| < |after.prices|
    ensures var added := after.prices[|before.prices|..];
            var q := ForFund(Backfill.OldestPrice(added), fundId);
            AllRight(after, ServeAll(after, cache, [q], today), today) <==>
            HoldersStarted(before, fundId, today) ||
            forall pf :: pf in before.portfolioFunds && pf.fundId == fundId ==>
              SameFrom(before, after, pf, Backfill.OldestPrice(added), today)
  {
    var added: seq<FundPrice> :| after == before.(prices := before.prices + added) &&
      Backfill.Fills(added, before.prices, fundId, Backfill.OldestOfFund(before, fundId).value, today, indicators);
    assert after.prices[|before.prices|..] == added;
    PricesAgreeIff(before, cache, added, fundId, Backfill.OldestPrice(added), today);
  }
}
