/**
 Requests to regenerate: which portfolios they reach, when they succeed, and what serving one after
 another leaves in the table. A refused request leaves it as it was.
 */
module CacheRequests {
  import opened Collections
  import opened Sorting
  import opened Schema
  import opened Ledger
  import opened FundHistory
  import opened FundHistoryService
  import opened Causality
  import opened MaterializedCache
  import opened CacheAgreement

  // --------------------------------------------------- when it can be served

  /** Every transaction of the portfolio that is due by today has a supported type. */
  ghost predicate Readable(tb: Tables, portfolioId: Id, today: Day)
  {
    forall t :: t in tb.transactions && t.pfId in PfIds(FundsOf(tb, portfolioId)) && t.date <= today ==>
      !t.kind.Other?
  }

  ghost predicate StartsBy(tb: Tables, portfolioId: Id, today: Day)
  {
    Oldest(tb, portfolioId).Some? ==> Oldest(tb, portfolioId).value <= today
  }

  /** The portfolio exists, does not start after today, and is readable if there is a day to calculate. */
  ghost predicate Computes(tb: Tables, portfolioId: Id, from: Day, today: Day)
  {
    && portfolioId in tb.portfolios
    && StartsBy(tb, portfolioId, today)
    && (from <= today ==> Readable(tb, portfolioId, today))
  }

  lemma OldestBounds(tb: Tables, portfolioId: Id, t: Transaction)
    requires t in tb.transactions && t.pfId in PfIds(FundsOf(tb, portfolioId))
    ensures Oldest(tb, portfolioId).Some? && Oldest(tb, portfolioId).value <= t.date
  {
    FilterMembers(OfAny(PfIds(FundsOf(tb, portfolioId))), tb.transactions);
    assert t in Filter(OfAny(PfIds(FundsOf(tb, portfolioId))), tb.transactions);
  }

  /** What is due today of a fund are all its transactions up to today. */
  lemma DueToday(tb: Tables, portfolioId: Id, pf: PortfolioFund, today: Day, t: Transaction)
    requires pf in FundsOf(tb, portfolioId)
    ensures t in Due(Loaded(tb, portfolioId, today), pf, today) <==>
            t in tb.transactions && t.pfId == pf.id && t.date <= today
  {
    var lo := Oldest(tb, portfolioId);
    LoadedKeys(tb, portfolioId, today, pf);
    LoadedTransactions(tb.transactions, pf.id, lo, today, today);
    SortMembers(ByDate, Filter(TransactionWindow(pf.id, lo, today), tb.transactions));
    FilterMembers(TransactionWindow(pf.id, lo, today), tb.transactions);
    if t in tb.transactions && t.pfId == pf.id {
      OldestBounds(tb, portfolioId, t);
    }
  }

  lemma UnreadableIs(tb: Tables, portfolioId: Id, from: Day, today: Day)
    ensures Unreadable(Loaded(tb, portfolioId, today), from, today) <==>
            from <= today && !Readable(tb, portfolioId, today)
  {
    var data := Loaded(tb, portfolioId, today);
    forall pf, t | pf in data.funds
      ensures t in Due(data, pf, today) <==> t in tb.transactions && t.pfId == pf.id && t.date <= today
    {
      DueToday(tb, portfolioId, pf, today, t);
    }
  }

  lemma NoFundsNoOldest(tb: Tables, portfolioId: Id)
    requires FundsOf(tb, portfolioId) == []
    ensures Oldest(tb, portfolioId).None?
  {
    FilterNone(OfAny(PfIds(FundsOf(tb, portfolioId))), tb.transactions);
  }

  lemma HistorySucceedsIff(tb: Tables, portfolioId: Id, from: Day, today: Day)
    ensures HistoryOnFly(tb, portfolioId, from, today).Ok? <==> Computes(tb, portfolioId, from, today)
  {
    ClampingPreservesHistory(tb, portfolioId, today, from);
    UnreadableIs(tb, portfolioId, from, today);
    if FundsOf(tb, portfolioId) == [] {
      NoFundsNoOldest(tb, portfolioId);
    }
  }

  /** Why an on-demand history cannot be calculated. */
  lemma HistoryFailsWith(tb: Tables, portfolioId: Id, from: Day, today: Day)
    ensures var r := HistoryOnFly(tb, portfolioId, from, today);
            && (portfolioId !in tb.portfolios ==> r == Err(NotFound))
            && (portfolioId in tb.portfolios && !StartsBy(tb, portfolioId, today) ==> r == Err(StartAfterEnd))
            && (portfolioId in tb.portfolios && StartsBy(tb, portfolioId, today) && r.Err? ==>
                  r == Err(UnsupportedKind))
  {
    if FundsOf(tb, portfolioId) == [] {
      NoFundsNoOldest(tb, portfolioId);
    }
  }

  lemma {:induction false} HistoriesSucceedIff(history: History, portfolioIds: seq<Id>)
    ensures Histories(history, portfolioIds).Ok? <==> forall id :: id in portfolioIds ==> history(id).Ok?
    decreases |portfolioIds|
  {
    if portfolioIds != [] {
      var n := |portfolioIds| - 1;
      HistoriesSucceedIff(history, portfolioIds[..n]);
      assert portfolioIds == portfolioIds[..n] + [portfolioIds[n]];
    }
  }

  /** A regeneration from a day on, as the services request it in the background. */
  datatype Regeneration = Regeneration(from: Day, scope: Scope)

  ghost predicate Reaches(tb: Tables, q: Regeneration, portfolioId: Id)
  {
    Resolve(tb, q.scope).Ok? && portfolioId in Resolve(tb, q.scope).value
  }

  /** Some portfolio is in the scope, and all of them compute. */
  ghost predicate Computable(tb: Tables, q: Regeneration, today: Day)
  {
    Resolve(tb, q.scope).Ok? && forall id :: id in Resolve(tb, q.scope).value ==> Computes(tb, id, q.from, today)
  }

  /**
   A regeneration of a fund, a portfolio fund or distinct portfolios succeeds if and only if each of its
   portfolios exists, starts by today and has no unsupported transaction due.
   */
  lemma RegenerationSucceedsIff(tb: Tables, cache: Cache, q: Regeneration, today: Day)
    requires DistinctPfIds(tb.portfolioFunds) && Distinct(q.scope.portfolioIds)
    ensures Regenerated(tb, cache, q.from, q.scope, today).Ok? <==> Computable(tb, q, today)
  {
    if Resolve(tb, q.scope).Ok? {
      var ids := Resolve(tb, q.scope).value;
      ResolvedIs(tb, q.scope, 0);
      DistinctPortfoliosNeverClash(tb, cache, q.from, q.scope, today);
      HistoriesSucceedIff(OnFly(tb, q.from, today), ids);
      forall id | id in ids
        ensures OnFly(tb, q.from, today)(id).Ok? <==> Computes(tb, id, q.from, today)
      {
        HistorySucceedsIff(tb, id, q.from, today);
      }
    }
  }

  // --------------------------------------------------------- what it leaves

  /** Serving the request replaces the fund's rows. */
  ghost predicate Refreshes(tb: Tables, q: Regeneration, pf: PortfolioFund, today: Day)
  {
    Reaches(tb, q, pf.portfolioId) && Computable(tb, q, today) && Recomputes(tb, pf, q.from, today)
  }

  ghost function ServeOne(tb: Tables, cache: Cache, q: Regeneration, today: Day): Cache
  {
    Serve(cache, Request(tb, q.from, q.scope, today))
  }

  lemma ServedRow(tb: Tables, cache: Cache, q: Regeneration, today: Day, pf: PortfolioFund, date: Day)
    requires DistinctPfIds(tb.portfolioFunds) && Distinct(q.scope.portfolioIds) && pf in tb.portfolioFunds
    ensures Cached(ServeOne(tb, cache, q, today), pf.id, date) ==
            if date >= q.from && Refreshes(tb, q, pf, today) then Oracle(tb, pf, date, today)
            else Cached(cache, pf.id, date)
  {
    RegenerationSucceedsIff(tb, cache, q, today);
    if Computable(tb, q, today) {
      RegeneratedRow(tb, cache, q.from, q.scope, today, pf, date);
    }
  }

  /** The requests one after the other, whatever becomes of each. */
  ghost function ServeAll(tb: Tables, cache: Cache, qs: seq<Regeneration>, today: Day): Cache
  {
    if qs == [] then cache
    else ServeOne(tb, ServeAll(tb, cache, qs[..|qs| - 1], today), qs[|qs| - 1], today)
  }

  /** Requests that share their first day and list no portfolio twice. */
  ghost predicate AllFrom(qs: seq<Regeneration>, from: Day)
  {
    forall q :: q in qs ==> q.from == from && Distinct(q.scope.portfolioIds)
  }

  ghost predicate SomeRefreshes(tb: Tables, qs: seq<Regeneration>, pf: PortfolioFund, today: Day)
  {
    exists q :: q in qs && Refreshes(tb, q, pf, today)
  }

  lemma SomeRefreshesNext(tb: Tables, init: seq<Regeneration>, last: Regeneration, pf: PortfolioFund, today: Day)
    ensures SomeRefreshes(tb, init + [last], pf, today) <==>
            SomeRefreshes(tb, init, pf, today) || Refreshes(tb, last, pf, today)
  {
    assert forall q :: q in init + [last] <==> q in init || q == last;
  }

  /**
   What a change's regenerations leave at any key, in whatever order and whichever of them is refused:
   the on-demand row from their first day on if one of them replaces the fund's rows, and the row that
   was there otherwise.
   */
  lemma {:induction false} ServedAllRow(
    tb: Tables, cache: Cache, qs: seq<Regeneration>, from: Day, today: Day, pf: PortfolioFund, date: Day)
    requires DistinctPfIds(tb.portfolioFunds) && AllFrom(qs, from) && pf in tb.portfolioFunds
    ensures Cached(ServeAll(tb, cache, qs, today), pf.id, date) ==
            if date >= from && SomeRefreshes(tb, qs, pf, today) then Oracle(tb, pf, date, today)
            else Cached(cache, pf.id, date)
  {
    if qs != [] {
      var init, last := qs[..|qs| - 1], qs[|qs| - 1];
      assert qs == init + [last];
      ServedAllRow(tb, cache, init, from, today, pf, date);
      ServedRow(tb, ServeAll(tb, cache, init, today), last, today, pf, date);
      SomeRefreshesNext(tb, init, last, pf, today);
    }
  }

  ghost predicate SameBefore(tb: Tables, tb': Tables, pf: PortfolioFund, r: Day, today: Day)
  {
    forall d :: d < r ==> Oracle(tb, pf, d, today) == Oracle(tb', pf, d, today)
  }

  ghost predicate SameFrom(tb: Tables, tb': Tables, pf: PortfolioFund, r: Day, today: Day)
  {
    forall d :: d >= r ==> Oracle(tb, pf, d, today) == Oracle(tb', pf, d, today)
  }

  lemma AgreesSplit(tb: Tables, tb': Tables, after: Cache, pf: PortfolioFund, r: Day, today: Day, replaced: bool)
    requires forall d :: Cached(after, pf.id, d) ==
               if d >= r && replaced then Oracle(tb', pf, d, today) else Oracle(tb, pf, d, today)
    ensures Agrees(tb', after, pf, today) <==>
            SameBefore(tb, tb', pf, r, today) && (replaced || SameFrom(tb, tb', pf, r, today))
  {
    if Agrees(tb', after, pf, today) {
      forall d | d < r || !replaced
        ensures Oracle(tb, pf, d, today) == Oracle(tb', pf, d, today)
      {
        assert Cached(after, pf.id, d) == Oracle(tb', pf, d, today);
      }
    }
  }

  /**
   Any change of the tables with any regenerations from one day on: a fund that was right before is right
   afterwards if and only if its earlier days have not changed, and either one of the regenerations
   replaces its rows or its later days have not changed.
   */
  lemma ServedAgreesIff(
    tb: Tables, tb': Tables, cache: Cache, qs: seq<Regeneration>, r: Day, today: Day, pf: PortfolioFund)
    requires DistinctPfIds(tb'.portfolioFunds) && AllFrom(qs, r) && pf in tb'.portfolioFunds
    requires Agrees(tb, cache, pf, today)
    ensures Agrees(tb', ServeAll(tb', cache, qs, today), pf, today) <==>
            && SameBefore(tb, tb', pf, r, today)
            && (SomeRefreshes(tb', qs, pf, today) || SameFrom(tb, tb', pf, r, today))
  {
    var after, replaced := ServeAll(tb', cache, qs, today), SomeRefreshes(tb', qs, pf, today);
    forall d
      ensures Cached(after, pf.id, d) ==
              if d >= r && replaced then Oracle(tb', pf, d, today) else Oracle(tb, pf, d, today)
    {
      ServedAllRow(tb', cache, qs, r, today, pf, d);
    }
    AgreesSplit(tb, tb', after, pf, r, today, replaced);
  }

  // ---------------------------------------------------- the rows' own funds

  /** The table's foreign key: every row is of an existing portfolio fund. */
  ghost predicate Owned(tb: Tables, cache: Cache)
  {
    forall k :: k in cache ==> k.pfId in PfIds(tb.portfolioFunds)
  }

  lemma PfIdsGrow(pfs: seq<PortfolioFund>, more: seq<PortfolioFund>, id: Id)
    requires pfs <= more && id in PfIds(pfs)
    ensures id in PfIds(more)
  {
    var pf :| pf in pfs && pf.id == id;
    assert pf in more;
  }

  /** A regeneration touches rows of the portfolio funds it has read only. */
  lemma OnlyKnownRows(tb: Tables, cache: Cache, q: Regeneration, today: Day, k: Key)
    requires k.pfId !in PfIds(tb.portfolioFunds)
    ensures Cached(ServeOne(tb, cache, q, today), k.pfId, k.date) == Cached(cache, k.pfId, k.date)
  {
    if Regenerated(tb, cache, q.from, q.scope, today).Ok? {
      var ids := Resolve(tb, q.scope).value;
      var rows := Histories(OnFly(tb, q.from, today), ids).value;
      InsertedRows(Invalidate(cache, q.from, PfIdsOf(rows)), rows, ServeOne(tb, cache, q, today));
      forall r | r in rows
        ensures r.entry.pfId in PfIds(tb.portfolioFunds)
      {
        HistoriesMembers(tb, ids, q.from, today, rows, r);
      }
    }
  }

  /** The rows stay owned, also by portfolio funds that were added since the tables were read. */
  lemma ServedOwned(tb: Tables, cache: Cache, q: Regeneration, today: Day, now: Tables)
    requires Owned(now, cache) && tb.portfolioFunds <= now.portfolioFunds
    ensures Owned(now, ServeOne(tb, cache, q, today))
  {
    var after := ServeOne(tb, cache, q, today);
    forall k | k in after
      ensures k.pfId in PfIds(now.portfolioFunds)
    {
      if k.pfId in PfIds(tb.portfolioFunds) {
        PfIdsGrow(tb.portfolioFunds, now.portfolioFunds, k.pfId);
      } else {
        OnlyKnownRows(tb, cache, q, today, k);
        assert Cached(after, k.pfId, k.date).Some? && k == Key(k.pfId, k.date);
      }
    }
  }

  lemma {:induction false} ServedAllOwned(tb: Tables, cache: Cache, qs: seq<Regeneration>, today: Day)
    requires Owned(tb, cache)
    ensures Owned(tb, ServeAll(tb, cache, qs, today))
  {
    if qs != [] {
      ServedAllOwned(tb, cache, qs[..|qs| - 1], today);
      ServedOwned(tb, ServeAll(tb, cache, qs[..|qs| - 1], today), qs[|qs| - 1], today, tb);
    }
  }

  // --------------------------------------- a regeneration of one portfolio

  /** The fund keeps a row from the day on, or it had none. */
  ghost predicate RowsKept(tb: Tables, tb': Tables, pf: PortfolioFund, r: Day, today: Day)
  {
    Recomputes(tb', pf, r, today) || !Recomputes(tb, pf, r, today)
  }

  lemma RecomputesStarted(tb: Tables, pf: PortfolioFund, r: Day, today: Day)
    requires pf in tb.portfolioFunds && Recomputes(tb, pf, r, today)
    ensures StartsBy(tb, pf.portfolioId, today)
  {
    var d :| r <= d <= today && Oracle(tb, pf, d, today).Some?;
    FilterMembers(InPortfolio(pf.portfolioId), tb.portfolioFunds);
    if Oldest(tb, pf.portfolioId).Some? && d < Oldest(tb, pf.portfolioId).value {
      BlankBeforeOldest(tb, pf.portfolioId, today, pf, d);
    }
  }

  /**
   A request for one readable portfolio: it replaces the fund's rows or nothing changed for it, if and only
   if the fund keeps a row or had none. When the portfolio starts after today the request is refused, but
   then there is no row to show either.
   */
  lemma OnePortfolioIff(tb: Tables, tb': Tables, q: Regeneration, pf: PortfolioFund, today: Day)
    requires pf in tb'.portfolioFunds && Resolve(tb', q.scope) == Ok([pf.portfolioId])
    requires pf.portfolioId in tb'.portfolios && Readable(tb', pf.portfolioId, today)
    ensures Refreshes(tb', q, pf, today) || SameFrom(tb, tb', pf, q.from, today) <==>
            RowsKept(tb, tb', pf, q.from, today)
  {
    if Recomputes(tb', pf, q.from, today) {
      RecomputesStarted(tb', pf, q.from, today);
      assert Refreshes(tb', q, pf, today);
    } else {
      assert forall d :: d >= q.from ==> Oracle(tb', pf, d, today).None?;
    }
  }
}
