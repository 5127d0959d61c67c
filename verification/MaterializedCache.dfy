/**
 materialized_service.go and materialized_repository.go: the fund_history_materialized table, replaced
 from a day on for the portfolio funds that have recomputed rows. The table is keyed by its UNIQUE
 (portfolio_fund_id, date) constraint.
 */
module MaterializedCache {
  import opened Collections
  import opened Schema
  import opened FundHistory
  import opened FundHistoryService
  import opened Causality

  datatype Key = Key(pfId: Id, date: Day)

  type Cache = map<Key, FundHistoryEntry>

  function KeyOf(row: CacheRow): Key
  {
    Key(row.entry.pfId, row.date)
  }

  function Cached(cache: Cache, pfId: Id, date: Day): Option<FundHistoryEntry>
  {
    if Key(pfId, date) in cache then Some(cache[Key(pfId, date)]) else None
  }

  // ------------------------------------------------ the scope of a request

  datatype Scope = Scope(portfolioIds: seq<Id>, fundId: Option<Id>, pfId: Option<Id>)

  function PortfolioIds(pfs: seq<PortfolioFund>): (ids: seq<Id>)
    ensures |ids| == |pfs|
    ensures forall i :: 0 <= i < |pfs| ==> ids[i] == pfs[i].portfolioId
  {
    seq(|pfs|, i requires 0 <= i < |pfs| => pfs[i].portfolioId)
  }

  function PortfoliosOf(pfs: seq<PortfolioFund>): seq<Id>
  {
    FirstOccurrences(PortfolioIds(pfs))
  }

  function Resolve(tb: Tables, scope: Scope): Result<seq<Id>, Error>
  {
    if scope.portfolioIds != [] then Ok(scope.portfolioIds)
    else if scope.fundId.Some? then
      var pfs := Filter(HoldsFund(scope.fundId.value), tb.portfolioFunds);
      if pfs == [] then Err(PortfolioFundNotFound) else Ok(PortfoliosOf(pfs))
    else if scope.pfId.Some? then
      var pfs := Filter(IsPf(scope.pfId.value), tb.portfolioFunds);
      if pfs == [] then Err(PortfolioFundNotFound) else Ok([pfs[0].portfolioId])
    else Err(NoScope)
  }

  predicate Names(scope: Scope, pf: PortfolioFund)
  {
    if scope.fundId.Some? then pf.fundId == scope.fundId.value else scope.pfId == Some(pf.id)
  }

  /** The scope covers the portfolio: listed, holding the fund, or owning the portfolio fund. */
  ghost predicate InScope(tb: Tables, scope: Scope, portfolioId: Id)
  {
    if scope.portfolioIds != [] then portfolioId in scope.portfolioIds
    else
      exists pf :: pf in tb.portfolioFunds && pf.portfolioId == portfolioId && Names(scope, pf)
  }

  lemma FundScopeIs(tb: Tables, fundId: Id, portfolioId: Id)
    ensures portfolioId in PortfoliosOf(Filter(HoldsFund(fundId), tb.portfolioFunds)) <==>
            exists pf :: pf in tb.portfolioFunds && pf.portfolioId == portfolioId && pf.fundId == fundId
  {
    var pfs := Filter(HoldsFund(fundId), tb.portfolioFunds);
    FilterMembers(HoldsFund(fundId), tb.portfolioFunds);
    if portfolioId in PortfoliosOf(pfs) {
      var i :| 0 <= i < |pfs| && PortfolioIds(pfs)[i] == portfolioId;
      assert pfs[i] in pfs;
    }
    forall pf | pf in pfs && pf.portfolioId == portfolioId
      ensures portfolioId in PortfoliosOf(pfs)
    {
      var i :| 0 <= i < |pfs| && pfs[i] == pf;
      assert PortfolioIds(pfs)[i] == portfolioId;
    }
  }

  /** A scope resolves to the portfolios it covers; only a list given as such can repeat one. */
  lemma ResolvedIs(tb: Tables, scope: Scope, portfolioId: Id)
    requires Resolve(tb, scope).Ok? && DistinctPfIds(tb.portfolioFunds)
    ensures portfolioId in Resolve(tb, scope).value <==> InScope(tb, scope, portfolioId)
    ensures scope.portfolioIds == [] || Distinct(scope.portfolioIds) ==> Distinct(Resolve(tb, scope).value)
  {
    if scope.portfolioIds == [] && scope.fundId.Some? {
      FundScopeIs(tb, scope.fundId.value, portfolioId);
      FirstOccurrencesDistinct(PortfolioIds(Filter(HoldsFund(scope.fundId.value), tb.portfolioFunds)));
    } else if scope.portfolioIds == [] {
      FilterMembers(IsPf(scope.pfId.value), tb.portfolioFunds);
      var pfs := Filter(IsPf(scope.pfId.value), tb.portfolioFunds);
      assert pfs[0] in pfs;
    }
  }

  /** Only a scope that names nothing, or a fund or portfolio fund that does not exist, fails to resolve. */
  lemma ResolvesIff(tb: Tables, scope: Scope)
    ensures Resolve(tb, scope).Ok? <==> exists portfolioId :: InScope(tb, scope, portfolioId)
    ensures Resolve(tb, scope).Err? ==>
              Resolve(tb, scope) ==
              Err(if scope.fundId.None? && scope.pfId.None? then NoScope else PortfolioFundNotFound)
  {
    if scope.portfolioIds != [] {
      assert InScope(tb, scope, scope.portfolioIds[0]);
    } else if scope.fundId.Some? {
      var pfs := Filter(HoldsFund(scope.fundId.value), tb.portfolioFunds);
      FilterMembers(HoldsFund(scope.fundId.value), tb.portfolioFunds);
      if pfs != [] {
        assert pfs[0] in pfs && InScope(tb, scope, pfs[0].portfolioId);
      }
    } else if scope.pfId.Some? {
      var pfs := Filter(IsPf(scope.pfId.value), tb.portfolioFunds);
      FilterMembers(IsPf(scope.pfId.value), tb.portfolioFunds);
      if pfs != [] {
        assert pfs[0] in pfs && InScope(tb, scope, pfs[0].portfolioId);
      }
    }
  }

  // ---------------------------------------------------- delete and insert

  /** DELETE ... WHERE date >= from AND portfolio_fund_id IN (pfIds). */
  function Invalidate(cache: Cache, from: Day, pfIds: set<Id>): Cache
  {
    map k | k in cache && !(k.date >= from && k.pfId in pfIds) :: cache[k]
  }

  function InsertRows(cache: Cache, rows: seq<CacheRow>): Result<Cache, Error>
  {
    if rows == [] then Ok(cache)
    else
      var before :- InsertRows(cache, rows[..|rows| - 1]);
      var row := rows[|rows| - 1];
      if KeyOf(row) in before then Err(UniqueViolated) else Ok(before[KeyOf(row) := row.entry])
  }

  function PfIdsOf(rows: seq<CacheRow>): set<Id>
  {
    set row | row in rows :: row.entry.pfId
  }

  type History = Id -> Result<seq<CacheRow>, Error>

  /** The on-demand history of each portfolio over a range of days ending today. */
  ghost function OnFly(tb: Tables, from: Day, today: Day): History
  {
    (portfolioId: Id) => HistoryOnFly(tb, portfolioId, from, today)
  }

  /** The histories of several portfolios one after the other, up to the first failure. */
  function Histories(history: History, portfolioIds: seq<Id>): Result<seq<CacheRow>, Error>
  {
    if portfolioIds == [] then Ok([])
    else
      var n := |portfolioIds| - 1;
      var init :- Histories(history, portfolioIds[..n]);
      var rows :- history(portfolioIds[n]);
      Ok(init + rows)
  }

  ghost function Regenerated(tb: Tables, cache: Cache, from: Day, scope: Scope, today: Day): Result<Cache, Error>
  {
    var portfolioIds :- Resolve(tb, scope);
    var rows :- Histories(OnFly(tb, from, today), portfolioIds);
    InsertRows(Invalidate(cache, from, PfIdsOf(rows)), rows)
  }

  // ----------------------------------------------------------- the service

  lemma {:induction false} HistoriesFail(history: History, portfolioIds: seq<Id>, i: nat)
    requires i <= |portfolioIds| && Histories(history, portfolioIds[..i]).Err?
    ensures Histories(history, portfolioIds) == Histories(history, portfolioIds[..i])
    decreases |portfolioIds|
  {
    if i == |portfolioIds| {
      assert portfolioIds[..i] == portfolioIds;
    } else {
      var init := portfolioIds[..|portfolioIds| - 1];
      assert init[..i] == portfolioIds[..i];
      HistoriesFail(history, init, i);
    }
  }

  lemma NextHistories(
    history: History, portfolioIds: seq<Id>, i: nat, sofar: seq<CacheRow>, next: Result<seq<CacheRow>, Error>)
    requires i < |portfolioIds| && Histories(history, portfolioIds[..i]) == Ok(sofar)
    requires history(portfolioIds[i]) == next
    ensures Histories(history, portfolioIds[..i + 1]) == if next.Err? then Err(next.error) else Ok(sofar + next.value)
  {
    assert portfolioIds[..i + 1][..i] == portfolioIds[..i];
  }

  lemma {:induction false} InsertFails(cache: Cache, rows: seq<CacheRow>, i: nat)
    requires i <= |rows| && InsertRows(cache, rows[..i]).Err?
    ensures InsertRows(cache, rows) == InsertRows(cache, rows[..i])
  {
    if i == |rows| {
      assert rows[..i] == rows;
    } else {
      var init := rows[..|rows| - 1];
      assert init[..i] == rows[..i];
      InsertFails(cache, init, i);
    }
  }

  class MaterializedService {
    var cache: Cache

    constructor ()
      ensures cache == map[]
    {
      cache := map[];
    }

    method ResolveScope(tb: Tables, scope: Scope) returns (r: Result<seq<Id>, Error>)
      ensures r == Resolve(tb, scope)
    {
      if |scope.portfolioIds| != 0 {
        return Ok(scope.portfolioIds);
      }
      if scope.fundId.Some? {
        var pfs := Filter(HoldsFund(scope.fundId.value), tb.portfolioFunds);
        if |pfs| == 0 {
          return Err(PortfolioFundNotFound);
        }
        var portfolioIds: seq<Id> := [];
        var seen: set<Id> := {};
        for i := 0 to |pfs|
          invariant portfolioIds == FirstOccurrences(PortfolioIds(pfs)[..i])
          invariant seen == set id | id in portfolioIds
        {
          assert PortfolioIds(pfs)[..i + 1][..i] == PortfolioIds(pfs)[..i];
          if pfs[i].portfolioId !in seen {
            portfolioIds := portfolioIds + [pfs[i].portfolioId];
            seen := seen + {pfs[i].portfolioId};
          }
        }
        assert PortfolioIds(pfs)[..|pfs|] == PortfolioIds(pfs);
        return Ok(portfolioIds);
      }
      if scope.pfId.Some? {
        var pfs := Filter(IsPf(scope.pfId.value), tb.portfolioFunds);
        if |pfs| == 0 {
          return Err(PortfolioFundNotFound);
        }
        return Ok([pfs[0].portfolioId]);
      }
      r := Err(NoScope);
    }

    method CalculateAll(tb: Tables, portfolioIds: seq<Id>, startDate: Day, today: Day)
      returns (r: Result<seq<CacheRow>, Error>)
      requires DistinctPfIds(tb.portfolioFunds)
      ensures r == Histories(OnFly(tb, startDate, today), portfolioIds)
    {
      ghost var history := OnFly(tb, startDate, today);
      var allEntries: seq<CacheRow> := [];
      var i := 0;
      while i < |portfolioIds|
        invariant 0 <= i <= |portfolioIds|
        invariant Ok(allEntries) == Histories(history, portfolioIds[..i])
      {
        var entries := CalculateFundHistoryOnFly(tb, portfolioIds[i], startDate, today);
        NextHistories(history, portfolioIds, i, allEntries, entries);
        if entries.Err? {
          HistoriesFail(history, portfolioIds, i + 1);
          return Err(entries.error);
        }
        allEntries := allEntries + entries.value;
        i := i + 1;
      }
      assert portfolioIds[..|portfolioIds|] == portfolioIds;
      r := Ok(allEntries);
    }

    method InsertMaterializedEntries(before: Cache, rows: seq<CacheRow>) returns (r: Result<Cache, Error>)
      ensures r == InsertRows(before, rows)
    {
      var tx := before;
      var i := 0;
      while i < |rows|
        invariant 0 <= i <= |rows|
        invariant Ok(tx) == InsertRows(before, rows[..i])
      {
        assert rows[..i + 1][..i] == rows[..i];
        if KeyOf(rows[i]) in tx {
          InsertFails(before, rows, i + 1);
          return Err(UniqueViolated);
        }
        tx := tx[KeyOf(rows[i]) := rows[i].entry];
        i := i + 1;
      }
      assert rows[..|rows|] == rows;
      r := Ok(tx);
    }

    /** Recomputes first, then replaces the rows in one transaction: a failure leaves the table as it was. */
    method RegenerateMaterializedTable(tb: Tables, startDate: Day, scope: Scope, today: Day)
      returns (r: Result<(), Error>)
      requires DistinctPfIds(tb.portfolioFunds)
      modifies this
      ensures var after := Regenerated(tb, old(cache), startDate, scope, today);
              && (after.Ok? ==> r == Ok(()) && cache == after.value)
              && (after.Err? ==> r == Err(after.error) && cache == old(cache))
    {
      var portfolioIds := ResolveScope(tb, scope);
      if portfolioIds.Err? {
        return Err(portfolioIds.error);
      }
      var entries := CalculateAll(tb, portfolioIds.value, startDate, today);
      if entries.Err? {
        return Err(entries.error);
      }
      var pfIds := PfIdsOf(entries.value);
      var tx := Invalidate(cache, startDate, pfIds);
      var inserted := InsertMaterializedEntries(tx, entries.value);
      if inserted.Err? {
        return Err(inserted.error);
      }
      cache := inserted.value;
      r := Ok(());
    }
  }
}
