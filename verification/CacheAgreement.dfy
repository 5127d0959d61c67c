/**
 What a regeneration leaves in the table, against the on-demand rows: one row for every key, the earlier
 rows, and when the two agree.
 */
module CacheAgreement {
  import opened Collections
  import opened Schema
  import opened FundHistory
  import opened FundHistoryService
  import opened Causality
  import opened MaterializedCache

  // ------------------------------------------------------ recomputed rows

  /** The on-demand row of a portfolio fund in its own portfolio. */
  function Oracle(tb: Tables, pf: PortfolioFund, date: Day, today: Day): Option<FundHistoryEntry>
  {
    OracleRow(tb, pf.portfolioId, pf, date, today)
  }

  ghost predicate IsRecomputed(tb: Tables, portfolioIds: seq<Id>, from: Day, today: Day, row: CacheRow)
  {
    from <= row.date <= today &&
    exists pf :: pf in tb.portfolioFunds && pf.portfolioId in portfolioIds &&
      Oracle(tb, pf, row.date, today) == Some(row.entry)
  }

  lemma OnFlyRows(tb: Tables, portfolioId: Id, from: Day, today: Day)
    requires HistoryOnFly(tb, portfolioId, from, today).Ok?
    ensures HistoryOnFly(tb, portfolioId, from, today).value ==
            RowsBetween(Loaded(tb, portfolioId, today), from, today)
  {
    var data := Loaded(tb, portfolioId, today);
    ClampingPreservesHistory(tb, portfolioId, today, from);
    if data.funds == [] {
      NoFundsNoRows(data, from, today);
    }
  }

  lemma {:induction false} NoFundsNoRows(data: PortfolioData, from: Day, last: Day)
    requires data.funds == []
    ensures RowsBetween(data, from, last) == []
    decreases last - from + 1
  {
    if from <= last {
      NoFundsNoRows(data, from, last - 1);
    }
  }

  lemma RowRecomputed(tb: Tables, portfolioId: Id, from: Day, today: Day, r: CacheRow)
    ensures r in RowsBetween(Loaded(tb, portfolioId, today), from, today) <==>
            IsRecomputed(tb, [portfolioId], from, today, r)
  {
    HistoryRowsAreOracleRows(tb, portfolioId, from, today, r);
    FilterMembers(InPortfolio(portfolioId), tb.portfolioFunds);
  }

  /** A batch holds exactly the rows of its portfolios. */
  lemma {:induction false} RowsOfHistories(history: History, portfolioIds: seq<Id>, rows: seq<CacheRow>, r: CacheRow)
    requires Histories(history, portfolioIds) == Ok(rows)
    ensures forall id :: id in portfolioIds ==> history(id).Ok?
    ensures r in rows <==> exists id :: id in portfolioIds && r in history(id).value
    decreases |portfolioIds|
  {
    if portfolioIds != [] {
      var n := |portfolioIds| - 1;
      RowsOfHistories(history, portfolioIds[..n], Histories(history, portfolioIds[..n]).value, r);
      assert portfolioIds == portfolioIds[..n] + [portfolioIds[n]];
    }
  }

  lemma RecomputedInOne(tb: Tables, portfolioIds: seq<Id>, from: Day, today: Day, r: CacheRow)
    ensures IsRecomputed(tb, portfolioIds, from, today, r) <==>
            exists id :: id in portfolioIds && IsRecomputed(tb, [id], from, today, r)
  {
    if IsRecomputed(tb, portfolioIds, from, today, r) {
      var pf :| pf in tb.portfolioFunds && pf.portfolioId in portfolioIds &&
        Oracle(tb, pf, r.date, today) == Some(r.entry);
      assert pf.portfolioId in [pf.portfolioId];
      assert IsRecomputed(tb, [pf.portfolioId], from, today, r);
    }
  }

  lemma OnFlyRow(tb: Tables, portfolioId: Id, from: Day, today: Day, r: CacheRow)
    requires OnFly(tb, from, today)(portfolioId).Ok?
    ensures r in OnFly(tb, from, today)(portfolioId).value <==> IsRecomputed(tb, [portfolioId], from, today, r)
  {
    OnFlyRows(tb, portfolioId, from, today);
    RowRecomputed(tb, portfolioId, from, today, r);
  }

  /** The recomputed entries are exactly the on-demand rows of the funds of the listed portfolios. */
  lemma HistoriesMembers(
    tb: Tables, portfolioIds: seq<Id>, from: Day, today: Day, rows: seq<CacheRow>, r: CacheRow)
    requires Histories(OnFly(tb, from, today), portfolioIds) == Ok(rows)
    ensures r in rows <==> IsRecomputed(tb, portfolioIds, from, today, r)
  {
    var history := OnFly(tb, from, today);
    RowsOfHistories(history, portfolioIds, rows, r);
    RecomputedInOne(tb, portfolioIds, from, today, r);
    forall id | id in portfolioIds
      ensures r in history(id).value <==> IsRecomputed(tb, [id], from, today, r)
    {
      OnFlyRow(tb, id, from, today, r);
    }
  }

  // ------------------------------------------------ one row for every key

  ghost predicate DistinctKeys(rows: seq<CacheRow>)
  {
    forall i, j :: 0 <= i < j < |rows| ==> KeyOf(rows[i]) != KeyOf(rows[j])
  }

  ghost predicate KeysFree(cache: Cache, rows: seq<CacheRow>)
  {
    forall r :: r in rows ==> KeyOf(r) !in cache
  }

  lemma DistinctConcat(a: seq<CacheRow>, b: seq<CacheRow>)
    requires DistinctKeys(a) && DistinctKeys(b)
    requires forall x, y :: x in a && y in b ==> KeyOf(x) != KeyOf(y)
    ensures DistinctKeys(a + b)
  {
    forall i, j | 0 <= i < j < |a + b|
      ensures KeyOf((a + b)[i]) != KeyOf((a + b)[j])
    {
      if i < |a| <= j {
        assert a[i] in a && b[j - |a|] in b;
      }
    }
  }

  /** An accepted batch adds its rows and leaves the others alone. */
  lemma {:induction false} InsertedRows(cache: Cache, rows: seq<CacheRow>, after: Cache)
    requires InsertRows(cache, rows) == Ok(after)
    ensures forall k :: k in after <==> k in cache || exists r :: r in rows && KeyOf(r) == k
    ensures forall k :: k in cache ==> k in after && after[k] == cache[k]
    ensures forall r :: r in rows ==> KeyOf(r) in after && after[KeyOf(r)] == r.entry
  {
    if rows != [] {
      var n := |rows| - 1;
      var init, row := rows[..n], rows[n];
      InsertedRows(cache, init, InsertRows(cache, init).value);
      assert rows == init + [row];
    }
  }

  lemma DistinctLast(init: seq<CacheRow>, row: CacheRow)
    ensures DistinctKeys(init + [row]) <==> DistinctKeys(init) && forall r :: r in init ==> KeyOf(r) != KeyOf(row)
  {
    var rows := init + [row];
    if DistinctKeys(rows) {
      DistinctPrefix(init, [row]);
      assert forall i :: 0 <= i < |init| ==> rows[i] == init[i] && KeyOf(rows[i]) != KeyOf(rows[|init|]);
    }
    if DistinctKeys(init) && forall r :: r in init ==> KeyOf(r) != KeyOf(row) {
      DistinctConcat(init, [row]);
    }
  }

  /** The UNIQUE constraint lets the batch in exactly when it repeats no key and meets none. */
  lemma {:induction false} InsertSucceeds(cache: Cache, rows: seq<CacheRow>)
    ensures InsertRows(cache, rows).Ok? <==> DistinctKeys(rows) && KeysFree(cache, rows)
  {
    if rows != [] {
      var n := |rows| - 1;
      var init, row := rows[..n], rows[n];
      InsertSucceeds(cache, init);
      assert rows == init + [row];
      DistinctLast(init, row);
      if InsertRows(cache, init).Ok? {
        InsertedRows(cache, init, InsertRows(cache, init).value);
      }
    }
  }

  lemma {:induction false} RowsOnKeys(data: PortfolioData, d: Day, funds: seq<PortfolioFund>)
    ensures forall r :: r in RowsOn(data, d, funds) ==> r.date == d && r.entry.pfId in PfIds(funds)
  {
    if funds != [] {
      var init, pf := funds[..|funds| - 1], funds[|funds| - 1];
      RowsOnKeys(data, d, init);
      assert funds == init + [pf];
      assert forall id :: id in PfIds(init) ==> id in PfIds(funds);
    }
  }

  lemma {:induction false} RowsOnDistinct(data: PortfolioData, d: Day, funds: seq<PortfolioFund>)
    requires DistinctPfIds(funds)
    ensures DistinctKeys(RowsOn(data, d, funds))
  {
    if funds != [] {
      var init, pf := funds[..|funds| - 1], funds[|funds| - 1];
      RowsOnDistinct(data, d, init);
      RowsOnKeys(data, d, init);
      assert forall id :: id in PfIds(init) ==> id != pf.id;
      DistinctConcat(RowsOn(data, d, init), RowFor(data, d, pf));
    }
  }

  lemma {:induction false} RowsBetweenKeys(data: PortfolioData, from: Day, last: Day)
    requires DistinctPfIds(data.funds)
    ensures DistinctKeys(RowsBetween(data, from, last))
    ensures forall r :: r in RowsBetween(data, from, last) ==> r.date <= last && r.entry.pfId in PfIds(data.funds)
    decreases last - from + 1
  {
    if from <= last {
      RowsBetweenKeys(data, from, last - 1);
      RowsOnKeys(data, last, data.funds);
      RowsOnDistinct(data, last, data.funds);
      DistinctConcat(RowsBetween(data, from, last - 1), RowsOn(data, last, data.funds));
    }
  }

  // ------------------------------------------- batches of several portfolios

  /** No portfolio's rows repeat a key, nor meet those of another portfolio. */
  ghost predicate Apart(history: History)
  {
    && (forall id :: history(id).Ok? ==> DistinctKeys(history(id).value))
    && (forall id, other | id != other && history(id).Ok? && history(other).Ok? ::
          forall x, y :: x in history(id).value && y in history(other).value ==> KeyOf(x) != KeyOf(y))
  }

  /** No portfolio that has rows is listed twice. */
  ghost predicate NoRowsTwice(history: History, portfolioIds: seq<Id>)
  {
    forall i, j :: 0 <= i < j < |portfolioIds| && portfolioIds[i] == portfolioIds[j] ==>
      history(portfolioIds[j]) == Ok([])
  }

  lemma DistinctPrefix(a: seq<CacheRow>, b: seq<CacheRow>)
    requires DistinctKeys(a + b)
    ensures DistinctKeys(a)
  {
    assert forall i :: 0 <= i < |a| ==> (a + b)[i] == a[i];
  }

  lemma NoRowsTwiceSplits(history: History, init: seq<Id>, last: Id)
    ensures NoRowsTwice(history, init + [last]) <==>
            NoRowsTwice(history, init) && (last in init ==> history(last) == Ok([]))
  {
    var ids := init + [last];
    assert forall i :: 0 <= i < |init| ==> ids[i] == init[i];
    assert ids[|init|] == last;
    if NoRowsTwice(history, ids) && last in init {
      var i :| 0 <= i < |init| && init[i] == last;
      assert ids[i] == ids[|init|];
    }
  }

  /** One more portfolio repeats a key exactly when it was listed before and has rows. */
  lemma AppendedHistoryDistinct(history: History, init: seq<Id>, last: Id, a: seq<CacheRow>, b: seq<CacheRow>)
    requires Apart(history) && Histories(history, init) == Ok(a) && history(last) == Ok(b)
    ensures DistinctKeys(a + b) <==> DistinctKeys(a) && (last in init ==> b == [])
  {
    if last !in init {
      forall x, y | x in a && y in b
        ensures KeyOf(x) != KeyOf(y)
      {
        RowsOfHistories(history, init, a, x);
      }
      if DistinctKeys(a) { DistinctConcat(a, b); }
      if DistinctKeys(a + b) { DistinctPrefix(a, b); }
    } else if b == [] {
      assert a + b == a;
    } else {
      RowsOfHistories(history, init, a, b[0]);
      assert b[0] in b;
      var i :| 0 <= i < |a| && a[i] == b[0];
      assert (a + b)[i] == (a + b)[|a|];
    }
  }

  /** A batch repeats a key exactly when it lists a portfolio with rows twice. */
  lemma {:induction false} HistoriesDistinct(history: History, portfolioIds: seq<Id>, rows: seq<CacheRow>)
    requires Apart(history) && Histories(history, portfolioIds) == Ok(rows)
    ensures DistinctKeys(rows) <==> NoRowsTwice(history, portfolioIds)
    decreases |portfolioIds|
  {
    if portfolioIds != [] {
      var n := |portfolioIds| - 1;
      var init, last := portfolioIds[..n], portfolioIds[n];
      var a, b := Histories(history, init).value, history(last).value;
      HistoriesDistinct(history, init, a);
      assert portfolioIds == init + [last];
      NoRowsTwiceSplits(history, init, last);
      AppendedHistoryDistinct(history, init, last, a, b);
    }
  }

  lemma SamePf(tb: Tables, pf: PortfolioFund, pf': PortfolioFund)
    requires DistinctPfIds(tb.portfolioFunds)
    requires pf in tb.portfolioFunds && pf' in tb.portfolioFunds && pf.id == pf'.id
    ensures pf == pf'
  {
  }

  lemma OracleRowOfPf(tb: Tables, pf: PortfolioFund, date: Day, today: Day)
    ensures Oracle(tb, pf, date, today).Some? ==> Oracle(tb, pf, date, today).value.pfId == pf.id
  {
  }

  /** A row's portfolio fund is in the portfolio that the row was recomputed for. */
  lemma RowOfPortfolio(tb: Tables, portfolioId: Id, from: Day, today: Day, r: CacheRow) returns (pf: PortfolioFund)
    requires IsRecomputed(tb, [portfolioId], from, today, r)
    ensures pf in tb.portfolioFunds && pf.portfolioId == portfolioId && r.entry.pfId == pf.id
  {
    pf :| pf in tb.portfolioFunds && pf.portfolioId in [portfolioId] && Oracle(tb, pf, r.date, today) == Some(r.entry);
    OracleRowOfPf(tb, pf, r.date, today);
  }

  lemma OneHistoryDistinct(tb: Tables, portfolioId: Id, from: Day, today: Day)
    requires DistinctPfIds(tb.portfolioFunds) && OnFly(tb, from, today)(portfolioId).Ok?
    ensures DistinctKeys(OnFly(tb, from, today)(portfolioId).value)
  {
    OnFlyRows(tb, portfolioId, from, today);
    FilterKeepsDistinct(InPortfolio(portfolioId), tb.portfolioFunds);
    RowsBetweenKeys(Loaded(tb, portfolioId, today), from, today);
  }

  /** On-demand histories of different portfolios never share a key: a portfolio fund is in one portfolio. */
  lemma OnFlyApart(tb: Tables, from: Day, today: Day)
    requires DistinctPfIds(tb.portfolioFunds)
    ensures Apart(OnFly(tb, from, today))
  {
    var history := OnFly(tb, from, today);
    forall id | history(id).Ok?
      ensures DistinctKeys(history(id).value)
    {
      OneHistoryDistinct(tb, id, from, today);
    }
    forall id, other, x, y |
      id != other && history(id).Ok? && history(other).Ok? && x in history(id).value && y in history(other).value
      ensures KeyOf(x) != KeyOf(y)
    {
      OnFlyRow(tb, id, from, today, x);
      OnFlyRow(tb, other, from, today, y);
      var pf := RowOfPortfolio(tb, id, from, today, x);
      var pf' := RowOfPortfolio(tb, other, from, today, y);
      if pf.id == pf'.id {
        SamePf(tb, pf, pf');
      }
    }
  }

  /**
   A regeneration whose calculations succeed violates the UNIQUE constraint exactly when it lists a
   portfolio with rows twice; with distinct portfolios it never does.
   */
  lemma RegenerateSucceedsIff(tb: Tables, cache: Cache, from: Day, scope: Scope, today: Day)
    requires DistinctPfIds(tb.portfolioFunds) && Resolve(tb, scope).Ok?
    requires Histories(OnFly(tb, from, today), Resolve(tb, scope).value).Ok?
    ensures Regenerated(tb, cache, from, scope, today).Ok? <==>
            NoRowsTwice(OnFly(tb, from, today), Resolve(tb, scope).value)
  {
    var ids := Resolve(tb, scope).value;
    var rows := Histories(OnFly(tb, from, today), ids).value;
    var base := Invalidate(cache, from, PfIdsOf(rows));
    OnFlyApart(tb, from, today);
    HistoriesDistinct(OnFly(tb, from, today), ids, rows);
    InsertSucceeds(base, rows);
    forall r | r in rows
      ensures KeyOf(r) !in base
    {
      HistoriesMembers(tb, ids, from, today, rows, r);
      assert r.entry.pfId in PfIdsOf(rows);
    }
  }

  // --------------------------------------------- serialized regenerations

  /** A request as its turn comes, with the tables as they are then. */
  datatype Request = Request(tb: Tables, from: Day, scope: Scope, today: Day)

  ghost function Serve(cache: Cache, req: Request): Cache
  {
    match Regenerated(req.tb, cache, req.from, req.scope, req.today)
    case Ok(after) => after
    case Err(_) => cache
  }

  ghost function Served(cache: Cache, reqs: seq<Request>): Cache
    decreases |reqs|
  {
    if reqs == [] then cache else Served(Serve(cache, reqs[0]), reqs[1..])
  }

  lemma ServedEarlier(cache: Cache, req: Request, pfId: Id, date: Day)
    requires date < req.from
    ensures Cached(Serve(cache, req), pfId, date) == Cached(cache, pfId, date)
  {
    if Regenerated(req.tb, cache, req.from, req.scope, req.today).Ok? {
      var ids := Resolve(req.tb, req.scope).value;
      var rows := Histories(OnFly(req.tb, req.from, req.today), ids).value;
      InsertedRows(Invalidate(cache, req.from, PfIdsOf(rows)), rows, Serve(cache, req));
      forall r | r in rows
        ensures r.date >= req.from
      {
        HistoriesMembers(req.tb, ids, req.from, req.today, rows, r);
      }
    }
  }

  /** Whatever changed between them, regenerations taken in turn keep every row dated before all their starts. */
  lemma {:induction false} SerializedKeepEarlierRows(cache: Cache, reqs: seq<Request>, pfId: Id, date: Day)
    requires forall req :: req in reqs ==> date < req.from
    ensures Cached(Served(cache, reqs), pfId, date) == Cached(cache, pfId, date)
    decreases |reqs|
  {
    if reqs != [] {
      assert reqs[0] in reqs && forall req :: req in reqs[1..] ==> req in reqs;
      ServedEarlier(cache, reqs[0], pfId, date);
      SerializedKeepEarlierRows(Serve(cache, reqs[0]), reqs[1..], pfId, date);
    }
  }

  /** A regeneration of distinct portfolios fails only when a calculation does: it never repeats a key. */
  lemma DistinctPortfoliosNeverClash(tb: Tables, cache: Cache, from: Day, scope: Scope, today: Day)
    requires DistinctPfIds(tb.portfolioFunds) && Resolve(tb, scope).Ok?
    requires Distinct(Resolve(tb, scope).value)
    ensures Regenerated(tb, cache, from, scope, today).Ok? <==>
            Histories(OnFly(tb, from, today), Resolve(tb, scope).value).Ok?
  {
    if Histories(OnFly(tb, from, today), Resolve(tb, scope).value).Ok? {
      RegenerateSucceedsIff(tb, cache, from, scope, today);
    }
  }

  // ------------------------------------------------ the cache is the oracle

  /** Some day from `from` on has a row for the fund. */
  ghost predicate Recomputes(tb: Tables, pf: PortfolioFund, from: Day, today: Day)
  {
    exists d :: from <= d <= today && Oracle(tb, pf, d, today).Some?
  }

  /** The rows a portfolio fund has, by day. */
  type Shown = (PortfolioFund, Day) -> Option<FundHistoryEntry>

  ghost predicate Keyed(shown: Shown)
  {
    forall pf, d :: shown(pf, d).Some? ==> shown(pf, d).value.pfId == pf.id
  }

  ghost predicate ShowsFrom(shown: Shown, pf: PortfolioFund, from: Day)
  {
    exists d :: from <= d && shown(pf, d).Some?
  }

  /** The batch is what the funds of some portfolios show from a day on. */
  ghost predicate BatchOf(
    rows: seq<CacheRow>, pfs: seq<PortfolioFund>, portfolioIds: seq<Id>, from: Day, shown: Shown)
  {
    forall r :: r in rows <==>
      from <= r.date && exists pf :: pf in pfs && pf.portfolioId in portfolioIds && shown(pf, r.date) == Some(r.entry)
  }

  lemma RowOfFund(
    rows: seq<CacheRow>, pfs: seq<PortfolioFund>, portfolioIds: seq<Id>, from: Day, shown: Shown,
    pf: PortfolioFund, r: CacheRow)
    requires DistinctPfIds(pfs) && Keyed(shown) && BatchOf(rows, pfs, portfolioIds, from, shown)
    requires pf in pfs && r in rows && r.entry.pfId == pf.id
    ensures pf.portfolioId in portfolioIds && from <= r.date && shown(pf, r.date) == Some(r.entry)
  {
    var other :| other in pfs && other.portfolioId in portfolioIds && shown(other, r.date) == Some(r.entry);
    var i :| 0 <= i < |pfs| && pfs[i] == pf;
    var j :| 0 <= j < |pfs| && pfs[j] == other;
  }

  /** Rows are deleted exactly for the funds of the portfolios that show something from the day on. */
  lemma DeletedPfs(
    rows: seq<CacheRow>, pfs: seq<PortfolioFund>, portfolioIds: seq<Id>, from: Day, shown: Shown, pf: PortfolioFund)
    requires DistinctPfIds(pfs) && Keyed(shown) && BatchOf(rows, pfs, portfolioIds, from, shown) && pf in pfs
    ensures pf.id in PfIdsOf(rows) <==> pf.portfolioId in portfolioIds && ShowsFrom(shown, pf, from)
  {
    if pf.id in PfIdsOf(rows) {
      var r :| r in rows && r.entry.pfId == pf.id;
      RowOfFund(rows, pfs, portfolioIds, from, shown, pf, r);
    }
    if pf.portfolioId in portfolioIds && ShowsFrom(shown, pf, from) {
      var d :| from <= d && shown(pf, d).Some?;
      var r := CacheRow(d, shown(pf, d).value);
      assert r in rows;
    }
  }

  /** What replacing the batch leaves at a key. */
  lemma ReplacedRow(
    cache: Cache, after: Cache, rows: seq<CacheRow>, pfs: seq<PortfolioFund>, portfolioIds: seq<Id>, from: Day,
    shown: Shown, pf: PortfolioFund, date: Day)
    requires DistinctPfIds(pfs) && Keyed(shown) && BatchOf(rows, pfs, portfolioIds, from, shown) && pf in pfs
    requires InsertRows(Invalidate(cache, from, PfIdsOf(rows)), rows) == Ok(after)
    ensures Cached(after, pf.id, date) ==
            if date >= from && pf.portfolioId in portfolioIds && ShowsFrom(shown, pf, from) then shown(pf, date)
            else Cached(cache, pf.id, date)
  {
    InsertedRows(Invalidate(cache, from, PfIdsOf(rows)), rows, after);
    DeletedPfs(rows, pfs, portfolioIds, from, shown, pf);
    forall r | r in rows && KeyOf(r) == Key(pf.id, date)
      ensures pf.portfolioId in portfolioIds && from <= date && shown(pf, date) == Some(r.entry)
    {
      RowOfFund(rows, pfs, portfolioIds, from, shown, pf, r);
    }
    if date >= from && pf.portfolioId in portfolioIds && shown(pf, date).Some? {
      assert CacheRow(date, shown(pf, date).value) in rows;
    }
  }

  function OnDemand(tb: Tables, today: Day): Shown
  {
    (pf: PortfolioFund, date: Day) => Oracle(tb, pf, date, today)
  }

  /** The recomputed batch is what the on-demand calculation shows. */
  lemma RecomputedBatch(tb: Tables, portfolioIds: seq<Id>, from: Day, today: Day, rows: seq<CacheRow>)
    requires Histories(OnFly(tb, from, today), portfolioIds) == Ok(rows)
    ensures BatchOf(rows, tb.portfolioFunds, portfolioIds, from, OnDemand(tb, today)) && Keyed(OnDemand(tb, today))
  {
    forall r
      ensures r in rows <==>
              (from <= r.date &&
               exists pf :: pf in tb.portfolioFunds && pf.portfolioId in portfolioIds &&
                 OnDemand(tb, today)(pf, r.date) == Some(r.entry))
    {
      HistoriesMembers(tb, portfolioIds, from, today, rows, r);
    }
  }

  /**
   What a regeneration leaves at any key: the on-demand row from its start on, for the funds of its
   portfolios that have recomputed rows; everywhere else the row that was there.
   */
  lemma RegeneratedRow(
    tb: Tables, cache: Cache, from: Day, scope: Scope, today: Day, pf: PortfolioFund, date: Day)
    requires DistinctPfIds(tb.portfolioFunds) && pf in tb.portfolioFunds
    requires Regenerated(tb, cache, from, scope, today).Ok?
    ensures Cached(Regenerated(tb, cache, from, scope, today).value, pf.id, date) ==
            if date >= from && pf.portfolioId in Resolve(tb, scope).value && Recomputes(tb, pf, from, today)
            then Oracle(tb, pf, date, today)
            else Cached(cache, pf.id, date)
  {
    var ids := Resolve(tb, scope).value;
    var rows := Histories(OnFly(tb, from, today), ids).value;
    var shown := OnDemand(tb, today);
    RecomputedBatch(tb, ids, from, today, rows);
    ReplacedRow(cache, Regenerated(tb, cache, from, scope, today).value, rows, tb.portfolioFunds, ids, from,
                shown, pf, date);
    assert ShowsFrom(shown, pf, from) <==> Recomputes(tb, pf, from, today) by {
      if ShowsFrom(shown, pf, from) {
        var d :| from <= d && shown(pf, d).Some?;
        assert Oracle(tb, pf, d, today).Some?;
      }
      if Recomputes(tb, pf, from, today) {
        var d :| from <= d <= today && Oracle(tb, pf, d, today).Some?;
        assert shown(pf, d).Some?;
      }
    }
  }

  ghost predicate Agrees(tb: Tables, cache: Cache, pf: PortfolioFund, today: Day)
  {
    forall date :: Cached(cache, pf.id, date) == Oracle(tb, pf, date, today)
  }

  ghost predicate AgreesBefore(tb: Tables, cache: Cache, pf: PortfolioFund, from: Day, today: Day)
  {
    forall date :: date < from ==> Cached(cache, pf.id, date) == Oracle(tb, pf, date, today)
  }

  ghost predicate CachedFrom(cache: Cache, pf: PortfolioFund, from: Day)
  {
    exists date :: date >= from && Cached(cache, pf.id, date).Some?
  }

  /**
   With the earlier days right, a regenerated fund agrees with the on-demand calculation on every day if
   and only if it has a recomputed row or had no cached row from the start on: rows are deleted only for
   funds that are among the recomputed ones.
   */
  lemma RegenerateAgreesIff(
    tb: Tables, cache: Cache, from: Day, scope: Scope, today: Day, pf: PortfolioFund)
    requires DistinctPfIds(tb.portfolioFunds) && pf in tb.portfolioFunds
    requires Regenerated(tb, cache, from, scope, today).Ok?
    requires pf.portfolioId in Resolve(tb, scope).value
    requires AgreesBefore(tb, cache, pf, from, today)
    ensures Agrees(tb, Regenerated(tb, cache, from, scope, today).value, pf, today) <==>
            Recomputes(tb, pf, from, today) || !CachedFrom(cache, pf, from)
  {
    var after := Regenerated(tb, cache, from, scope, today).value;
    forall date
      ensures Cached(after, pf.id, date) ==
              if date >= from && Recomputes(tb, pf, from, today) then Oracle(tb, pf, date, today)
              else Cached(cache, pf.id, date)
    {
      RegeneratedRow(tb, cache, from, scope, today, pf, date);
    }
    if !Recomputes(tb, pf, from, today) {
      assert forall date :: date >= from ==> Oracle(tb, pf, date, today).None?;
      if CachedFrom(cache, pf, from) {
        var date :| date >= from && Cached(cache, pf.id, date).Some?;
        assert Cached(after, pf.id, date) != Oracle(tb, pf, date, today);
      }
    }
  }
}
