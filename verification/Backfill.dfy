/** fund_service.go: filling the gaps of a fund's price history from a chart of daily closes. */
module Backfill {
  import opened Collections
  import opened Sorting
  import opened Schema
  import opened FundHistory
  import opened Transactions

  /** A chart point, already truncated to its day. */
  datatype Indicator = Indicator(date: Day, close: real)

  function HasFundId(fundId: Id): FundRow -> bool
  {
    (f: FundRow) => f.id == fundId
  }

  /** The oldest transaction of any portfolio that holds the fund. */
  function OldestOfFund(tb: Tables, fundId: Id): Option<Day>
  {
    MinDate(Filter(OfAny(PfIds(Filter(HoldsFund(fundId), tb.portfolioFunds))), tb.transactions))
  }

  predicate Priced(prices: seq<FundPrice>, fundId: Id, date: Day)
  {
    exists p :: p in prices && p.fundId == fundId && p.date == date
  }

  predicate Missing(prices: seq<FundPrice>, fundId: Id, first: Day, today: Day, date: Day)
  {
    first <= date < today && !Priced(prices, fundId, date)
  }

  /** The last positive close of a day. */
  function LastClose(indicators: seq<Indicator>, date: Day): Option<real>
  {
    if indicators == [] then None
    else
      var last := indicators[|indicators| - 1];
      if last.date == date && last.close > 0.0 then Some(last.close)
      else LastClose(indicators[..|indicators| - 1], date)
  }

  /** What a backfill adds: for every missing day with a positive close its last one, once. */
  ghost predicate Fills(
    added: seq<FundPrice>, prices: seq<FundPrice>, fundId: Id, first: Day, today: Day, indicators: seq<Indicator>)
  {
    && (forall p :: p in added ==>
          && p.fundId == fundId && Missing(prices, fundId, first, today, p.date)
          && LastClose(indicators, p.date) == Some(p.price))
    && (forall d :: Missing(prices, fundId, first, today, d) && LastClose(indicators, d).Some? ==>
          Priced(added, fundId, d))
    && (forall i, j :: 0 <= i < j < |added| ==> added[i].date != added[j].date)
  }

  predicate Conflicts(prices: seq<FundPrice>, p: FundPrice)
  {
    Priced(prices, p.fundId, p.date)
  }

  ghost predicate OnePricePerDay(prices: seq<FundPrice>)
  {
    forall i, j :: 0 <= i < j < |prices| ==> !(prices[i].fundId == prices[j].fundId && prices[i].date == prices[j].date)
  }

  /** The new prices repeat no fund and day, neither among themselves nor in the table. */
  ghost predicate ClashFree(before: seq<FundPrice>, rows: seq<FundPrice>)
  {
    OnePricePerDay(rows) && forall p :: p in rows ==> !Conflicts(before, p)
  }

  /** One more row clashes with the table or with a row already inserted, or it does not. */
  lemma NextClash(before: seq<FundPrice>, rows: seq<FundPrice>, i: nat)
    requires i < |rows| && ClashFree(before, rows[..i])
    ensures Conflicts(before + rows[..i], rows[i]) ==> !ClashFree(before, rows)
    ensures !Conflicts(before + rows[..i], rows[i]) ==> ClashFree(before, rows[..i + 1])
  {
    var tx, p := before + rows[..i], rows[i];
    if Conflicts(tx, p) {
      var q :| q in tx && q.fundId == p.fundId && q.date == p.date;
      assert q in before ==> Conflicts(before, p);
      assert p in rows;
    } else {
      assert forall q :: q in before || q in rows[..i] ==> q in tx;
      assert forall k :: 0 <= k < i ==> rows[k] in rows[..i];
    }
  }

  /** Why a backfill stops before it looks at the chart. */
  function Refused(tb: Tables, fundId: Id, today: Day): Option<Error>
  {
    match First(Filter(HasFundId(fundId), tb.funds))
    case None => Some(NotFound)
    case Some(fund) =>
      if fund.symbol == "" then Some(LookupKeyMissing)
      else if Filter(HoldsFund(fundId), tb.portfolioFunds) == [] then Some(PortfolioFundNotFound)
      else match OldestOfFund(tb, fundId)
        case None => Some(NotFound)
        case Some(first) => if first > today then Some(StartAfterEnd) else None
  }

  lemma SomeDay(days: set<Day>)
    ensures days != {} ==> exists d :: d in days
  {
    if forall d :: d !in days {
      assert days == {};
    }
  }

  /** The map's entries as rows, in no particular order. */
  method RowsOfMap(byDate: map<Day, real>, fundId: Id) returns (rows: seq<FundPrice>)
    ensures forall p :: p in rows ==> p.fundId == fundId && p.date in byDate && byDate[p.date] == p.price
    ensures forall d :: d in byDate ==> FundPrice(fundId, d, byDate[d]) in rows
    ensures forall i, j :: 0 <= i < j < |rows| ==> rows[i].date != rows[j].date
  {
    rows := [];
    var left := byDate.Keys;
    while left != {}
      invariant left <= byDate.Keys
      invariant forall p :: p in rows ==>
                  p.fundId == fundId && p.date in byDate && byDate[p.date] == p.price && p.date !in left
      invariant forall d :: d in byDate && d !in left ==> FundPrice(fundId, d, byDate[d]) in rows
      invariant forall i, j :: 0 <= i < j < |rows| ==> rows[i].date != rows[j].date
      decreases |left|
    {
      SomeDay(left);
      var d :| d in left;
      ghost var was := rows;
      assert forall i :: 0 <= i < |was| ==> was[i] in was;
      rows := rows + [FundPrice(fundId, d, byDate[d])];
      left := left - {d};
    }
  }

  class FundService {
    const db: Database

    constructor (db: Database)
      ensures this.db == db
    {
      this.db := db;
    }

    method BuildMissingDatesMap(existingPrices: seq<FundPrice>, startDate: Day, endDate: Day)
      returns (missing: set<Day>)
      ensures forall d :: d in missing <==>
                startDate <= d <= endDate && !exists p :: p in existingPrices && p.date == d
    {
      var existing: set<Day> := {};
      for i := 0 to |existingPrices|
        invariant forall d :: d in existing <==> exists k :: 0 <= k < i && existingPrices[k].date == d
      {
        existing := existing + {existingPrices[i].date};
      }
      missing := {};
      var d := startDate;
      while d <= endDate
        invariant d <= endDate + 1 || d == startDate
        invariant forall e :: e in missing <==> startDate <= e < d && e !in existing
        decreases endDate + 1 - d
      {
        if d !in existing {
          missing := missing + {d};
        }
        d := d + 1;
      }
    }

    /** Later chart points of a day overwrite earlier ones; closes that are not positive are passed over. */
    method ClosesByDate(indicators: seq<Indicator>, missing: set<Day>) returns (byDate: map<Day, real>)
      ensures forall d :: d in byDate <==> d in missing && LastClose(indicators, d).Some?
      ensures forall d :: d in byDate ==> LastClose(indicators, d) == Some(byDate[d])
    {
      byDate := map[];
      for i := 0 to |indicators|
        invariant forall d :: d in byDate <==> d in missing && LastClose(indicators[..i], d).Some?
        invariant forall d :: d in byDate ==> LastClose(indicators[..i], d) == Some(byDate[d])
      {
        assert indicators[..i + 1][..i] == indicators[..i];
        var v := indicators[i];
        if v.date in missing && v.close > 0.0 {
          byDate := byDate[v.date := v.close];
        }
      }
      assert indicators[..|indicators|] == indicators;
    }

    /** INSERT into a table with UNIQUE (fund_id, date): goes through exactly when no two prices clash. */
    method InsertFundPrices(before: seq<FundPrice>, rows: seq<FundPrice>) returns (r: Result<seq<FundPrice>, Error>)
      ensures r == if ClashFree(before, rows) then Ok(before + rows) else Err(UniqueViolated)
    {
      var tx := before;
      for i := 0 to |rows|
        invariant tx == before + rows[..i] && ClashFree(before, rows[..i])
      {
        NextClash(before, rows, i);
        if Conflicts(tx, rows[i]) {
          return Err(UniqueViolated);
        }
        assert before + rows[..i] + [rows[i]] == before + rows[..i + 1];
        tx := tx + [rows[i]];
      }
      assert rows[..|rows|] == rows;
      r := Ok(tx);
    }

    /** The days without a price from the oldest transaction to yesterday. */
    method FindMissingDates(prices: seq<FundPrice>, fundId: Id, first: Day, today: Day) returns (missing: set<Day>)
      requires first <= today
      ensures forall d :: d in missing <==> Missing(prices, fundId, first, today, d)
    {
      var window := PriceWindow(fundId, Some(first), today);
      var existing := Sort(ByPriceDate, Filter(window, prices));
      SortMembers(ByPriceDate, Filter(window, prices));
      FilterMembers(window, prices);
      missing := BuildMissingDatesMap(existing, first, today - 1);
      MissingIs(prices, fundId, first, today, existing, missing);
    }

    method FindMissingPrices(
      ghost prices: seq<FundPrice>, fundId: Id, ghost first: Day, indicators: seq<Indicator>, ghost today: Day,
      missing: set<Day>)
      returns (rows: seq<FundPrice>)
      requires forall d :: d in missing <==> Missing(prices, fundId, first, today, d)
      ensures Fills(rows, prices, fundId, first, today, indicators)
    {
      var byDate := ClosesByDate(indicators, missing);
      rows := RowsOfMap(byDate, fundId);
      forall d | Missing(prices, fundId, first, today, d) && LastClose(indicators, d).Some?
        ensures Priced(rows, fundId, d)
      {
        assert FundPrice(fundId, d, byDate[d]) in rows;
      }
    }

    /**
     Fills the gaps between the fund's oldest transaction and yesterday; never a constraint violation. The
     chart is fetched only when a day is missing, and may fail. Says from which day to regenerate.
     */
    method UpdateHistoricalFundPrice(fundId: Id, chart: Result<seq<Indicator>, Error>, today: Day)
      returns (r: Result<nat, Error>, regenFrom: Option<Day>)
      modifies db
      ensures var refused := Refused(old(db.tables), fundId, today);
              refused.Some? ==> r == Err(refused.value) && regenFrom.None? && db.tables == old(db.tables)
      ensures Refused(old(db.tables), fundId, today).None? && chart.Err? ==>
                && regenFrom.None? && db.tables == old(db.tables)
                && r == if NothingMissing(old(db.tables), fundId, today) then Ok(0) else Err(chart.error)
      ensures Refused(old(db.tables), fundId, today).None? && chart.Ok? ==>
                && Backfilled(old(db.tables), db.tables, fundId, today, chart.value)
                && old(db.tables).prices <= db.tables.prices
                && var added := db.tables.prices[|old(db.tables).prices|..];
                   && r == Ok(|added|)
                   && regenFrom == if added == [] then None else Some(OldestPrice(added))
    {
      var tables := db.tables;
      regenFrom := None;
      var fund := First(Filter(HasFundId(fundId), tables.funds));
      if fund.None? {
        return Err(NotFound), None;
      }
      if fund.value.symbol == "" {
        return Err(LookupKeyMissing), None;
      }
      var portfolioFunds := Filter(HoldsFund(fundId), tables.portfolioFunds);
      if |portfolioFunds| == 0 {
        return Err(PortfolioFundNotFound), None;
      }
      var oldest := OldestOfFund(tables, fundId);
      if oldest.None? {
        return Err(NotFound), None;
      }
      if oldest.value > today {
        return Err(StartAfterEnd), None;
      }
      var missing := FindMissingDates(tables.prices, fundId, oldest.value, today);
      if missing == {} {
        NothingAdded(tables, fundId, today, if chart.Ok? then chart.value else []);
        return Ok(0), None;
      }
      SomeDay(missing);
      if chart.Err? {
        return Err(chart.error), None;
      }
      var rows := FindMissingPrices(tables.prices, fundId, oldest.value, chart.value, today, missing);
      if |rows| == 0 {
        assert tables.prices + rows == tables.prices;
        return Ok(0), None;
      }
      FillsClashFree(rows, tables.prices, fundId, oldest.value, today, chart.value);
      var inserted := InsertFundPrices(tables.prices, rows);
      db.tables := tables.(prices := inserted.value);
      assert db.tables.prices[|tables.prices|..] == rows;
      r, regenFrom := Ok(|rows|), Some(OldestPrice(rows));
      assert db.tables == tables.(prices := tables.prices + rows);
    }
  }

  ghost predicate NothingMissing(tb: Tables, fundId: Id, today: Day)
  {
    OldestOfFund(tb, fundId).Some? &&
    forall d :: !Missing(tb.prices, fundId, OldestOfFund(tb, fundId).value, today, d)
  }

  lemma NothingAdded(tb: Tables, fundId: Id, today: Day, indicators: seq<Indicator>)
    requires NothingMissing(tb, fundId, today)
    ensures Backfilled(tb, tb, fundId, today, indicators)
  {
    assert tb.prices + [] == tb.prices;
    assert tb == tb.(prices := tb.prices + []);
  }

  lemma FillsClashFree(
    rows: seq<FundPrice>, prices: seq<FundPrice>, fundId: Id, first: Day, today: Day, indicators: seq<Indicator>)
    requires Fills(rows, prices, fundId, first, today, indicators)
    ensures ClashFree(prices, rows)
  {
  }

  /** The oldest of some prices. */
  function OldestPrice(prices: seq<FundPrice>): (d: Day)
    requires prices != []
    ensures exists p :: p in prices && p.date == d
    ensures forall p :: p in prices ==> d <= p.date
  {
    var init, last := prices[..|prices| - 1], prices[|prices| - 1];
    assert prices == init + [last];
    if init == [] then last.date
    else
      var d := OldestPrice(init);
      if last.date < d then last.date else d
  }

  lemma MissingIs(
    prices: seq<FundPrice>, fundId: Id, first: Day, today: Day, existing: seq<FundPrice>, missing: set<Day>)
    requires forall p :: p in existing <==> p in prices && PriceWindow(fundId, Some(first), today)(p)
    requires forall d :: d in missing <==> first <= d <= today - 1 && !exists p :: p in existing && p.date == d
    ensures forall d :: d in missing <==> Missing(prices, fundId, first, today, d)
  {
    forall d
      ensures d in missing <==> Missing(prices, fundId, first, today, d)
    {
      if first <= d < today && Priced(prices, fundId, d) {
        var p :| p in prices && p.fundId == fundId && p.date == d;
        assert p in existing;
      }
    }
  }

  // ------------------------------------------------------------ the theorems

  ghost predicate Backfilled(before: Tables, after: Tables, fundId: Id, today: Day, indicators: seq<Indicator>)
  {
    OldestOfFund(before, fundId).Some? &&
    exists added: seq<FundPrice> :: after == before.(prices := before.prices + added) &&
      Fills(added, before.prices, fundId, OldestOfFund(before, fundId).value, today, indicators)
  }

  lemma NothingLeft(
    prices: seq<FundPrice>, added: seq<FundPrice>, fundId: Id, first: Day, today: Day,
    indicators: seq<Indicator>, date: Day)
    requires Fills(added, prices, fundId, first, today, indicators) && LastClose(indicators, date).Some?
    ensures !Missing(prices + added, fundId, first, today, date)
  {
    if Missing(prices, fundId, first, today, date) {
      StillPriced(prices, added, fundId, date);
    } else {
      PricedBefore(prices, added, fundId, date);
    }
  }

  lemma FirstMember<T>(xs: seq<T>)
    ensures xs != [] ==> xs[0] in xs
  {
  }

  /** With the chart and the day fixed, a second backfill inserts nothing. */
  lemma BackfillIsIdempotent(
    before: Tables, after: Tables, again: Tables, fundId: Id, today: Day, indicators: seq<Indicator>)
    requires Backfilled(before, after, fundId, today, indicators)
    requires Backfilled(after, again, fundId, today, indicators)
    ensures again == after
  {
    var first := OldestOfFund(before, fundId).value;
    var added: seq<FundPrice> :| after == before.(prices := before.prices + added) &&
      Fills(added, before.prices, fundId, first, today, indicators);
    forall d | LastClose(indicators, d).Some?
      ensures !Missing(after.prices, fundId, first, today, d)
    {
      NothingLeft(before.prices, added, fundId, first, today, indicators, d);
    }
    var more: seq<FundPrice> :| again == after.(prices := after.prices + more) &&
      Fills(more, after.prices, fundId, first, today, indicators);
    FirstMember(more);
    assert after.prices + [] == after.prices;
  }

  lemma StillPriced(prices: seq<FundPrice>, added: seq<FundPrice>, fundId: Id, date: Day)
    ensures Priced(added, fundId, date) ==> Priced(prices + added, fundId, date)
  {
    if Priced(added, fundId, date) {
      var p :| p in added && p.fundId == fundId && p.date == date;
      assert p in prices + added;
    }
  }

  lemma PricedBefore(prices: seq<FundPrice>, added: seq<FundPrice>, fundId: Id, date: Day)
    ensures Priced(prices, fundId, date) ==> Priced(prices + added, fundId, date)
  {
    if Priced(prices, fundId, date) {
      var p :| p in prices && p.fundId == fundId && p.date == date;
      assert p in prices + added;
    }
  }

  lemma AddedStayUnique(
    prices: seq<FundPrice>, added: seq<FundPrice>, fundId: Id, first: Day, today: Day, indicators: seq<Indicator>)
    requires Fills(added, prices, fundId, first, today, indicators) && OnePricePerDay(prices)
    ensures OnePricePerDay(prices + added)
  {
    var after, n := prices + added, |prices|;
    forall i, j | 0 <= i < j < |after|
      ensures !(after[i].fundId == after[j].fundId && after[i].date == after[j].date)
    {
      if i < n <= j {
        assert added[j - n] in added && prices[i] in prices;
        assert !Priced(prices, fundId, added[j - n].date);
      }
    }
  }

  /** Prices stay unique per fund and day, and the old ones stay as they were. */
  lemma BackfillKeepsPricesUnique(before: Tables, after: Tables, fundId: Id, today: Day, indicators: seq<Indicator>)
    requires Backfilled(before, after, fundId, today, indicators) && OnePricePerDay(before.prices)
    ensures OnePricePerDay(after.prices) && before.prices <= after.prices
  {
    var first := OldestOfFund(before, fundId).value;
    var added: seq<FundPrice> :| after == before.(prices := before.prices + added) &&
      Fills(added, before.prices, fundId, first, today, indicators);
    AddedStayUnique(before.prices, added, fundId, first, today, indicators);
  }

  // ----------------------------------------------- in terms of the tables

  /** The chart's last positive close of the day. */
  ghost predicate ClosesAt(indicators: seq<Indicator>, date: Day, price: real)
  {
    exists i :: 0 <= i < |indicators| && indicators[i].date == date && indicators[i].close == price && price > 0.0 &&
      forall j :: i < j < |indicators| && indicators[j].date == date ==> indicators[j].close <= 0.0
  }

  lemma NextClose(init: seq<Indicator>, last: Indicator, date: Day, price: real)
    ensures ClosesAt(init + [last], date, price) <==>
            if last.date == date && last.close > 0.0 then last.close == price else ClosesAt(init, date, price)
  {
    var all := init + [last];
    if last.date == date && last.close > 0.0 {
      assert all[|init|] == last;
    } else {
      if ClosesAt(init, date, price) {
        var i :| 0 <= i < |init| && init[i].date == date && init[i].close == price && price > 0.0 &&
          forall j :: i < j < |init| && init[j].date == date ==> init[j].close <= 0.0;
        assert all[i] == init[i];
      }
      if ClosesAt(all, date, price) {
        var i :| 0 <= i < |all| && all[i].date == date && all[i].close == price && price > 0.0 &&
          forall j :: i < j < |all| && all[j].date == date ==> all[j].close <= 0.0;
        assert i < |init| && init[i] == all[i];
        assert forall j :: 0 <= j < |init| ==> init[j] == all[j];
      }
    }
  }

  lemma {:induction false} LastCloseIs(indicators: seq<Indicator>, date: Day, price: real)
    ensures LastClose(indicators, date) == Some(price) <==> ClosesAt(indicators, date, price)
  {
    if indicators != [] {
      var init, last := indicators[..|indicators| - 1], indicators[|indicators| - 1];
      assert indicators == init + [last];
      LastCloseIs(init, date, price);
      NextClose(init, last, date, price);
    }
  }

  /** The transaction is on a portfolio fund that holds the fund. */
  ghost predicate TradesFund(tb: Tables, fundId: Id, t: Transaction)
  {
    exists pf :: pf in tb.portfolioFunds && pf.fundId == fundId && pf.id == t.pfId
  }

  /** The day of the fund's first transaction, in whatever portfolio. */
  ghost predicate FirstTrade(tb: Tables, fundId: Id, first: Day)
  {
    && (exists t :: t in tb.transactions && TradesFund(tb, fundId, t) && t.date == first)
    && (forall t :: t in tb.transactions && TradesFund(tb, fundId, t) ==> first <= t.date)
  }

  lemma TradeRead(tb: Tables, fundId: Id, t: Transaction)
    ensures OfAny(PfIds(Filter(HoldsFund(fundId), tb.portfolioFunds)))(t) <==> TradesFund(tb, fundId, t)
  {
    FilterMembers(HoldsFund(fundId), tb.portfolioFunds);
  }

  lemma TradesRead(tb: Tables, fundId: Id, ts: seq<Transaction>)
    requires ts == Filter(OfAny(PfIds(Filter(HoldsFund(fundId), tb.portfolioFunds))), tb.transactions)
    ensures forall t :: t in ts <==> t in tb.transactions && TradesFund(tb, fundId, t)
  {
    FilterMembers(OfAny(PfIds(Filter(HoldsFund(fundId), tb.portfolioFunds))), tb.transactions);
    forall t | t in tb.transactions
      ensures t in ts <==> TradesFund(tb, fundId, t)
    {
      TradeRead(tb, fundId, t);
    }
  }

  lemma MinDateIs(ts: seq<Transaction>, first: Day)
    ensures MinDate(ts) == Some(first) <==>
            (exists t :: t in ts && t.date == first) && (forall t :: t in ts ==> first <= t.date)
  {
  }

  lemma OldestOfFundIs(tb: Tables, fundId: Id, first: Day)
    ensures OldestOfFund(tb, fundId) == Some(first) <==> FirstTrade(tb, fundId, first)
  {
    var ts := Filter(OfAny(PfIds(Filter(HoldsFund(fundId), tb.portfolioFunds))), tb.transactions);
    TradesRead(tb, fundId, ts);
    MinDateIs(ts, first);
  }

  lemma NeverTraded(tb: Tables, fundId: Id)
    ensures OldestOfFund(tb, fundId).None? <==> forall t :: t in tb.transactions ==> !TradesFund(tb, fundId, t)
  {
    var ts := Filter(OfAny(PfIds(Filter(HoldsFund(fundId), tb.portfolioFunds))), tb.transactions);
    TradesRead(tb, fundId, ts);
    assert forall i :: 0 <= i < |ts| ==> ts[i] in ts;
  }

  /**
   A backfill is refused for an unknown fund, one without a symbol, one that no portfolio holds, one that was
   never traded, and one first traded after today.
   */
  lemma RefusedIff(tb: Tables, f: FundRow, today: Day)
    requires f in tb.funds && forall g :: g in tb.funds && g.id == f.id ==> g == f
    ensures Refused(tb, f.id, today) ==
            if f.symbol == "" then Some(LookupKeyMissing)
            else if forall pf :: pf in tb.portfolioFunds ==> pf.fundId != f.id then Some(PortfolioFundNotFound)
            else if forall t :: t in tb.transactions ==> !TradesFund(tb, f.id, t) then Some(NotFound)
            else if forall t :: t in tb.transactions && TradesFund(tb, f.id, t) ==> t.date > today then
              Some(StartAfterEnd)
            else None
  {
    FilterMembers(HasFundId(f.id), tb.funds);
    assert f in Filter(HasFundId(f.id), tb.funds);
    assert Filter(HasFundId(f.id), tb.funds)[0] in Filter(HasFundId(f.id), tb.funds);
    FilterMembers(HoldsFund(f.id), tb.portfolioFunds);
    if Filter(HoldsFund(f.id), tb.portfolioFunds) != [] {
      assert Filter(HoldsFund(f.id), tb.portfolioFunds)[0] in Filter(HoldsFund(f.id), tb.portfolioFunds);
    }
    NeverTraded(tb, f.id);
    if OldestOfFund(tb, f.id).Some? {
      OldestOfFundIs(tb, f.id, OldestOfFund(tb, f.id).value);
    }
  }

  lemma UnknownFund(tb: Tables, fundId: Id, today: Day)
    requires forall f :: f in tb.funds ==> f.id != fundId
    ensures Refused(tb, fundId, today) == Some(NotFound)
  {
    FilterNone(HasFundId(fundId), tb.funds);
  }

  /** A day on which the fund has a price. */
  ghost predicate HasPriceOn(prices: seq<FundPrice>, fundId: Id, date: Day)
  {
    exists p :: p in prices && p.fundId == fundId && p.date == date
  }

  /**
   A backfill appends prices of the fund only: each for a day from the first transaction to yesterday that had
   none, at the chart's last positive close of that day; and no such day is left out.
   */
  lemma BackfilledRows(
    before: Tables, after: Tables, fundId: Id, today: Day, indicators: seq<Indicator>, first: Day)
    requires Backfilled(before, after, fundId, today, indicators) && FirstTrade(before, fundId, first)
    ensures after == before.(prices := after.prices) && before.prices <= after.prices
    ensures forall i :: |before.prices| <= i < |after.prices| ==>
              var p := after.prices[i];
              && p.fundId == fundId && first <= p.date <= today - 1
              && !HasPriceOn(before.prices, fundId, p.date) && ClosesAt(indicators, p.date, p.price)
    ensures forall d, price :: first <= d <= today - 1 && ClosesAt(indicators, d, price) ==>
              HasPriceOn(after.prices, fundId, d)
  {
    OldestOfFundIs(before, fundId, first);
    var added: seq<FundPrice> :| after == before.(prices := before.prices + added) &&
      Fills(added, before.prices, fundId, first, today, indicators);
    forall p | p in added
      ensures ClosesAt(indicators, p.date, p.price)
    {
      LastCloseIs(indicators, p.date, p.price);
    }
    forall i | |before.prices| <= i < |after.prices|
      ensures after.prices[i] in added
    {
      assert after.prices[i] == added[i - |before.prices|];
    }
    forall d, price | first <= d <= today - 1 && ClosesAt(indicators, d, price)
      ensures HasPriceOn(after.prices, fundId, d)
    {
      LastCloseIs(indicators, d, price);
      if Missing(before.prices, fundId, first, today, d) {
        StillPriced(before.prices, added, fundId, d);
      } else {
        PricedBefore(before.prices, added, fundId, d);
      }
    }
  }
}
