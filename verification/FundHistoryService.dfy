/**
 dividend_service.go, realizedGainLoss_service.go and materialized_helpers.go as loops, each proved to
 compute what FundHistory says.
 */
module FundHistoryService {
  import opened Collections
  import opened Sorting
  import opened Schema
  import opened Rounding
  import opened Ledger
  import opened FundHistory

  ghost predicate DistinctPfIds(funds: seq<PortfolioFund>)
  {
    forall i, j :: 0 <= i < j < |funds| ==> funds[i].id != funds[j].id
  }

  lemma {:induction false} FilterKeepsDistinct(keep: PortfolioFund -> bool, funds: seq<PortfolioFund>)
    requires DistinctPfIds(funds)
    ensures DistinctPfIds(Filter(keep, funds))
  {
    if funds != [] {
      FilterKeepsDistinct(keep, funds[1..]);
      FilterMembers(keep, funds[1..]);
      var rest := Filter(keep, funds[1..]);
      forall j | 0 <= j < |rest|
        ensures rest[j].id != funds[0].id
      {
        assert rest[j] in rest;
        var k :| 0 <= k < |funds[1..]| && funds[1..][k] == rest[j];
        assert funds[k + 1] == rest[j];
      }
    }
  }

  // ---------------------------------------------------- dividends and gains

  method SharesOfTransaction(transactions: seq<Transaction>, id: Id) returns (shares: real)
    ensures shares == LookupShares(transactions, id)
  {
    var i := 0;
    shares := 0.0;
    while i < |transactions|
      invariant 0 <= i <= |transactions|
      invariant LookupShares(transactions, id) == LookupShares(transactions[i..], id)
    {
      if transactions[i].id == id {
        shares := transactions[i].shares;
        return;
      }
      assert transactions[i..][1..] == transactions[i + 1..];
      i := i + 1;
    }
  }

  method DividendSharesUpTo(dividends: seq<DividendRow>, transactions: seq<Transaction>, date: Day)
    returns (shares: real)
    ensures shares == DividendShares(dividends, transactions, date)
  {
    shares := 0.0;
    var i := 0;
    while i < |dividends|
      invariant 0 <= i <= |dividends|
      invariant forall k :: 0 <= k < i ==> dividends[k].exDate <= date
      invariant shares == Sum(SharesReinvestedIn(transactions), dividends[..i])
    {
      var div := dividends[i];
      SumNext(SharesReinvestedIn(transactions), dividends, i);
      if div.exDate <= date {
        if div.reinvestment.Some? {
          var found := SharesOfTransaction(transactions, div.reinvestment.value);
          shares := shares + found;
        }
      } else {
        break;
      }
      i := i + 1;
    }
    TakeWhileIs(ExUpTo(date), dividends, i);
  }

  method ProcessDividendSharesForDate(
    dividendMap: map<Id, seq<DividendRow>>, transactions: seq<Transaction>, date: Day)
    returns (total: map<Id, real>)
    ensures total == map id | id in dividendMap :: DividendShares(dividendMap[id], transactions, date)
  {
    total := map[];
    var pending := dividendMap.Keys;
    while pending != {}
      invariant pending <= dividendMap.Keys
      invariant total == map id | id in dividendMap && id !in pending ::
                                DividendShares(dividendMap[id], transactions, date)
      decreases |pending|
    {
      var pfId :| pfId in pending;
      var shares := DividendSharesUpTo(dividendMap[pfId], transactions, date);
      total := total[pfId := shares];
      pending := pending - {pfId};
    }
  }

  method ProcessDividendAmountForDate(dividends: seq<DividendRow>, date: Day) returns (total: real)
    ensures total == DividendAmount(dividends, date)
  {
    total := 0.0;
    var i := 0;
    while i < |dividends|
      invariant 0 <= i <= |dividends|
      invariant forall k :: 0 <= k < i ==> dividends[k].exDate <= date
      invariant total == Sum(TotalAmount, dividends[..i])
    {
      SumNext(TotalAmount, dividends, i);
      if dividends[i].exDate <= date {
        total := total + dividends[i].totalAmount;
      } else {
        break;
      }
      i := i + 1;
    }
    TakeWhileIs(ExUpTo(date), dividends, i);
  }

  lemma NextRealized(gains: seq<RealizedGain>, date: Day, i: nat)
    requires i < |gains|
    ensures var before := RealizedUpTo(gains[..i], date);
            RealizedUpTo(gains[..i + 1], date) ==
              if gains[i].date > date then before
              else Realized(before.gain + gains[i].gain, before.proceeds + gains[i].saleProceeds,
                            before.basis + gains[i].costBasis)
  {
    var due := Filter(GainUpTo(date), gains[..i]);
    assert gains[..i + 1] == gains[..i] + [gains[i]];
    FilterConcat(GainUpTo(date), gains[..i], [gains[i]]);
    FilterOne(GainUpTo(date), gains[i]);
    if gains[i].date > date {
      assert due + [] == due;
    } else {
      SumConcat(GainOf, due, [gains[i]]);
      SumConcat(ProceedsOf, due, [gains[i]]);
      SumConcat(BasisOf, due, [gains[i]]);
    }
  }

  method ProcessRealizedGainLossForDate(gains: seq<RealizedGain>, date: Day) returns (r: Realized)
    ensures r == RealizedUpTo(gains, date)
  {
    var gain, proceeds, basis := 0.0, 0.0, 0.0;
    for i := 0 to |gains|
      invariant Realized(gain, proceeds, basis) == RealizedUpTo(gains[..i], date)
    {
      NextRealized(gains, date, i);
      if gains[i].date <= date {
        gain := gain + gains[i].gain;
        proceeds := proceeds + gains[i].saleProceeds;
        basis := basis + gains[i].costBasis;
      }
    }
    assert gains[..|gains|] == gains;
    r := Realized(gain, proceeds, basis);
  }

  lemma NextOfFund(fundId: Id, gains: seq<RealizedGain>, i: nat)
    requires i < |gains|
    ensures Filter(OfFund(fundId), gains[..i + 1]) ==
            Filter(OfFund(fundId), gains[..i]) + if gains[i].fundId == fundId then [gains[i]] else []
  {
    assert gains[..i + 1] == gains[..i] + [gains[i]];
    FilterConcat(OfFund(fundId), gains[..i], [gains[i]]);
    FilterOne(OfFund(fundId), gains[i]);
  }

  ghost predicate GainsMapped(data: PortfolioData, gainsByPf: map<Id, seq<RealizedGain>>)
  {
    forall k :: 0 <= k < |data.funds| ==>
      Get(gainsByPf, data.funds[k].id) == Filter(OfFund(data.funds[k].fundId), data.gains)
  }

  /** Each realized gain goes to every portfolio fund that holds its fund. */
  method MapRealizedGainsByPf(data: PortfolioData) returns (result: map<Id, seq<RealizedGain>>)
    requires DistinctPfIds(data.funds)
    ensures GainsMapped(data, result)
  {
    result := map[];
    var funds := data.funds;
    for i := 0 to |data.gains|
      invariant forall k :: 0 <= k < |funds| ==>
        Get(result, funds[k].id) == Filter(OfFund(funds[k].fundId), data.gains[..i])
    {
      var entry := data.gains[i];
      for j := 0 to |funds|
        invariant forall k :: 0 <= k < j ==>
          Get(result, funds[k].id) == Filter(OfFund(funds[k].fundId), data.gains[..i + 1])
        invariant forall k :: j <= k < |funds| ==>
          Get(result, funds[k].id) == Filter(OfFund(funds[k].fundId), data.gains[..i])
      {
        NextOfFund(funds[j].fundId, data.gains, i);
        if entry.fundId == funds[j].fundId {
          result := result[funds[j].id := Get(result, funds[j].id) + [entry]];
        }
      }
    }
    assert data.gains[..|data.gains|] == data.gains;
  }

  // ------------------------------------------------------- entries and days

  ghost function FundEntry(data: PortfolioData, pf: PortfolioFund, date: Day): Result<FundHistoryEntry, Error>
  {
    if Unsupported(Due(data, pf, date)) then Err(UnsupportedKind) else Ok(EntryFor(data, pf, date))
  }

  method CalculateFundEntry(
    pf: PortfolioFund, date: Day, data: PortfolioData, realizedGains: seq<RealizedGain>)
    returns (r: Result<FundHistoryEntry, Error>)
    requires realizedGains == Filter(OfFund(pf.fundId), data.gains)
    ensures r == FundEntry(data, pf, date)
  {
    var transactions := Get(data.transactionsByPf, pf.id);
    var dividendShares := ProcessDividendSharesForDate(data.dividendsByPf, transactions, date);
    var reinvested := if pf.id in dividendShares then dividendShares[pf.id] else 0.0;
    var metrics := CalculateFundMetrics(date, transactions, reinvested, Get(data.pricesByFund, pf.fundId), false);
    if metrics.Err? {
      return Err(metrics.error);
    }
    var amount := ProcessDividendAmountForDate(Get(data.dividendsByPf, pf.id), date);
    var realized := ProcessRealizedGainLossForDate(realizedGains, date);
    var m := metrics.value;
    r := Ok(FundHistoryEntry(
      pf.id, pf.fundId, Round(m.shares), Round(m.price), Round(m.value), Round(m.cost),
      Round(realized.gain), Round(m.unrealizedGain), Round(m.unrealizedGain + realized.gain),
      Round(amount), Round(m.fees), Round(realized.proceeds), Round(realized.basis)));
  }

  /** The loop over the funds of one day, up to the first fund that cannot be read. */
  ghost function FundsForDate(data: PortfolioData, date: Day, funds: seq<PortfolioFund>): Result<seq<CacheRow>, Error>
  {
    if funds == [] then Ok([])
    else
      var rows :- FundsForDate(data, date, funds[..|funds| - 1]);
      var entry :- FundEntry(data, funds[|funds| - 1], date);
      Ok(rows + if Blank(entry) then [] else [CacheRow(date, entry)])
  }

  lemma {:induction false} FundsForDateFails(data: PortfolioData, date: Day, funds: seq<PortfolioFund>, i: nat)
    requires i <= |funds| && FundsForDate(data, date, funds[..i]).Err?
    ensures FundsForDate(data, date, funds) == FundsForDate(data, date, funds[..i])
  {
    if i == |funds| {
      assert funds[..i] == funds;
    } else {
      var init := funds[..|funds| - 1];
      assert init[..i] == funds[..i];
      FundsForDateFails(data, date, init, i);
    }
  }

  lemma NextFundForDate(
    data: PortfolioData, date: Day, funds: seq<PortfolioFund>, i: nat,
    rows: seq<CacheRow>, entry: Result<FundHistoryEntry, Error>)
    requires i < |funds| && FundsForDate(data, date, funds[..i]) == Ok(rows)
    requires FundEntry(data, funds[i], date) == entry
    ensures FundsForDate(data, date, funds[..i + 1]) ==
            if entry.Err? then Err(entry.error)
            else Ok(if Blank(entry.value) then rows else rows + [CacheRow(date, entry.value)])
  {
    assert funds[..i + 1][..i] == funds[..i];
    assert rows + [] == rows;
  }

  /** One more fund: it fails the day, or adds its row. */
  lemma NextRowsOn(data: PortfolioData, date: Day, funds: seq<PortfolioFund>, i: nat)
    requires i < |funds| && FundsForDate(data, date, funds[..i]) == Ok(RowsOn(data, date, funds[..i]))
    ensures FundsForDate(data, date, funds[..i + 1]) ==
            if Unsupported(Due(data, funds[i], date)) then Err(UnsupportedKind)
            else Ok(RowsOn(data, date, funds[..i + 1]))
  {
    NextFundForDate(data, date, funds, i, RowsOn(data, date, funds[..i]), FundEntry(data, funds[i], date));
    assert funds[..i + 1][..i] == funds[..i];
    assert RowsOn(data, date, funds[..i]) + [] == RowsOn(data, date, funds[..i]);
  }

  ghost predicate SomeUnreadable(data: PortfolioData, date: Day, funds: seq<PortfolioFund>)
  {
    exists pf :: pf in funds && Unsupported(Due(data, pf, date))
  }

  lemma NextUnreadable(data: PortfolioData, date: Day, funds: seq<PortfolioFund>, i: nat)
    requires i < |funds|
    ensures SomeUnreadable(data, date, funds[..i + 1]) <==>
            SomeUnreadable(data, date, funds[..i]) || Unsupported(Due(data, funds[i], date))
  {
    assert funds[..i + 1] == funds[..i] + [funds[i]];
  }

  lemma {:induction false} FundsForDateIs(data: PortfolioData, date: Day, funds: seq<PortfolioFund>, i: nat)
    requires i <= |funds|
    ensures FundsForDate(data, date, funds[..i]) ==
            if SomeUnreadable(data, date, funds[..i]) then Err(UnsupportedKind)
            else Ok(RowsOn(data, date, funds[..i]))
  {
    if i > 0 {
      FundsForDateIs(data, date, funds, i - 1);
      NextUnreadable(data, date, funds, i - 1);
      if SomeUnreadable(data, date, funds[..i - 1]) {
        assert funds[..i][..i - 1] == funds[..i - 1];
        FundsForDateFails(data, date, funds[..i], i - 1);
      } else {
        NextRowsOn(data, date, funds, i - 1);
      }
    }
  }

  method CalculateFundsForDate(date: Day, data: PortfolioData, gainsByPf: map<Id, seq<RealizedGain>>)
    returns (r: Result<seq<CacheRow>, Error>)
    requires GainsMapped(data, gainsByPf)
    ensures r == FundsForDate(data, date, data.funds)
  {
    var rows: seq<CacheRow> := [];
    var i := 0;
    while i < |data.funds|
      invariant 0 <= i <= |data.funds|
      invariant Ok(rows) == FundsForDate(data, date, data.funds[..i])
    {
      var pf := data.funds[i];
      var entry := CalculateFundEntry(pf, date, data, Get(gainsByPf, pf.id));
      NextFundForDate(data, date, data.funds, i, rows, entry);
      if entry.Err? {
        FundsForDateFails(data, date, data.funds, i + 1);
        return Err(entry.error);
      }
      if !Blank(entry.value) {
        rows := rows + [CacheRow(date, entry.value)];
      }
      i := i + 1;
    }
    assert data.funds[..|data.funds|] == data.funds;
    r := Ok(rows);
  }

  lemma LaterReadsMore(data: PortfolioData, pf: PortfolioFund, d: Day, later: Day)
    requires d <= later && Unsupported(Due(data, pf, d))
    ensures Unsupported(Due(data, pf, later))
  {
    var ts := Get(data.transactionsByPf, pf.id);
    var a, b := TakeWhile(UpTo(d), ts), TakeWhile(UpTo(later), ts);
    var t :| t in a && t.kind.Other?;
    var i :| 0 <= i < |a| && a[i] == t;
    assert forall k :: 0 <= k <= i ==> a[k] in a && ts[k] == a[k];
    assert |b| > i && b[i] == t;
  }

  /** The loop over the days, up to the first day that cannot be read. */
  ghost function DaysBetween(data: PortfolioData, from: Day, last: Day): Result<seq<CacheRow>, Error>
    decreases last - from + 1
  {
    if last < from then Ok([])
    else
      var before :- DaysBetween(data, from, last - 1);
      var rows :- FundsForDate(data, last, data.funds);
      Ok(before + rows)
  }

  lemma {:induction false} DaysFail(data: PortfolioData, from: Day, d: Day, last: Day)
    requires d <= last && DaysBetween(data, from, d).Err?
    ensures DaysBetween(data, from, last) == DaysBetween(data, from, d)
    decreases last - d
  {
    if d < last {
      DaysFail(data, from, d, last - 1);
    }
  }

  lemma UnreadableNext(data: PortfolioData, from: Day, d: Day)
    requires from <= d
    ensures Unreadable(data, from, d) <==> SomeUnreadable(data, d, data.funds)
    ensures Unreadable(data, from, d - 1) ==> Unreadable(data, from, d)
  {
    if Unreadable(data, from, d - 1) {
      var pf :| pf in data.funds && Unsupported(Due(data, pf, d - 1));
      LaterReadsMore(data, pf, d - 1, d);
    }
  }

  /** A range fails exactly when its last day reads an unsupported transaction. */
  lemma {:induction false} DaysBetweenIs(data: PortfolioData, from: Day, last: Day)
    ensures DaysBetween(data, from, last) ==
            if Unreadable(data, from, last) then Err(UnsupportedKind) else Ok(RowsBetween(data, from, last))
    decreases last - from + 1
  {
    if from <= last {
      DaysBetweenIs(data, from, last - 1);
      UnreadableNext(data, from, last);
      FundsForDateIs(data, last, data.funds, |data.funds|);
      assert data.funds[..|data.funds|] == data.funds;
    }
  }

  method CalculateFundHistoryByDate(
    data: PortfolioData, gainsByPf: map<Id, seq<RealizedGain>>, startDate: Day, endDate: Day)
    returns (r: Result<seq<CacheRow>, Error>)
    requires GainsMapped(data, gainsByPf)
    ensures r == DaysBetween(data, startDate, endDate)
  {
    var response: seq<CacheRow> := [];
    var currentDate := startDate;
    while currentDate <= endDate
      invariant startDate <= currentDate
      invariant currentDate <= endDate + 1 || currentDate == startDate
      invariant Ok(response) == DaysBetween(data, startDate, currentDate - 1)
      decreases endDate - currentDate
    {
      var fundsForDate := CalculateFundsForDate(currentDate, data, gainsByPf);
      if fundsForDate.Err? {
        DaysFail(data, startDate, currentDate, endDate);
        return Err(fundsForDate.error);
      }
      response := response + fundsForDate.value;
      currentDate := currentDate + 1;
    }
    r := Ok(response);
  }

  method CalculateFundHistoryOnFly(tb: Tables, portfolioId: Id, startDate: Day, today: Day)
    returns (r: Result<seq<CacheRow>, Error>)
    requires DistinctPfIds(tb.portfolioFunds)
    ensures r == HistoryOnFly(tb, portfolioId, startDate, today)
  {
    var loaded := LoadForPortfolio(tb, portfolioId, today);
    if loaded.Err? {
      return Err(loaded.error);
    }
    var data := loaded.value;
    if |data.funds| == 0 {
      return Ok([]);
    }
    var start := startDate;
    if data.oldest.Some? && start < data.oldest.value {
      start := data.oldest.value;
    }
    FilterKeepsDistinct(InPortfolio(portfolioId), tb.portfolioFunds);
    var gainsByPf := MapRealizedGainsByPf(data);
    DaysBetweenIs(data, start, today);
    r := CalculateFundHistoryByDate(data, gainsByPf, start, today);
  }
}
