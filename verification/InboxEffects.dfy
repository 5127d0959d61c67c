/**
 When the inbox operations succeed, with which error they fail otherwise, and the rows they leave: the
 transactions and links of an allocation field by field, the entries of an import, and every status.
 */
module InboxEffects {
  import opened Collections
  import opened Schema
  import opened Rounding
  import opened Transactions
  import opened Inbox
  import opened AllocationSplit
  import opened Consistency
  import opened InboxInvariants
  import opened Operations

  // ------------------------------------------------------ one chosen portfolio

  /** A percentage of a figure, to six decimals. */
  function PartIn(total: real, percentage: real): real
  {
    Round(total * (percentage / 100.0))
  }

  ghost predicate OnPair(pfs: seq<PortfolioFund>, pfId: Id, portfolioId: Id, fundId: Id)
  {
    exists pf :: pf in pfs && pf.id == pfId && pf.portfolioId == portfolioId && pf.fundId == fundId
  }

  /** The link names the transaction, the imported trade, and the portfolio with its percentage. */
  predicate LinkFor(ib: IbkrTransaction, e: AllocationEntry, t: Transaction, a: Allocation)
  {
    && a.transactionId == t.id && a.ibkrTransactionId == ib.id
    && a.portfolioId == e.portfolioId && a.percentage == e.percentage && a.shares == t.shares
  }

  /** The trade itself: its kind, date and price, and the portfolio's part of its shares and amount. */
  ghost predicate TradeRow(
    pfs: seq<PortfolioFund>, ib: IbkrTransaction, fundId: Id, e: AllocationEntry, t: Transaction, a: Allocation)
  {
    && OnPair(pfs, t.pfId, e.portfolioId, fundId)
    && t.kind == ib.kind && t.date == ib.date && t.costPerShare == ib.price
    && t.shares == PartIn(ib.quantity, e.percentage)
    && LinkFor(ib, e, t, a) && a.amount == PartIn(ib.totalAmount, e.percentage)
  }

  /** The portfolio's part of the fee, as a transaction without shares. */
  ghost predicate FeeRow(
    pfs: seq<PortfolioFund>, ib: IbkrTransaction, fundId: Id, e: AllocationEntry, t: Transaction, a: Allocation)
  {
    && OnPair(pfs, t.pfId, e.portfolioId, fundId)
    && t.kind == Fee && t.date == ib.date && t.shares == 0.0 && t.costPerShare == PartIn(ib.fees, e.percentage)
    && LinkFor(ib, e, t, a) && a.amount == t.costPerShare
  }

  function RowsFor(ib: IbkrTransaction, e: AllocationEntry): nat
  {
    if PartIn(ib.fees, e.percentage) > 0.0 then 2 else 1
  }

  /** One trade for each portfolio in turn and, where the fee does not round to nothing, one fee; nothing else. */
  ghost predicate BookedRows(
    pfs: seq<PortfolioFund>, ib: IbkrTransaction, fundId: Id, es: seq<AllocationEntry>,
    txs: seq<Transaction>, links: seq<Allocation>)
    decreases |es|
  {
    if es == [] then txs == [] && links == []
    else
      var n := RowsFor(ib, es[0]);
      && |txs| >= n && |links| >= n
      && TradeRow(pfs, ib, fundId, es[0], txs[0], links[0])
      && (n == 2 ==> FeeRow(pfs, ib, fundId, es[0], txs[1], links[1]))
      && BookedRows(pfs, ib, fundId, es[1..], txs[n..], links[n..])
  }

  lemma {:induction false} BookedRowsLater(
    pfs: seq<PortfolioFund>, more: seq<PortfolioFund>, ib: IbkrTransaction, fundId: Id, es: seq<AllocationEntry>,
    txs: seq<Transaction>, links: seq<Allocation>)
    requires BookedRows(pfs, ib, fundId, es, txs, links) && pfs <= more
    ensures BookedRows(more, ib, fundId, es, txs, links)
    decreases |es|
  {
    if es != [] {
      assert forall pf :: pf in pfs ==> pf in more;
      BookedRowsLater(pfs, more, ib, fundId, es[1..], txs[RowsFor(ib, es[0])..], links[RowsFor(ib, es[0])..]);
    }
  }

  lemma {:induction false} BookedRowsThen(
    pfs: seq<PortfolioFund>, ib: IbkrTransaction, fundId: Id, es: seq<AllocationEntry>, txs: seq<Transaction>,
    links: seq<Allocation>, e: AllocationEntry, txs': seq<Transaction>, links': seq<Allocation>)
    requires BookedRows(pfs, ib, fundId, es, txs, links) && BookedRows(pfs, ib, fundId, [e], txs', links')
    ensures BookedRows(pfs, ib, fundId, es + [e], txs + txs', links + links')
    decreases |es|
  {
    if es == [] {
      assert es + [e] == [e] && txs + txs' == txs' && links + links' == links';
    } else {
      var n := RowsFor(ib, es[0]);
      BookedRowsThen(pfs, ib, fundId, es[1..], txs[n..], links[n..], e, txs', links');
      assert (es + [e])[1..] == es[1..] + [e];
      assert (txs + txs')[n..] == txs[n..] + txs' && (links + links')[n..] == links[n..] + links';
    }
  }

  /** What placing the trade in one portfolio appends. */
  lemma PlacedRows(tb: Tables, ib: IbkrTransaction, fundId: Id, e: AllocationEntry, pfId: Id)
    returns (txs: seq<Transaction>, links: seq<Allocation>)
    requires OnPair(tb.portfolioFunds, pfId, e.portfolioId, fundId)
    ensures var after := Placed(tb, ib, e, pfId);
            && after.portfolioFunds == tb.portfolioFunds
            && after.transactions == tb.transactions + txs && after.allocations == tb.allocations + links
    ensures BookedRows(tb.portfolioFunds, ib, fundId, [e], txs, links)
  {
    txs := Placed(tb, ib, e, pfId).transactions[|tb.transactions|..];
    links := Placed(tb, ib, e, pfId).allocations[|tb.allocations|..];
    assert TradeRow(tb.portfolioFunds, ib, fundId, e, txs[0], links[0]);
    assert |txs| == |links| == RowsFor(ib, e);
    assert [e][1..] == [] && txs[|txs|..] == [] && links[|links|..] == [];
  }

  lemma PairFound(tb: Tables, portfolioId: Id, fundId: Id)
    ensures FindPair(tb, portfolioId, fundId).Some? ==>
              OnPair(tb.portfolioFunds, FindPair(tb, portfolioId, fundId).value.id, portfolioId, fundId)
    ensures FindPair(tb, portfolioId, fundId).Some? <==>
            exists pfId :: OnPair(tb.portfolioFunds, pfId, portfolioId, fundId)
  {
    FilterMembers(IsPair(portfolioId, fundId), tb.portfolioFunds);
    if FindPair(tb, portfolioId, fundId).Some? {
      assert FindPair(tb, portfolioId, fundId).value in Filter(IsPair(portfolioId, fundId), tb.portfolioFunds);
    }
  }

  lemma PairedRows(tb: Tables, portfolioId: Id, fundId: Id)
    requires WithPair(tb, portfolioId, fundId).Ok?
    ensures var paired := WithPair(tb, portfolioId, fundId).value;
            && tb.portfolioFunds <= paired.portfolioFunds
            && paired.transactions == tb.transactions && paired.allocations == tb.allocations
  {
  }

  lemma OneBooked(tb: Tables, ib: IbkrTransaction, fund: FundRow, e: AllocationEntry)
    returns (txs: seq<Transaction>, links: seq<Allocation>)
    requires AllocateOne(tb, ib, fund, e).Ok?
    ensures var after := AllocateOne(tb, ib, fund, e).value;
            && tb.portfolioFunds <= after.portfolioFunds
            && after.transactions == tb.transactions + txs && after.allocations == tb.allocations + links
            && BookedRows(after.portfolioFunds, ib, fund.id, [e], txs, links)
  {
    var paired := WithPair(tb, e.portfolioId, fund.id).value;
    PairedRows(tb, e.portfolioId, fund.id);
    PairFound(paired, e.portfolioId, fund.id);
    txs, links := PlacedRows(paired, ib, fund.id, e, FindPair(paired, e.portfolioId, fund.id).value.id);
  }

  /** Rows appended to what was appended before. */
  lemma AppendedTwice<T>(a: seq<T>, b: seq<T>, c: seq<T>)
    ensures a + b + c == a + (b + c)
  {
  }

  lemma BookedTwice(
    pfs: seq<PortfolioFund>, more: seq<PortfolioFund>, ib: IbkrTransaction, fundId: Id, es: seq<AllocationEntry>,
    txs: seq<Transaction>, links: seq<Allocation>, e: AllocationEntry, txs': seq<Transaction>, links': seq<Allocation>)
    requires pfs <= more && BookedRows(pfs, ib, fundId, es, txs, links)
    requires BookedRows(more, ib, fundId, [e], txs', links')
    ensures BookedRows(more, ib, fundId, es + [e], txs + txs', links + links')
  {
    BookedRowsLater(pfs, more, ib, fundId, es, txs, links);
    BookedRowsThen(more, ib, fundId, es, txs, links, e, txs', links');
  }

  lemma {:induction false} AllBooked(tb: Tables, ib: IbkrTransaction, fund: FundRow, es: seq<AllocationEntry>)
    returns (txs: seq<Transaction>, links: seq<Allocation>)
    requires AllocateAll(tb, ib, fund, es).Ok?
    ensures var after := AllocateAll(tb, ib, fund, es).value;
            && tb.portfolioFunds <= after.portfolioFunds
            && after.transactions == tb.transactions + txs && after.allocations == tb.allocations + links
            && BookedRows(after.portfolioFunds, ib, fund.id, es, txs, links)
  {
    if es == [] {
      txs, links := [], [];
      assert tb.transactions + [] == tb.transactions && tb.allocations + [] == tb.allocations;
    } else {
      var n := |es| - 1;
      var mid := AllocateAll(tb, ib, fund, es[..n]).value;
      var init, inits := AllBooked(tb, ib, fund, es[..n]);
      var last, lasts := OneBooked(mid, ib, fund, es[n]);
      var after := AllocateOne(mid, ib, fund, es[n]).value;
      BookedTwice(mid.portfolioFunds, after.portfolioFunds, ib, fund.id, es[..n], init, inits, es[n], last, lasts);
      assert es == es[..n] + [es[n]];
      AppendedTwice(tb.transactions, init, last);
      AppendedTwice(tb.allocations, inits, lasts);
      txs, links := init + last, inits + lasts;
    }
  }

  // ------------------------------------------------------------- allocating

  /** A ticker is compared up to its first dot, if it has one. */
  lemma StemIs(symbol: string)
    ensures var stem := Stem(symbol);
            stem <= symbol && '.' !in stem && (stem == symbol || symbol[|stem|] == '.')
  {
  }

  /** The portfolio exists or has the fund already. */
  ghost predicate Placeable(tb: Tables, fundId: Id, portfolioId: Id)
  {
    portfolioId in tb.portfolios || exists pfId :: OnPair(tb.portfolioFunds, pfId, portfolioId, fundId)
  }

  lemma PairedIff(tb: Tables, portfolioId: Id, fundId: Id)
    ensures if Placeable(tb, fundId, portfolioId) then WithPair(tb, portfolioId, fundId).Ok?
            else WithPair(tb, portfolioId, fundId) == Err(ForeignKeyViolated)
    ensures WithPair(tb, portfolioId, fundId).Ok? ==>
              FindPair(WithPair(tb, portfolioId, fundId).value, portfolioId, fundId).Some?
  {
    PairFound(tb, portfolioId, fundId);
    if FindPair(tb, portfolioId, fundId).None? {
      Appended(IsPair(portfolioId, fundId), tb.portfolioFunds, PortfolioFund(tb.nextId, portfolioId, fundId));
    }
  }

  lemma OneIff(tb: Tables, ib: IbkrTransaction, fund: FundRow, e: AllocationEntry)
    ensures if Placeable(tb, fund.id, e.portfolioId) then AllocateOne(tb, ib, fund, e).Ok?
            else AllocateOne(tb, ib, fund, e) == Err(ForeignKeyViolated)
    ensures AllocateOne(tb, ib, fund, e).Ok? ==>
              AllocateOne(tb, ib, fund, e).value.portfolios == tb.portfolios
              && forall pf :: pf in AllocateOne(tb, ib, fund, e).value.portfolioFunds ==>
                   pf in tb.portfolioFunds || (pf.fundId == fund.id && pf.portfolioId in tb.portfolios)
  {
    PairedIff(tb, e.portfolioId, fund.id);
  }

  /** New portfolio funds are only made where the portfolio exists, so they make no further one placeable. */
  lemma SamePlaces(tb: Tables, mid: Tables, fundId: Id, portfolioId: Id)
    requires mid.portfolios == tb.portfolios && tb.portfolioFunds <= mid.portfolioFunds
    requires forall pf :: pf in mid.portfolioFunds ==> pf in tb.portfolioFunds || pf.portfolioId in tb.portfolios
    ensures Placeable(mid, fundId, portfolioId) <==> Placeable(tb, fundId, portfolioId)
  {
    assert forall pf :: pf in tb.portfolioFunds ==> pf in mid.portfolioFunds;
    if pfId :| OnPair(tb.portfolioFunds, pfId, portfolioId, fundId) {
      assert OnPair(mid.portfolioFunds, pfId, portfolioId, fundId);
    }
    if portfolioId !in tb.portfolios {
      forall pfId | OnPair(mid.portfolioFunds, pfId, portfolioId, fundId)
        ensures OnPair(tb.portfolioFunds, pfId, portfolioId, fundId)
      {
      }
    }
  }

  ghost predicate AllPlaceable(tb: Tables, fundId: Id, es: seq<AllocationEntry>)
  {
    forall e :: e in es ==> Placeable(tb, fundId, e.portfolioId)
  }

  lemma {:induction false} AllIff(tb: Tables, ib: IbkrTransaction, fund: FundRow, es: seq<AllocationEntry>)
    ensures if AllPlaceable(tb, fund.id, es) then AllocateAll(tb, ib, fund, es).Ok?
            else AllocateAll(tb, ib, fund, es) == Err(ForeignKeyViolated)
    ensures AllocateAll(tb, ib, fund, es).Ok? ==>
              var after := AllocateAll(tb, ib, fund, es).value;
              && after.portfolios == tb.portfolios && tb.portfolioFunds <= after.portfolioFunds
              && forall pf :: pf in after.portfolioFunds ==>
                   pf in tb.portfolioFunds || (pf.fundId == fund.id && pf.portfolioId in tb.portfolios)
  {
    if es != [] {
      var n := |es| - 1;
      assert es == es[..n] + [es[n]];
      AllIff(tb, ib, fund, es[..n]);
      if AllPlaceable(tb, fund.id, es[..n]) {
        var mid := AllocateAll(tb, ib, fund, es[..n]).value;
        SamePlaces(tb, mid, fund.id, es[n].portfolioId);
        OneIff(mid, ib, fund, es[n]);
        if AllocateOne(mid, ib, fund, es[n]).Ok? {
          var txs, links := OneBooked(mid, ib, fund, es[n]);
        }
      }
    }
  }

  lemma FoundEntry(tb: Tables, k: Id)
    requires Consistent(tb)
    ensures FindIbkr(tb, k).None? <==> forall ib :: ib in tb.inbox ==> ib.id != k
    ensures forall ib :: ib in tb.inbox && ib.id == k ==> FindIbkr(tb, k) == Some(ib)
  {
    assert InboxOk(tb, k);
    FilterMembers(HasIbkr(k), tb.inbox);
    forall ib | ib in tb.inbox && ib.id == k
      ensures FindIbkr(tb, k) == Some(ib)
    {
      assert ib in Filter(HasIbkr(k), tb.inbox);
    }
    if FindIbkr(tb, k).Some? {
      assert FindIbkr(tb, k).value in Filter(HasIbkr(k), tb.inbox);
    }
  }

  /** The requested split, or the configured one when none is requested. */
  function SplitOf(tb: Tables, entries: seq<AllocationEntry>): seq<AllocationEntry>
  {
    if |entries| > 0 then entries else tb.defaultAllocations
  }

  /** No operation on the inbox finds an entry that is not there. */
  lemma NoEntry(tb: Tables, k: Id, entries: seq<AllocationEntry>, now: int)
    requires Consistent(tb) && forall ib :: ib in tb.inbox ==> ib.id != k
    ensures Allocated(tb, k, entries, now) == Err(NotFound) && Unallocated(tb, k) == Err(NotFound)
    ensures IgnoredOne(tb, k) == Err(NotFound) && Dropped(tb, k) == Err(NotFound)
  {
    FoundEntry(tb, k);
  }

  /**
   An entry is allocated if and only if it is pending, a split is requested or configured, the trade
   identifies a fund, and each portfolio of the split exists or holds that fund.
   */
  lemma AllocatedIff(tb: Tables, ib: IbkrTransaction, entries: seq<AllocationEntry>, now: int)
    returns (fund: Result<FundRow, Error>)
    requires Consistent(tb) && ib in tb.inbox
    ensures Identified(tb.funds, ib.isin, ib.symbol, fund)
    ensures var r := Allocated(tb, ib.id, entries, now);
            if ib.status != Pending then r == Err(AlreadyProcessed)
            else if |SplitOf(tb, entries)| == 0 then r == Err(InvalidAllocations)
            else if fund.Err? then r == Err(fund.error)
            else if AllPlaceable(tb, fund.value.id, SplitOf(tb, entries)) then r.Ok?
            else r == Err(ForeignKeyViolated)
  {
    fund := FindFund(tb.funds, ib.isin, ib.symbol);
    FindFundIdentifies(tb.funds, ib.isin, ib.symbol);
    FoundEntry(tb, ib.id);
    if fund.Ok? {
      AllIff(tb, ib, fund.value, SplitOf(tb, entries));
    }
  }

  /**
   The transactions and links an allocation appends: for each portfolio of the split, in its order, one with
   the kind, date and price of the trade on the fund it identifies, and a fee where there is one.
   */
  lemma AllocatedRows(tb: Tables, ib: IbkrTransaction, entries: seq<AllocationEntry>, now: int)
    returns (fund: FundRow)
    requires Consistent(tb) && ib in tb.inbox && Allocated(tb, ib.id, entries, now).Ok?
    ensures Identified(tb.funds, ib.isin, ib.symbol, Ok(fund))
    ensures var after := Allocated(tb, ib.id, entries, now).value;
            && tb.transactions <= after.transactions && tb.allocations <= after.allocations
            && BookedRows(after.portfolioFunds, ib, fund.id, SplitOf(tb, entries),
                          after.transactions[|tb.transactions|..], after.allocations[|tb.allocations|..])
  {
    FoundEntry(tb, ib.id);
    FindFundIdentifies(tb.funds, ib.isin, ib.symbol);
    fund := FindFund(tb.funds, ib.isin, ib.symbol).value;
    var after := Allocated(tb, ib.id, entries, now).value;
    var txs, links := AllBooked(tb, ib, fund, SplitOf(tb, entries));
    assert after.transactions[|tb.transactions|..] == txs && after.allocations[|tb.allocations|..] == links;
  }

  /** The inbox with one entry in a new state and every other entry as it was. */
  ghost predicate OnlyStatus(
    inbox: seq<IbkrTransaction>, after: seq<IbkrTransaction>, k: Id, status: Status, at: Option<int>)
  {
    && |after| == |inbox|
    && forall i :: 0 <= i < |inbox| ==>
         after[i] == if inbox[i].id == k then inbox[i].(status := status, processedAt := at) else inbox[i]
  }

  /** The entry is processed as of now; portfolio funds are only added, on that fund; other tables stay. */
  lemma AllocatedElsewhere(tb: Tables, ib: IbkrTransaction, entries: seq<AllocationEntry>, now: int)
    returns (fund: FundRow)
    requires Consistent(tb) && ib in tb.inbox && Allocated(tb, ib.id, entries, now).Ok?
    ensures Identified(tb.funds, ib.isin, ib.symbol, Ok(fund))
    ensures var after := Allocated(tb, ib.id, entries, now).value;
            && OnlyStatus(tb.inbox, after.inbox, ib.id, Processed, Some(now))
            && tb.portfolioFunds <= after.portfolioFunds
            && (forall pf :: pf in after.portfolioFunds ==>
                  pf in tb.portfolioFunds || (pf.fundId == fund.id && pf.portfolioId in tb.portfolios))
            && after == tb.(portfolioFunds := after.portfolioFunds, transactions := after.transactions,
                            allocations := after.allocations, inbox := after.inbox, nextId := after.nextId)
  {
    FoundEntry(tb, ib.id);
    FindFundIdentifies(tb.funds, ib.isin, ib.symbol);
    fund := FindFund(tb.funds, ib.isin, ib.symbol).value;
    AllIff(tb, ib, fund, SplitOf(tb, entries));
    var pfs, txs, links := AllocateAllExtends(tb, ib, fund, SplitOf(tb, entries));
  }

  // ------------------------------------------------------------ unallocating

  ghost predicate MadeBy(tb: Tables, k: Id, id: Id)
  {
    exists a :: a in tb.allocations && a.ibkrTransactionId == k && a.transactionId == id
  }

  lemma MadeByIs(tb: Tables, k: Id, id: Id)
    ensures id in LinkedIds(PartsOfIbkr(tb, k)) <==> MadeBy(tb, k, id)
  {
    var mine := PartsOfIbkr(tb, k);
    FilterMembers(ForIbkr(k), tb.allocations);
    if id in LinkedIds(mine) {
      var i :| 0 <= i < |mine| && LinkedIds(mine)[i] == id;
      assert mine[i] in mine;
    }
    if MadeBy(tb, k, id) {
      var a :| a in tb.allocations && a.ibkrTransactionId == k && a.transactionId == id;
      var i :| 0 <= i < |mine| && mine[i] == a;
      assert LinkedIds(mine)[i] == id;
    }
  }

  /** An entry is unallocated if and only if it is processed and no dividend reinvests one of its transactions. */
  lemma UnallocatedIff(tb: Tables, ib: IbkrTransaction)
    requires Consistent(tb) && ib in tb.inbox
    ensures var r := Unallocated(tb, ib.id);
            if ib.status != Processed then r == Err(AlreadyProcessed)
            else if exists v :: v in tb.dividends && v.reinvestment.Some? && MadeBy(tb, ib.id, v.reinvestment.value)
            then r == Err(ForeignKeyViolated)
            else r.Ok?
  {
    var ids := LinkedIds(PartsOfIbkr(tb, ib.id));
    FoundEntry(tb, ib.id);
    assert InboxOk(tb, ib.id);
    if ib.status == Processed {
      UnallocatedIs(tb, ib.id);
      forall id
        ensures id in ids <==> MadeBy(tb, ib.id, id)
      {
        MadeByIs(tb, ib.id, id);
      }
      assert AnyReinvested(tb, ids) <==>
        exists v :: v in tb.dividends && v.reinvestment.Some? && MadeBy(tb, ib.id, v.reinvestment.value);
    }
  }

  /** The entry's transactions go with their gains and links, and it is pending again; nothing else changes. */
  lemma UnallocatedRows(tb: Tables, k: Id)
    requires Consistent(tb) && Unallocated(tb, k).Ok?
    ensures var after := Unallocated(tb, k).value;
            && after.transactions == Filter((t: Transaction) => !MadeBy(tb, k, t.id), tb.transactions)
            && after.gains == Filter((g: RealizedGain) => !MadeBy(tb, k, g.transactionId), tb.gains)
            && after.allocations == Filter((a: Allocation) => a.ibkrTransactionId != k, tb.allocations)
            && OnlyStatus(tb.inbox, after.inbox, k, Pending, None)
            && after == tb.(transactions := after.transactions, gains := after.gains,
                            allocations := after.allocations, inbox := after.inbox)
  {
    var ids := LinkedIds(PartsOfIbkr(tb, k));
    UnallocatedIs(tb, k);
    forall id
      ensures id in ids <==> MadeBy(tb, k, id)
    {
      MadeByIs(tb, k, id);
    }
    forall a | a in tb.allocations
      ensures LinkNotIn(ids)(a) <==> a.ibkrTransactionId != k
    {
      OwnLinks(tb, k, a);
    }
    FilterSame((t: Transaction) => !MadeBy(tb, k, t.id), RowNotIn(ids), tb.transactions);
    FilterSame((g: RealizedGain) => !MadeBy(tb, k, g.transactionId), GainNotIn(ids), tb.gains);
    FilterSame((a: Allocation) => a.ibkrTransactionId != k, LinkNotIn(ids), tb.allocations);
  }

  // --------------------------------------------------- ignoring and deleting

  /** A pending entry is ignored, and nothing else changes; an entry that is not pending is refused. */
  lemma IgnoredIs(tb: Tables, ib: IbkrTransaction)
    requires Consistent(tb) && ib in tb.inbox
    ensures var r := IgnoredOne(tb, ib.id);
            if ib.status == Pending then
              r.Ok? && r.value == tb.(inbox := r.value.inbox)
              && OnlyStatus(tb.inbox, r.value.inbox, ib.id, Ignored, None)
            else r == Err(AlreadyProcessed)
  {
    FoundEntry(tb, ib.id);
  }

  /** A pending entry is deleted, and nothing else changes; an entry that is not pending is refused. */
  lemma DeletedEntryIs(tb: Tables, ib: IbkrTransaction)
    requires Consistent(tb) && ib in tb.inbox
    ensures Dropped(tb, ib.id) ==
            if ib.status == Pending then Ok(tb.(inbox := Filter((x: IbkrTransaction) => x.id != ib.id, tb.inbox)))
            else Err(AlreadyProcessed)
  {
    FoundEntry(tb, ib.id);
    if ib.status == Pending {
      DroppedIs(tb, ib.id);
      FilterSame((x: IbkrTransaction) => x.id != ib.id, NotIbkr(ib.id), tb.inbox);
    }
  }

  // -------------------------------------------------------------- importing

  ghost predicate InInbox(tb: Tables, line: ReportLine)
  {
    exists ib :: ib in tb.inbox && ib.ibkrId == line.ibkrId
  }

  /** The lines of a report that the inbox does not have yet. */
  ghost function NewLines(tb: Tables, report: seq<ReportLine>): seq<ReportLine>
  {
    Filter((line: ReportLine) => !InInbox(tb, line), report)
  }

  /** The figure without its sign. */
  predicate Unsigned(x: real, y: real)
  {
    x >= 0.0 && (x == y || x == 0.0 - y)
  }

  /** A pending entry with the line's figures; what the broker signs by direction is stored unsigned. */
  predicate EntryOf(ib: IbkrTransaction, line: ReportLine, id: Id)
  {
    && ib.id == id && ib.ibkrId == line.ibkrId && ib.date == line.date && ib.kind == line.kind
    && ib.isin == line.isin && ib.symbol == line.symbol && ib.price == line.price
    && Unsigned(ib.quantity, line.quantity) && Unsigned(ib.totalAmount, line.netCash)
    && Unsigned(ib.fees, line.commission)
    && ib.status == Pending && ib.processedAt == None
  }

  lemma {:induction false} LinesEntered(tb: Tables, lines: seq<ReportLine>)
    requires InsertLines(tb, lines).Ok?
    ensures var after := InsertLines(tb, lines).value;
            && after == tb.(inbox := after.inbox, nextId := tb.nextId + |lines|)
            && tb.inbox <= after.inbox && |after.inbox| == |tb.inbox| + |lines|
            && forall i :: 0 <= i < |lines| ==> EntryOf(after.inbox[|tb.inbox| + i], lines[i], tb.nextId + i)
  {
    if lines != [] {
      LinesEntered(tb, lines[..|lines| - 1]);
    }
  }

  lemma NewLinesAre(tb: Tables, report: seq<ReportLine>)
    ensures Filter(Unknown(tb.inbox), report) == NewLines(tb, report)
  {
    forall line | line in report
      ensures Unknown(tb.inbox)(line) <==> !InInbox(tb, line)
    {
    }
    FilterSame(Unknown(tb.inbox), (line: ReportLine) => !InInbox(tb, line), report);
  }

  /** Importing appends a pending entry for each new line, in the report's order; nothing else changes. */
  lemma ImportedRows(tb: Tables, report: seq<ReportLine>)
    requires AfterImport(tb, report).Ok?
    ensures var after, lines := AfterImport(tb, report).value, NewLines(tb, report);
            && after == tb.(inbox := after.inbox, nextId := tb.nextId + |lines|)
            && tb.inbox <= after.inbox && |after.inbox| == |tb.inbox| + |lines|
            && forall i :: 0 <= i < |lines| ==> EntryOf(after.inbox[|tb.inbox| + i], lines[i], tb.nextId + i)
  {
    NewLinesAre(tb, report);
    LinesEntered(tb, NewLines(tb, report));
  }

  lemma {:induction false} OnlyUniqueFails(tb: Tables, lines: seq<ReportLine>)
    ensures InsertLines(tb, lines).Err? ==> InsertLines(tb, lines) == Err(UniqueViolated)
  {
    if lines != [] {
      OnlyUniqueFails(tb, lines[..|lines| - 1]);
    }
  }

  /** An import is refused, as a violation of UNIQUE, exactly when two new lines carry the same broker id. */
  lemma ImportedIff(tb: Tables, report: seq<ReportLine>)
    ensures var lines := NewLines(tb, report);
            if forall i, j :: 0 <= i < j < |lines| ==> lines[i].ibkrId != lines[j].ibkrId then
              AfterImport(tb, report).Ok?
            else AfterImport(tb, report) == Err(UniqueViolated)
  {
    var lines := NewLines(tb, report);
    NewLinesAre(tb, report);
    FilterMembers(Unknown(tb.inbox), report);
    ImportSucceedsIff(tb, lines);
    OnlyUniqueFails(tb, lines);
  }
}
