/** Importing, allocating, unallocating, ignoring and deleting inbox entries keep the tables consistent. */
module InboxInvariants {
  import opened Collections
  import opened Schema
  import opened Transactions
  import opened Inbox
  import opened AllocationSplit
  import opened Consistency

  // -------------------------------------------------------------- allocating

  lemma LinkedRecord(tb: Tables, ib: IbkrTransaction, e: AllocationEntry, t: Transaction, amount: real, id: Id)
    requires LedgerTables(tb) && t.id == tb.nextId && FindPf(tb, t.pfId).Some?
    ensures LedgerOk(Linked(tb, ib, e, t, amount), id)
  {
    var after := Linked(tb, ib, e, t, amount);
    var link := Allocation(tb.nextId + 1, ib.id, e.portfolioId, e.percentage, amount, t.shares, t.id);
    assert LedgerOk(tb, id);
    Appended(HasId(id), tb.transactions, t);
    Appended(ForTransaction(id), tb.allocations, link);
    if id == t.id {
      FreshRecord(tb);
    } else {
      RecordKept(tb, after, id);
    }
  }

  lemma LinkedConsistent(tb: Tables, ib: IbkrTransaction, e: AllocationEntry, t: Transaction, amount: real)
    requires LedgerTables(tb) && t.id == tb.nextId && FindPf(tb, t.pfId).Some?
    ensures LedgerTables(Linked(tb, ib, e, t, amount))
  {
    var after := Linked(tb, ib, e, t, amount);
    forall id: Id ensures LedgerOk(after, id) { LinkedRecord(tb, ib, e, t, amount, id); }
    PfsKept(tb, after);
  }

  lemma PlacedConsistent(tb: Tables, ib: IbkrTransaction, e: AllocationEntry, pfId: Id)
    requires LedgerTables(tb) && FindPf(tb, pfId).Some?
    ensures LedgerTables(Placed(tb, ib, e, pfId))
  {
    var trade := Transaction(tb.nextId, pfId, ib.date, ib.kind, Portion(ib.quantity, e.percentage), ib.price);
    var amount := Portion(ib.totalAmount, e.percentage);
    LinkedConsistent(tb, ib, e, trade, amount);
    var traded := Linked(tb, ib, e, trade, amount);
    var fees := Portion(ib.fees, e.percentage);
    if fees > 0.0 {
      LinkedConsistent(traded, ib, e, Transaction(traded.nextId, pfId, ib.date, Fee, 0.0, fees), fees);
    }
  }

  lemma PairedRecord(tb: Tables, pf: PortfolioFund, tb': Tables, id: Id)
    requires tb' == tb.(portfolioFunds := tb.portfolioFunds + [pf], nextId := tb.nextId + 1)
    requires LedgerOk(tb, id)
    ensures LedgerOk(tb', id)
  {
    if RowsOf(tb, id) != [] {
      var pfId := RowsOf(tb, id)[0].pfId;
      Appended(IsPf(pfId), tb.portfolioFunds, pf);
      assert FindPf(tb', pfId) == FindPf(tb, pfId);
    }
  }

  lemma PairedConsistent(tb: Tables, portfolioId: Id, fundId: Id)
    requires LedgerTables(tb) && WithPair(tb, portfolioId, fundId).Ok?
    ensures LedgerTables(WithPair(tb, portfolioId, fundId).value)
  {
    if FindPair(tb, portfolioId, fundId).None? {
      var tb' := WithPair(tb, portfolioId, fundId).value;
      var pf := PortfolioFund(tb.nextId, portfolioId, fundId);
      forall id: Id ensures LedgerOk(tb', id) { PairedRecord(tb, pf, tb', id); }
      forall id: Id
        ensures PfOk(tb', id)
      {
        assert PfOk(tb, id);
        Appended(IsPf(id), tb.portfolioFunds, pf);
      }
      forall p: Id, f: Id
        ensures PairOk(tb', p, f)
      {
        assert PairOk(tb, p, f);
        Appended(IsPair(p, f), tb.portfolioFunds, pf);
      }
    }
  }

  lemma FoundPair(tb: Tables, portfolioId: Id, fundId: Id)
    requires FindPair(tb, portfolioId, fundId).Some?
    ensures FindPf(tb, FindPair(tb, portfolioId, fundId).value.id).Some?
  {
    var pf := FindPair(tb, portfolioId, fundId).value;
    FoundRow(IsPair(portfolioId, fundId), tb.portfolioFunds);
    FilterMembers(IsPf(pf.id), tb.portfolioFunds);
    assert pf in Filter(IsPf(pf.id), tb.portfolioFunds);
  }

  lemma OneConsistent(tb: Tables, ib: IbkrTransaction, fund: FundRow, e: AllocationEntry)
    requires LedgerTables(tb) && AllocateOne(tb, ib, fund, e).Ok?
    ensures LedgerTables(AllocateOne(tb, ib, fund, e).value)
  {
    PairedConsistent(tb, e.portfolioId, fund.id);
    var paired := WithPair(tb, e.portfolioId, fund.id).value;
    FoundPair(paired, e.portfolioId, fund.id);
    PlacedConsistent(paired, ib, e, FindPair(paired, e.portfolioId, fund.id).value.id);
  }

  lemma {:induction false} AllConsistent(
    tb: Tables, ib: IbkrTransaction, fund: FundRow, entries: seq<AllocationEntry>)
    requires LedgerTables(tb) && AllocateAll(tb, ib, fund, entries).Ok?
    ensures LedgerTables(AllocateAll(tb, ib, fund, entries).value)
  {
    if entries != [] {
      var n := |entries| - 1;
      AllConsistent(tb, ib, fund, entries[..n]);
      OneConsistent(AllocateAll(tb, ib, fund, entries[..n]).value, ib, fund, entries[n]);
    }
  }

  /** The new links belong to the allocated entry, and there is one. */
  lemma ExtendedParts(
    tb: Tables, after: Tables, ibId: Id,
    pfs: seq<PortfolioFund>, txs: seq<Transaction>, links: seq<Allocation>, k: Id)
    requires Extends(tb, after, ibId, pfs, txs, links)
    ensures PartsOfIbkr(after, k) == PartsOfIbkr(tb, k) + if k == ibId then links else []
  {
    FilterConcat(ForIbkr(k), tb.allocations, links);
    if k == ibId {
      FilterAll(ForIbkr(k), links);
    } else {
      FilterNone(ForIbkr(k), links);
    }
  }

  lemma StatusKeepsLedger(tb: Tables, id: Id, status: Status, at: Option<int>)
    requires LedgerTables(tb)
    ensures LedgerTables(tb.(inbox := WithStatus(tb.inbox, id, status, at)))
  {
    var after := tb.(inbox := WithStatus(tb.inbox, id, status, at));
    forall x: Id ensures LedgerOk(after, x) { assert LedgerOk(tb, x); RecordKept(tb, after, x); }
    PfsKept(tb, after);
  }

  lemma AllocatedEntry(tb: Tables, id: Id, entries: seq<AllocationEntry>, now: int, k: Id)
    requires Consistent(tb) && Allocated(tb, id, entries, now).Ok?
    ensures InboxOk(Allocated(tb, id, entries, now).value, k)
  {
    var after := Allocated(tb, id, entries, now).value;
    var ib := FindIbkr(tb, id).value;
    FoundRow(HasIbkr(id), tb.inbox);
    var fund := FindFund(tb.funds, ib.isin, ib.symbol).value;
    var pfs, txs, links := AllocateAllExtends(tb, ib, fund, Chosen(tb, entries));
    var split := AllocateAll(tb, ib, fund, Chosen(tb, entries)).value;
    ExtendedParts(tb, split, id, pfs, txs, links, k);
    StatusRows(split.inbox, id, Processed, Some(now), k);
    assert InboxOk(tb, k);
    if k != id {
      InboxKept(tb, after, k);
    }
  }

  lemma AllocatedConsistent(tb: Tables, id: Id, entries: seq<AllocationEntry>, now: int)
    requires Consistent(tb) && Allocated(tb, id, entries, now).Ok?
    ensures Consistent(Allocated(tb, id, entries, now).value)
  {
    var after := Allocated(tb, id, entries, now).value;
    var ib := FindIbkr(tb, id).value;
    var fund := FindFund(tb.funds, ib.isin, ib.symbol).value;
    AllConsistent(tb, ib, fund, Chosen(tb, entries));
    StatusKeepsLedger(AllocateAll(tb, ib, fund, Chosen(tb, entries)).value, id, Processed, Some(now));
    forall k: Id ensures InboxOk(after, k) { AllocatedEntry(tb, id, entries, now, k); }
  }

  // ------------------------------------------------------------ unallocating

  function LinkNotIn(ids: seq<Id>): Allocation -> bool
  {
    (a: Allocation) => a.transactionId !in ids
  }

  /** The tables without some transactions and everything that goes with them. */
  function Without(tb: Tables, ids: seq<Id>): Tables
  {
    tb.(transactions := Filter(RowNotIn(ids), tb.transactions),
        gains := Filter(GainNotIn(ids), tb.gains),
        allocations := Filter(LinkNotIn(ids), tb.allocations))
  }

  ghost predicate AnyReinvested(tb: Tables, ids: seq<Id>)
  {
    exists id :: id in ids && Reinvested(tb, id)
  }

  lemma WithoutOneMore(tb: Tables, ids: seq<Id>, id: Id)
    ensures var before := Without(tb, ids);
            Without(tb, ids + [id]) == tb.(
              transactions := Filter(NotId(id), before.transactions),
              gains := Filter(NotOf(id), before.gains),
              allocations := Filter(NotForTransaction(id), before.allocations))
  {
    FilterFilter(NotId(id), RowNotIn(ids), RowNotIn(ids + [id]), tb.transactions);
    FilterFilter(NotOf(id), GainNotIn(ids), GainNotIn(ids + [id]), tb.gains);
    FilterFilter(NotForTransaction(id), LinkNotIn(ids), LinkNotIn(ids + [id]), tb.allocations);
  }

  lemma WithoutNone(tb: Tables)
    ensures Without(tb, []) == tb
  {
    FilterAll(RowNotIn([]), tb.transactions);
    FilterAll(GainNotIn([]), tb.gains);
    FilterAll(LinkNotIn([]), tb.allocations);
  }

  /** Deleting distinct existing transactions one by one fails only on a reinvested one. */
  lemma {:induction false} DeleteRowsIs(tb: Tables, ids: seq<Id>)
    requires Distinct(ids) && forall id :: id in ids ==> RowsOf(tb, id) != []
    ensures DeleteRows(tb, ids) ==
            if AnyReinvested(tb, ids) then Err(ForeignKeyViolated) else Ok(Without(tb, ids))
  {
    if ids == [] {
      WithoutNone(tb);
    } else {
      var n := |ids| - 1;
      var init, last := ids[..n], ids[n];
      assert ids == init + [last];
      DeleteRowsIs(tb, init);
      if !AnyReinvested(tb, init) {
        assert last !in init;
        Removed(HasId(last), RowNotIn(init), tb.transactions);
        assert RowsOf(Without(tb, init), last) == RowsOf(tb, last);
        WithoutOneMore(tb, init, last);
      }
    }
  }

  lemma {:induction false} TwoKept<T>(keep: T -> bool, xs: seq<T>, i: nat, j: nat)
    requires i < j < |xs| && keep(xs[i]) && keep(xs[j])
    ensures |Filter(keep, xs)| >= 2
  {
    if i > 0 {
      TwoKept(keep, xs[1..], i - 1, j - 1);
    } else {
      FilterMembers(keep, xs[1..]);
      assert xs[1..][j - 1] == xs[j];
      assert xs[j] in Filter(keep, xs[1..]);
    }
  }

  lemma OneLink(tb: Tables, k: Id, x: Id)
    requires LedgerTables(tb)
    ensures |Filter(ForTransaction(x), PartsOfIbkr(tb, k))| <= 1
  {
    var both := (a: Allocation) => a.transactionId == x && a.ibkrTransactionId == k;
    FilterFilter(ForTransaction(x), ForIbkr(k), both, tb.allocations);
    FilterFilter(ForIbkr(k), ForTransaction(x), both, tb.allocations);
    assert LedgerOk(tb, x);
  }

  /** A transaction has one link at most, so the entry's links name distinct transactions. */
  lemma LinkedIdsDistinct(tb: Tables, k: Id)
    requires LedgerTables(tb)
    ensures Distinct(LinkedIds(PartsOfIbkr(tb, k)))
  {
    var mine := PartsOfIbkr(tb, k);
    forall i, j | 0 <= i < j < |mine|
      ensures mine[i].transactionId != mine[j].transactionId
    {
      OneLink(tb, k, mine[i].transactionId);
      if mine[i].transactionId == mine[j].transactionId {
        TwoKept(ForTransaction(mine[i].transactionId), mine, i, j);
      }
    }
  }

  /** The only link of a transaction that the entry made is the entry's own. */
  lemma OwnLinks(tb: Tables, k: Id, a: Allocation)
    requires LedgerTables(tb) && a in tb.allocations
    ensures a.transactionId in LinkedIds(PartsOfIbkr(tb, k)) <==> a.ibkrTransactionId == k
    ensures RowsOf(tb, a.transactionId) != []
  {
    var mine := PartsOfIbkr(tb, k);
    var x := a.transactionId;
    FilterMembers(ForIbkr(k), tb.allocations);
    FilterMembers(ForTransaction(x), tb.allocations);
    assert LedgerOk(tb, x) && a in LinksOf(tb, x);
    forall i | 0 <= i < |mine| && LinkedIds(mine)[i] == x
      ensures mine[i] == a
    {
      assert mine[i] in mine && mine[i] in LinksOf(tb, x);
    }
    if a.ibkrTransactionId == k {
      assert a in mine;
      var i :| 0 <= i < |mine| && mine[i] == a;
      assert LinkedIds(mine)[i] == x;
    }
  }

  lemma LinkedRows(tb: Tables, k: Id)
    requires LedgerTables(tb)
    ensures forall id :: id in LinkedIds(PartsOfIbkr(tb, k)) ==> RowsOf(tb, id) != []
  {
    var mine := PartsOfIbkr(tb, k);
    FilterMembers(ForIbkr(k), tb.allocations);
    forall i | 0 <= i < |mine|
      ensures RowsOf(tb, LinkedIds(mine)[i]) != []
    {
      assert mine[i] in mine;
      OwnLinks(tb, k, mine[i]);
    }
  }

  /** Unallocating removes the entry's transactions with their gains and links, and reopens the entry. */
  lemma UnallocatedIs(tb: Tables, k: Id)
    requires LedgerTables(tb) && FindIbkr(tb, k).Some? && FindIbkr(tb, k).value.status == Processed
    requires PartsOfIbkr(tb, k) != []
    ensures var ids := LinkedIds(PartsOfIbkr(tb, k));
            Unallocated(tb, k) ==
              if AnyReinvested(tb, ids) then Err(ForeignKeyViolated)
              else Ok(Without(tb, ids).(inbox := WithStatus(tb.inbox, k, Pending, None)))
  {
    var ids := LinkedIds(PartsOfIbkr(tb, k));
    var unlinked := tb.(allocations := Filter(NotForIbkr(k), tb.allocations));
    LinkedIdsDistinct(tb, k);
    LinkedRows(tb, k);
    assert forall id :: RowsOf(unlinked, id) == RowsOf(tb, id);
    DeleteRowsIs(unlinked, ids);
    assert AnyReinvested(unlinked, ids) <==> AnyReinvested(tb, ids);
    UnlinkedTwice(tb, k);
  }

  lemma UnlinkedTwice(tb: Tables, k: Id)
    requires LedgerTables(tb)
    ensures var ids := LinkedIds(PartsOfIbkr(tb, k));
            Filter(LinkNotIn(ids), Filter(NotForIbkr(k), tb.allocations)) == Filter(LinkNotIn(ids), tb.allocations)
  {
    var ids := LinkedIds(PartsOfIbkr(tb, k));
    forall a | a in tb.allocations
      ensures LinkNotIn(ids)(a) <==> NotForIbkr(k)(a)
    {
      OwnLinks(tb, k, a);
    }
    FilterFilter(LinkNotIn(ids), NotForIbkr(k), LinkNotIn(ids), tb.allocations);
  }

  lemma WithoutRecord(tb: Tables, ids: seq<Id>, id: Id)
    requires LedgerTables(tb) && !AnyReinvested(tb, ids)
    ensures LedgerOk(Without(tb, ids), id)
  {
    assert LedgerOk(tb, id);
    Removed(HasId(id), RowNotIn(ids), tb.transactions);
    Removed(BookedFor(id), GainNotIn(ids), tb.gains);
    Removed(ForTransaction(id), LinkNotIn(ids), tb.allocations);
    if id !in ids {
      RecordKept(tb, Without(tb, ids), id);
    }
  }

  lemma WithoutConsistent(tb: Tables, ids: seq<Id>)
    requires LedgerTables(tb) && !AnyReinvested(tb, ids)
    ensures LedgerTables(Without(tb, ids))
  {
    forall id: Id ensures LedgerOk(Without(tb, ids), id) { WithoutRecord(tb, ids, id); }
    PfsKept(tb, Without(tb, ids));
  }

  lemma WithoutParts(tb: Tables, k: Id, other: Id)
    requires LedgerTables(tb)
    ensures PartsOfIbkr(Without(tb, LinkedIds(PartsOfIbkr(tb, k))), other) ==
            if other == k then [] else PartsOfIbkr(tb, other)
  {
    var ids := LinkedIds(PartsOfIbkr(tb, k));
    forall a | a in tb.allocations
      ensures LinkNotIn(ids)(a) <==> a.ibkrTransactionId != k
    {
      OwnLinks(tb, k, a);
    }
    Removed(ForIbkr(other), LinkNotIn(ids), tb.allocations);
  }

  lemma UnallocatedConsistent(tb: Tables, k: Id)
    requires Consistent(tb) && Unallocated(tb, k).Ok?
    ensures Consistent(Unallocated(tb, k).value)
  {
    var ids := LinkedIds(PartsOfIbkr(tb, k));
    var after := Unallocated(tb, k).value;
    UnallocatedIs(tb, k);
    WithoutConsistent(tb, ids);
    StatusKeepsLedger(Without(tb, ids), k, Pending, None);
    forall other: Id
      ensures InboxOk(after, other)
    {
      assert InboxOk(tb, other);
      WithoutParts(tb, k, other);
      StatusRows(tb.inbox, k, Pending, None, other);
      if other != k {
        InboxKept(tb, after, other);
      }
    }
  }

  // --------------------------------------------- ignoring, deleting, importing

  lemma OnlyInbox(tb: Tables, after: Tables)
    requires LedgerTables(tb) && after == tb.(inbox := after.inbox, nextId := after.nextId) && tb.nextId <= after.nextId
    ensures LedgerTables(after)
  {
    forall x: Id ensures LedgerOk(after, x) { assert LedgerOk(tb, x); RecordKept(tb, after, x); }
    PfsKept(tb, after);
  }

  lemma IgnoredConsistent(tb: Tables, k: Id)
    requires Consistent(tb) && IgnoredOne(tb, k).Ok?
    ensures Consistent(IgnoredOne(tb, k).value)
  {
    var after := IgnoredOne(tb, k).value;
    OnlyInbox(tb, after);
    forall other: Id
      ensures InboxOk(after, other)
    {
      assert InboxOk(tb, other);
      StatusRows(tb.inbox, k, Ignored, None, other);
    }
  }

  /** A pending entry has no allocations for its deletion to cascade to. */
  lemma DroppedIs(tb: Tables, k: Id)
    requires Consistent(tb) && Dropped(tb, k).Ok?
    ensures Dropped(tb, k).value == tb.(inbox := Filter(NotIbkr(k), tb.inbox))
  {
    assert InboxOk(tb, k);
    FilterMembers(ForIbkr(k), tb.allocations);
    forall a | a in tb.allocations
      ensures NotForIbkr(k)(a)
    {
      assert a !in PartsOfIbkr(tb, k);
    }
    FilterAll(NotForIbkr(k), tb.allocations);
  }

  lemma DroppedConsistent(tb: Tables, k: Id)
    requires Consistent(tb) && Dropped(tb, k).Ok?
    ensures Consistent(Dropped(tb, k).value)
  {
    var after := Dropped(tb, k).value;
    DroppedIs(tb, k);
    OnlyInbox(tb, after);
    forall other: Id
      ensures InboxOk(after, other)
    {
      assert InboxOk(tb, other) && InboxOk(tb, k);
      Removed(HasIbkr(other), NotIbkr(k), tb.inbox);
    }
  }

  lemma InsertedLine(tb: Tables, line: ReportLine)
    requires Consistent(tb)
    ensures Consistent(tb.(inbox := tb.inbox + [Imported(tb.nextId, line)], nextId := tb.nextId + 1))
  {
    var after := tb.(inbox := tb.inbox + [Imported(tb.nextId, line)], nextId := tb.nextId + 1);
    OnlyInbox(tb, after);
    forall other: Id
      ensures InboxOk(after, other)
    {
      assert InboxOk(tb, other);
      Appended(HasIbkr(other), tb.inbox, Imported(tb.nextId, line));
    }
  }

  lemma {:induction false} InsertedLinesConsistent(tb: Tables, lines: seq<ReportLine>)
    requires Consistent(tb) && InsertLines(tb, lines).Ok?
    ensures Consistent(InsertLines(tb, lines).value)
  {
    if lines != [] {
      var n := |lines| - 1;
      InsertedLinesConsistent(tb, lines[..n]);
      InsertedLine(InsertLines(tb, lines[..n]).value, lines[n]);
    }
  }
}
