/**
 ibkr_service.go and ibkr_repository.go: the inbox of imported trades. The functions give the tables
 each operation commits; the service below them changes the tables step by step and rolls back.
 */
module Inbox {
  import opened Collections
  import opened Schema
  import opened Rounding
  import opened Transactions

  // -------------------------------------------------------- row operations

  function HasIbkr(id: Id): IbkrTransaction -> bool
  {
    (ib: IbkrTransaction) => ib.id == id
  }

  function NotIbkr(id: Id): IbkrTransaction -> bool
  {
    (ib: IbkrTransaction) => ib.id != id
  }

  function NotForIbkr(id: Id): Allocation -> bool
  {
    (a: Allocation) => a.ibkrTransactionId != id
  }

  function IsPair(portfolioId: Id, fundId: Id): PortfolioFund -> bool
  {
    (pf: PortfolioFund) => pf.portfolioId == portfolioId && pf.fundId == fundId
  }

  function FindIbkr(tb: Tables, id: Id): Option<IbkrTransaction>
  {
    First(Filter(HasIbkr(id), tb.inbox))
  }

  function FindPair(tb: Tables, portfolioId: Id, fundId: Id): Option<PortfolioFund>
  {
    First(Filter(IsPair(portfolioId, fundId), tb.portfolioFunds))
  }

  // ------------------------------------------------------- finding the fund

  /** A symbol up to its first dot. */
  function Stem(symbol: string): string
  {
    TakeWhile((c: char) => c != '.', symbol)
  }

  function WithIsin(isin: string): FundRow -> bool
  {
    (f: FundRow) => f.isin == isin
  }

  function WithStem(symbol: string): FundRow -> bool
  {
    (f: FundRow) => Stem(f.symbol) == symbol
  }

  /** By ISIN, then by ticker; a lookup with an empty key fails before the next one is tried. */
  function FindFund(funds: seq<FundRow>, isin: string, symbol: string): Result<FundRow, Error>
  {
    if isin == "" then Err(LookupKeyMissing)
    else match First(Filter(WithIsin(isin), funds))
      case Some(f) => Ok(f)
      case None =>
        if symbol == "" then Err(LookupKeyMissing)
        else match First(Filter(WithStem(symbol), funds))
          case Some(f) => Ok(f)
          case None => Err(FundNotMatched)
  }

  ghost predicate SomeFund(matches: FundRow -> bool, funds: seq<FundRow>)
  {
    exists f :: f in funds && matches(f)
  }

  /**
   What an imported trade identifies: a fund with its ISIN or, if there is none, one whose ticker up to the
   dot is its symbol. Nothing is found without an ISIN, even if the symbol would match.
   */
  ghost predicate Identified(funds: seq<FundRow>, isin: string, symbol: string, r: Result<FundRow, Error>)
  {
    var byIsin, bySymbol := SomeFund(WithIsin(isin), funds), SomeFund(WithStem(symbol), funds);
    match r
    case Ok(f) =>
      && f in funds && isin != ""
      && (f.isin == isin || (symbol != "" && Stem(f.symbol) == symbol && !byIsin))
    case Err(FundNotMatched) => isin != "" && symbol != "" && !byIsin && !bySymbol
    case Err(LookupKeyMissing) => isin == "" || (symbol == "" && !byIsin)
    case Err(_) => false
  }

  lemma FirstMatches(matches: FundRow -> bool, funds: seq<FundRow>)
    ensures var found := First(Filter(matches, funds));
            && (found.Some? <==> SomeFund(matches, funds))
            && (found.Some? ==> found.value in funds && matches(found.value))
  {
    FilterMembers(matches, funds);
    if Filter(matches, funds) != [] {
      assert Filter(matches, funds)[0] in Filter(matches, funds);
    }
  }

  /** The lookup finds what the trade identifies, and fails exactly when that is nothing. */
  lemma FindFundIdentifies(funds: seq<FundRow>, isin: string, symbol: string)
    ensures Identified(funds, isin, symbol, FindFund(funds, isin, symbol))
  {
    FirstMatches(WithIsin(isin), funds);
    FirstMatches(WithStem(symbol), funds);
  }

  // ------------------------------------------------------------- allocating

  /** A portfolio's part of an imported quantity, rounded to six decimals. */
  function Portion(total: Shares, percentage: Shares): (part: Shares)
    ensures Abs(part - total * (percentage / 100.0)) <= HalfUnit
  {
    var exact := total * (percentage / 100.0);
    RoundNonNegative(exact);
    RoundError(exact);
    Round(exact)
  }

  function WithPair(tb: Tables, portfolioId: Id, fundId: Id): Result<Tables, Error>
  {
    if FindPair(tb, portfolioId, fundId).Some? then Ok(tb)
    else if portfolioId !in tb.portfolios then Err(ForeignKeyViolated)
    else Ok(tb.(portfolioFunds := tb.portfolioFunds + [PortfolioFund(tb.nextId, portfolioId, fundId)],
                nextId := tb.nextId + 1))
  }

  /** One transaction and its link to the imported trade. */
  function Linked(tb: Tables, ib: IbkrTransaction, e: AllocationEntry, t: Transaction, amount: real): Tables
  {
    tb.(transactions := tb.transactions + [t],
        allocations := tb.allocations +
          [Allocation(tb.nextId + 1, ib.id, e.portfolioId, e.percentage, amount, t.shares, t.id)],
        nextId := tb.nextId + 2)
  }

  /** The trade of one portfolio and, when its fee does not round to zero, a fee transaction. */
  function Placed(tb: Tables, ib: IbkrTransaction, e: AllocationEntry, pfId: Id): Tables
  {
    var trade := Transaction(tb.nextId, pfId, ib.date, ib.kind, Portion(ib.quantity, e.percentage), ib.price);
    var traded := Linked(tb, ib, e, trade, Portion(ib.totalAmount, e.percentage));
    var fees := Portion(ib.fees, e.percentage);
    if fees > 0.0 then
      Linked(traded, ib, e, Transaction(traded.nextId, pfId, ib.date, Fee, 0.0, fees), fees)
    else traded
  }

  function AllocateOne(tb: Tables, ib: IbkrTransaction, fund: FundRow, e: AllocationEntry): Result<Tables, Error>
  {
    var paired :- WithPair(tb, e.portfolioId, fund.id);
    match FindPair(paired, e.portfolioId, fund.id)
    case None => Err(PortfolioFundNotFound)
    case Some(pf) => Ok(Placed(paired, ib, e, pf.id))
  }

  function AllocateAll(tb: Tables, ib: IbkrTransaction, fund: FundRow, entries: seq<AllocationEntry>)
    : Result<Tables, Error>
  {
    if entries == [] then Ok(tb)
    else
      var n := |entries| - 1;
      var before :- AllocateAll(tb, ib, fund, entries[..n]);
      AllocateOne(before, ib, fund, entries[n])
  }

  /** The requested split, or the configured default when none is requested. */
  function Chosen(tb: Tables, entries: seq<AllocationEntry>): seq<AllocationEntry>
  {
    if entries == [] then tb.defaultAllocations else entries
  }

  function Allocated(tb: Tables, id: Id, entries: seq<AllocationEntry>, now: int): Result<Tables, Error>
  {
    match FindIbkr(tb, id)
    case None => Err(NotFound)
    case Some(ib) =>
      if ib.status != Pending then Err(AlreadyProcessed)
      else if Chosen(tb, entries) == [] then Err(InvalidAllocations)
      else
        var fund :- FindFund(tb.funds, ib.isin, ib.symbol);
        var split :- AllocateAll(tb, ib, fund, Chosen(tb, entries));
        Ok(split.(inbox := WithStatus(split.inbox, id, Processed, Some(now))))
  }

  /** The portfolios that allocations name, one by one. */
  function NamedIn(allocations: seq<Allocation>): (ids: seq<Id>)
    ensures |ids| == |allocations|
    ensures forall i :: 0 <= i < |allocations| ==> ids[i] == allocations[i].portfolioId
  {
    seq(|allocations|, i requires 0 <= i < |allocations| => allocations[i].portfolioId)
  }

  // ----------------------------------------------------------- unallocating

  function LinkedIds(allocations: seq<Allocation>): (ids: seq<Id>)
    ensures |ids| == |allocations|
    ensures forall i :: 0 <= i < |allocations| ==> ids[i] == allocations[i].transactionId
  {
    seq(|allocations|, i requires 0 <= i < |allocations| => allocations[i].transactionId)
  }

  function DeleteRows(tb: Tables, ids: seq<Id>): Result<Tables, Error>
  {
    if ids == [] then Ok(tb)
    else
      var n := |ids| - 1;
      var before :- DeleteRows(tb, ids[..n]);
      DeleteRow(before, ids[n])
  }

  function Unallocated(tb: Tables, id: Id): Result<Tables, Error>
  {
    match FindIbkr(tb, id)
    case None => Err(NotFound)
    case Some(ib) =>
      var mine := Filter(ForIbkr(id), tb.allocations);
      if ib.status != Processed then Err(AlreadyProcessed)
      else if mine == [] then Err(NotFound)
      else
        var cleared :- DeleteRows(tb.(allocations := Filter(NotForIbkr(id), tb.allocations)), LinkedIds(mine));
        Ok(cleared.(inbox := WithStatus(cleared.inbox, id, Pending, None)))
  }

  /** Unallocates and allocates in one database transaction. */
  function Modified(tb: Tables, id: Id, entries: seq<AllocationEntry>, now: int): Result<Tables, Error>
  {
    var cleared :- Unallocated(tb, id);
    Allocated(cleared, id, entries, now)
  }

  // --------------------------------------------------- ignoring and deleting

  function IgnoredOne(tb: Tables, id: Id): Result<Tables, Error>
  {
    match FindIbkr(tb, id)
    case None => Err(NotFound)
    case Some(ib) =>
      if ib.status != Pending then Err(AlreadyProcessed)
      else Ok(tb.(inbox := WithStatus(tb.inbox, id, Ignored, None)))
  }

  /** DELETE of a pending entry, cascading to its allocations. */
  function Dropped(tb: Tables, id: Id): Result<Tables, Error>
  {
    match FindIbkr(tb, id)
    case None => Err(NotFound)
    case Some(ib) =>
      if ib.status != Pending then Err(AlreadyProcessed)
      else Ok(tb.(inbox := Filter(NotIbkr(id), tb.inbox),
                  allocations := Filter(NotForIbkr(id), tb.allocations)))
  }

  // ------------------------------------------------------------ importing

  datatype ReportLine = ReportLine(
    ibkrId: string, date: Day, isin: string, symbol: string, kind: Kind,
    quantity: real, price: real, netCash: real, commission: real)

  function Known(inbox: seq<IbkrTransaction>): set<string>
  {
    set ib | ib in inbox :: ib.ibkrId
  }

  function Unknown(inbox: seq<IbkrTransaction>): ReportLine -> bool
  {
    (line: ReportLine) => line.ibkrId !in Known(inbox)
  }

  function Imported(id: Id, line: ReportLine): IbkrTransaction
  {
    IbkrTransaction(id, line.ibkrId, line.date, line.isin, line.symbol, line.kind,
                    Abs(line.quantity), line.price, Abs(line.netCash), Abs(line.commission), Pending, None)
  }

  function InsertLines(tb: Tables, lines: seq<ReportLine>): Result<Tables, Error>
  {
    if lines == [] then Ok(tb)
    else
      var n := |lines| - 1;
      var before :- InsertLines(tb, lines[..n]);
      if lines[n].ibkrId in Known(before.inbox) then Err(UniqueViolated)
      else Ok(before.(inbox := before.inbox + [Imported(before.nextId, lines[n])], nextId := before.nextId + 1))
  }

  /** Inserts the lines of a report that are not in the inbox yet, all or none of them. */
  function AfterImport(tb: Tables, report: seq<ReportLine>): Result<Tables, Error>
  {
    InsertLines(tb, Filter(Unknown(tb.inbox), report))
  }

  // ---------------------------------------------------------------- service

  lemma {:induction false} AllocateFails(
    tb: Tables, ib: IbkrTransaction, fund: FundRow, entries: seq<AllocationEntry>, i: nat)
    requires i <= |entries| && AllocateAll(tb, ib, fund, entries[..i]).Err?
    ensures AllocateAll(tb, ib, fund, entries) == AllocateAll(tb, ib, fund, entries[..i])
  {
    if i == |entries| {
      assert entries[..i] == entries;
    } else {
      var init := entries[..|entries| - 1];
      assert init[..i] == entries[..i];
      AllocateFails(tb, ib, fund, init, i);
    }
  }

  lemma {:induction false} DeleteFails(tb: Tables, ids: seq<Id>, i: nat)
    requires i <= |ids| && DeleteRows(tb, ids[..i]).Err?
    ensures DeleteRows(tb, ids) == DeleteRows(tb, ids[..i])
  {
    if i == |ids| {
      assert ids[..i] == ids;
    } else {
      var init := ids[..|ids| - 1];
      assert init[..i] == ids[..i];
      DeleteFails(tb, init, i);
    }
  }

  lemma {:induction false} InsertLinesFails(tb: Tables, lines: seq<ReportLine>, i: nat)
    requires i <= |lines| && InsertLines(tb, lines[..i]).Err?
    ensures InsertLines(tb, lines) == InsertLines(tb, lines[..i])
  {
    if i == |lines| {
      assert lines[..i] == lines;
    } else {
      var init := lines[..|lines| - 1];
      assert init[..i] == lines[..i];
      InsertLinesFails(tb, init, i);
    }
  }

  lemma FilterNext<T>(keep: T -> bool, xs: seq<T>, i: nat)
    requires i < |xs|
    ensures Filter(keep, xs[..i + 1]) == Filter(keep, xs[..i]) + if keep(xs[i]) then [xs[i]] else []
  {
    assert xs[..i + 1] == xs[..i] + [xs[i]];
    FilterConcat(keep, xs[..i], [xs[i]]);
    FilterOne(keep, xs[i]);
  }

  function NoneOf(ids: seq<Id>): Id -> bool
  {
    (id: Id) => id !in ids
  }

  /** First occurrences of two lists: those of the first, then those of the second that are new. */
  lemma {:induction false} FirstOccurrencesOfBoth(a: seq<Id>, b: seq<Id>)
    ensures FirstOccurrences(a + b) == FirstOccurrences(a) + Filter(NoneOf(a), FirstOccurrences(b))
  {
    if b == [] {
      assert a + b == a;
    } else {
      var init, x := b[..|b| - 1], b[|b| - 1];
      assert (a + b)[..|a + b| - 1] == a + init;
      FirstOccurrencesOfBoth(a, init);
      FilterConcat(NoneOf(a), FirstOccurrences(init), [x]);
      FilterOne(NoneOf(a), x);
    }
  }

  class IbkrService {
    const db: Database

    constructor (db: Database)
      ensures this.db == db
    {
      this.db := db;
    }

    method FindFundByIsinOrSymbol(tx: Tables, isin: string, symbol: string) returns (r: Result<FundRow, Error>)
      ensures r == FindFund(tx.funds, isin, symbol) && Identified(tx.funds, isin, symbol, r)
    {
      FindFundIdentifies(tx.funds, isin, symbol);
      if isin == "" {
        return Err(LookupKeyMissing);
      }
      var byIsin := First(Filter(WithIsin(isin), tx.funds));
      if byIsin.Some? {
        return Ok(byIsin.value);
      }
      if symbol == "" {
        return Err(LookupKeyMissing);
      }
      var bySymbol := First(Filter(WithStem(symbol), tx.funds));
      if bySymbol.Some? {
        return Ok(bySymbol.value);
      }
      r := Err(FundNotMatched);
    }

    method AllocateEntry(before: Tables, ib: IbkrTransaction, fund: FundRow, e: AllocationEntry)
      returns (r: Result<Tables, Error>)
      ensures r == AllocateOne(before, ib, fund, e)
    {
      var tx := before;
      var pf := FindPair(tx, e.portfolioId, fund.id);
      if pf.None? {
        if e.portfolioId !in tx.portfolios {
          return Err(ForeignKeyViolated);
        }
        tx := tx.(portfolioFunds := tx.portfolioFunds + [PortfolioFund(tx.nextId, e.portfolioId, fund.id)],
                  nextId := tx.nextId + 1);
        pf := FindPair(tx, e.portfolioId, fund.id);
        if pf.None? {
          return Err(PortfolioFundNotFound);
        }
      }
      ghost var paired := tx;
      var allocatedAmount := Portion(ib.totalAmount, e.percentage);
      var allocatedShares := Portion(ib.quantity, e.percentage);
      var allocatedFees := Portion(ib.fees, e.percentage);
      var txn := Transaction(tx.nextId, pf.value.id, ib.date, ib.kind, allocatedShares, ib.price);
      var tradeAlloc := Allocation(
        tx.nextId + 1, ib.id, e.portfolioId, e.percentage, allocatedAmount, allocatedShares, txn.id);
      tx := tx.(transactions := tx.transactions + [txn], allocations := tx.allocations + [tradeAlloc],
                nextId := tx.nextId + 2);
      if allocatedFees > 0.0 {
        var feeTxn := Transaction(tx.nextId, pf.value.id, ib.date, Fee, 0.0, allocatedFees);
        var feeAlloc := Allocation(tx.nextId + 1, ib.id, e.portfolioId, e.percentage, allocatedFees, 0.0, feeTxn.id);
        tx := tx.(transactions := tx.transactions + [feeTxn], allocations := tx.allocations + [feeAlloc],
                  nextId := tx.nextId + 2);
      }
      assert tx == Placed(paired, ib, e, pf.value.id);
      r := Ok(tx);
    }

    method AllocateIbkrTransactionTx(before: Tables, id: Id, requested: seq<AllocationEntry>, now: int)
      returns (r: Result<Tables, Error>)
      ensures r == Allocated(before, id, requested, now)
    {
      var ib := FindIbkr(before, id);
      if ib.None? {
        return Err(NotFound);
      }
      if ib.value.status != Pending {
        return Err(AlreadyProcessed);
      }
      var allocations := requested;
      if |allocations| == 0 && |before.defaultAllocations| > 0 {
        allocations := before.defaultAllocations;
      }
      if |allocations| == 0 {
        return Err(InvalidAllocations);
      }
      var fund := FindFundByIsinOrSymbol(before, ib.value.isin, ib.value.symbol);
      if fund.Err? {
        return Err(fund.error);
      }
      var tx := before;
      var i := 0;
      while i < |allocations|
        invariant 0 <= i <= |allocations|
        invariant Ok(tx) == AllocateAll(before, ib.value, fund.value, allocations[..i])
      {
        assert allocations[..i + 1][..i] == allocations[..i];
        var placed := AllocateEntry(tx, ib.value, fund.value, allocations[i]);
        assert placed == AllocateAll(before, ib.value, fund.value, allocations[..i + 1]);
        if placed.Err? {
          AllocateFails(before, ib.value, fund.value, allocations, i + 1);
          return Err(placed.error);
        }
        tx := placed.value;
        i := i + 1;
      }
      assert allocations[..|allocations|] == allocations;
      r := Ok(tx.(inbox := WithStatus(tx.inbox, id, Processed, Some(now))));
    }

    method DeleteTransactions(before: Tables, ids: seq<Id>) returns (r: Result<Tables, Error>)
      ensures r == DeleteRows(before, ids)
    {
      var tx := before;
      var i := 0;
      while i < |ids|
        invariant 0 <= i <= |ids|
        invariant Ok(tx) == DeleteRows(before, ids[..i])
      {
        assert ids[..i + 1][..i] == ids[..i];
        var deleted := DeleteRow(tx, ids[i]);
        assert deleted == DeleteRows(before, ids[..i + 1]);
        if deleted.Err? {
          DeleteFails(before, ids, i + 1);
          return Err(deleted.error);
        }
        tx := deleted.value;
        i := i + 1;
      }
      assert ids[..|ids|] == ids;
      r := Ok(tx);
    }

    method UnallocateIbkrTransactionTx(before: Tables, id: Id) returns (r: Result<Tables, Error>)
      ensures r == Unallocated(before, id)
    {
      var ib := FindIbkr(before, id);
      if ib.None? {
        return Err(NotFound);
      }
      if ib.value.status != Processed {
        return Err(AlreadyProcessed);
      }
      var linked := Filter(ForIbkr(id), before.allocations);
      if |linked| == 0 {
        return Err(NotFound);
      }
      var ids := LinkedIds(linked);
      var tx := before.(allocations := Filter(NotForIbkr(id), before.allocations));
      var deleted := DeleteTransactions(tx, ids);
      if deleted.Err? {
        return Err(deleted.error);
      }
      tx := deleted.value;
      r := Ok(tx.(inbox := WithStatus(tx.inbox, id, Pending, None)));
    }

    method AllocateIbkrTransaction(id: Id, allocations: seq<AllocationEntry>, now: int) returns (r: Result<(), Error>)
      modifies db
      ensures var after := Allocated(old(db.tables), id, allocations, now);
              && (after.Ok? ==> r == Ok(()) && db.tables == after.value)
              && (after.Err? ==> r == Err(after.error) && db.tables == old(db.tables))
    {
      var tx := AllocateIbkrTransactionTx(db.tables, id, allocations, now);
      if tx.Err? {
        return Err(tx.error);
      }
      db.tables := tx.value;
      r := Ok(());
    }

    method UnallocateIbkrTransaction(id: Id) returns (r: Result<(), Error>)
      modifies db
      ensures var after := Unallocated(old(db.tables), id);
              && (after.Ok? ==> r == Ok(()) && db.tables == after.value)
              && (after.Err? ==> r == Err(after.error) && db.tables == old(db.tables))
    {
      var tx := UnallocateIbkrTransactionTx(db.tables, id);
      if tx.Err? {
        return Err(tx.error);
      }
      db.tables := tx.value;
      r := Ok(());
    }

    /** Unallocates and allocates; when either fails, nothing has changed. */
    method ModifyAllocations(id: Id, allocations: seq<AllocationEntry>, now: int) returns (r: Result<(), Error>)
      modifies db
      ensures var after := Modified(old(db.tables), id, allocations, now);
              && (after.Ok? ==> r == Ok(()) && db.tables == after.value)
              && (after.Err? ==> r == Err(after.error) && db.tables == old(db.tables))
    {
      var cleared := UnallocateIbkrTransactionTx(db.tables, id);
      if cleared.Err? {
        return Err(cleared.error);
      }
      var tx := AllocateIbkrTransactionTx(cleared.value, id, allocations, now);
      if tx.Err? {
        return Err(tx.error);
      }
      db.tables := tx.value;
      r := Ok(());
    }

    /** The portfolios that an entry's allocations name, each once. */
    method CollectPortfolioIds(tables: Tables, id: Id) returns (portfolioIds: seq<Id>)
      ensures portfolioIds == FirstOccurrences(NamedIn(Filter(ForIbkr(id), tables.allocations)))
    {
      var allocations := Filter(ForIbkr(id), tables.allocations);
      var seen: set<Id> := {};
      portfolioIds := [];
      for i := 0 to |allocations|
        invariant portfolioIds == FirstOccurrences(NamedIn(allocations)[..i])
        invariant seen == set p | p in portfolioIds
      {
        assert NamedIn(allocations)[..i + 1][..i] == NamedIn(allocations)[..i];
        var p := allocations[i].portfolioId;
        if p !in seen {
          seen := seen + {p};
          portfolioIds := portfolioIds + [p];
        }
      }
      assert NamedIn(allocations)[..|allocations|] == NamedIn(allocations);
    }

    /** The portfolios of the new allocations, then those of the removed ones that are not among them. */
    method MergePortfolioIds(tables: Tables, before: Tables, id: Id) returns (portfolioIds: seq<Id>)
      ensures portfolioIds ==
              FirstOccurrences(NamedIn(Filter(ForIbkr(id), tables.allocations)) +
                               NamedIn(Filter(ForIbkr(id), before.allocations)))
    {
      ghost var named := NamedIn(Filter(ForIbkr(id), tables.allocations));
      var oldPortfolioIds := CollectPortfolioIds(before, id);
      var newPortfolioIds := CollectPortfolioIds(tables, id);
      portfolioIds := newPortfolioIds;
      var i := 0;
      while i < |oldPortfolioIds|
        invariant 0 <= i <= |oldPortfolioIds|
        invariant portfolioIds == newPortfolioIds + Filter(NoneOf(named), oldPortfolioIds[..i])
      {
        FilterNext(NoneOf(named), oldPortfolioIds, i);
        if oldPortfolioIds[i] !in newPortfolioIds {
          portfolioIds := portfolioIds + [oldPortfolioIds[i]];
        }
        i := i + 1;
      }
      assert oldPortfolioIds[..i] == oldPortfolioIds;
      FirstOccurrencesOfBoth(named, NamedIn(Filter(ForIbkr(id), before.allocations)));
    }

    method IgnoreIbkrTransaction(id: Id) returns (r: Result<(), Error>)
      modifies db
      ensures var after := IgnoredOne(old(db.tables), id);
              && (after.Ok? ==> r == Ok(()) && db.tables == after.value)
              && (after.Err? ==> r == Err(after.error) && db.tables == old(db.tables))
    {
      var ib := FindIbkr(db.tables, id);
      if ib.None? {
        return Err(NotFound);
      }
      if ib.value.status != Pending {
        return Err(AlreadyProcessed);
      }
      db.tables := db.tables.(inbox := WithStatus(db.tables.inbox, id, Ignored, None));
      r := Ok(());
    }

    method DeleteIbkrTransaction(id: Id) returns (r: Result<(), Error>)
      modifies db
      ensures var after := Dropped(old(db.tables), id);
              && (after.Ok? ==> r == Ok(()) && db.tables == after.value)
              && (after.Err? ==> r == Err(after.error) && db.tables == old(db.tables))
    {
      var ib := FindIbkr(db.tables, id);
      if ib.None? {
        return Err(NotFound);
      }
      if ib.value.status != Pending {
        return Err(AlreadyProcessed);
      }
      db.tables := db.tables.(inbox := Filter(NotIbkr(id), db.tables.inbox),
                              allocations := Filter(NotForIbkr(id), db.tables.allocations));
      r := Ok(());
    }

    method AddIbkrTransactions(before: Tables, lines: seq<ReportLine>) returns (r: Result<Tables, Error>)
      ensures r == InsertLines(before, lines)
    {
      var tx := before;
      var i := 0;
      while i < |lines|
        invariant 0 <= i <= |lines|
        invariant Ok(tx) == InsertLines(before, lines[..i])
      {
        assert lines[..i + 1][..i] == lines[..i];
        if lines[i].ibkrId in Known(tx.inbox) {
          InsertLinesFails(before, lines, i + 1);
          return Err(UniqueViolated);
        }
        var line := lines[i];
        var imported := IbkrTransaction(
          tx.nextId, line.ibkrId, line.date, line.isin, line.symbol, line.kind, Abs(line.quantity), line.price,
          Abs(line.netCash), Abs(line.commission), Pending, None);
        tx := tx.(inbox := tx.inbox + [imported], nextId := tx.nextId + 1);
        i := i + 1;
      }
      assert lines[..|lines|] == lines;
      r := Ok(tx);
    }

    /** Imports what is missing and counts the imported and the skipped lines. */
    method ImportFlexReport(report: seq<ReportLine>) returns (r: Result<(nat, nat), Error>)
      modifies db
      ensures var after := AfterImport(old(db.tables), report);
              var missing := Filter(Unknown(old(db.tables).inbox), report);
              && (after.Ok? ==> r == Ok((|missing|, |report| - |missing|)) && db.tables == after.value)
              && (after.Err? ==> r == Err(after.error) && db.tables == old(db.tables))
    {
      var tables := db.tables;
      var missing: seq<ReportLine> := [];
      var i := 0;
      while i < |report|
        invariant 0 <= i <= |report|
        invariant missing == Filter(Unknown(tables.inbox), report[..i])
        invariant db.tables == tables
      {
        FilterNext(Unknown(tables.inbox), report, i);
        if report[i].ibkrId !in Known(tables.inbox) {
          missing := missing + [report[i]];
        }
        i := i + 1;
      }
      assert report[..|report|] == report;
      assert missing == Filter(Unknown(tables.inbox), report);
      if |missing| > 0 {
        var tx := AddIbkrTransactions(tables, missing);
        assert tx == AfterImport(tables, report);
        if tx.Err? {
          return Err(tx.error);
        }
        db.tables := tx.value;
      }
      r := Ok((|missing|, |report| - |missing|));
    }
  }
}
