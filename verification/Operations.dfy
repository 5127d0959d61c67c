/** Runs of all service operations: what holds in every state they reach, and which operations undo which. */
module Operations {
  import opened Collections
  import opened Schema
  import opened Transactions
  import opened Inbox
  import opened AllocationSplit
  import opened Consistency
  import opened TransactionInvariants
  import opened InboxInvariants

  datatype Operation =
    | Create(create: CreateRequest)
    | Update(id: Id, update: UpdateRequest)
    | Delete(id: Id)
    | Import(report: seq<ReportLine>)
    | Allocate(id: Id, entries: seq<AllocationEntry>, now: int)
    | Unallocate(id: Id)
    | Modify(id: Id, entries: seq<AllocationEntry>, now: int)
    | Ignore(id: Id)
    | Drop(id: Id)

  function Effect(tb: Tables, op: Operation): Result<Tables, Error>
  {
    match op
    case Create(req) => Created(tb, req)
    case Update(id, req) => Updated(tb, id, req)
    case Delete(id) => Deleted(tb, id)
    case Import(report) => AfterImport(tb, report)
    case Allocate(id, entries, now) => Allocated(tb, id, entries, now)
    case Unallocate(id) => Unallocated(tb, id)
    case Modify(id, entries, now) => Modified(tb, id, entries, now)
    case Ignore(id) => IgnoredOne(tb, id)
    case Drop(id) => Dropped(tb, id)
  }

  /** An operation that fails is rolled back. */
  function Step(tb: Tables, op: Operation): Tables
  {
    match Effect(tb, op)
    case Ok(after) => after
    case Err(_) => tb
  }

  function Run(tb: Tables, ops: seq<Operation>): Tables
  {
    Fold(Step, tb, ops)
  }

  /** Before the first operation there are only portfolios and funds. */
  lemma InitialTablesConsistent(tb: Tables)
    requires tb.transactions == [] && tb.gains == [] && tb.inbox == [] && tb.allocations == []
    requires forall v :: v in tb.dividends ==> v.reinvestment.None?
    requires forall id: Id :: PfOk(tb, id)
    requires forall p: Id, f: Id :: PairOk(tb, p, f)
    ensures Consistent(tb)
  {
    assert forall id: Id :: LedgerOk(tb, id) && InboxOk(tb, id);
  }

  lemma StepConsistent(tb: Tables, op: Operation)
    requires Consistent(tb)
    ensures Consistent(Step(tb, op))
  {
    if Effect(tb, op).Ok? {
      match op
      case Create(req) => CreatedConsistent(tb, req);
      case Update(id, req) => UpdatedConsistent(tb, id, req);
      case Delete(id) => DeletedConsistent(tb, id);
      case Import(report) => InsertedLinesConsistent(tb, Filter(Unknown(tb.inbox), report));
      case Allocate(id, entries, now) => AllocatedConsistent(tb, id, entries, now);
      case Unallocate(id) => UnallocatedConsistent(tb, id);
      case Modify(id, entries, now) =>
        UnallocatedConsistent(tb, id);
        AllocatedConsistent(Unallocated(tb, id).value, id, entries, now);
      case Ignore(id) => IgnoredConsistent(tb, id);
      case Drop(id) => DroppedConsistent(tb, id);
    }
  }

  /** Every run of the services, in any order, keeps the tables consistent. */
  lemma {:induction false} RunConsistent(tb: Tables, ops: seq<Operation>)
    requires Consistent(tb)
    ensures Consistent(Run(tb, ops))
    decreases |ops|
  {
    if ops != [] {
      StepConsistent(tb, ops[0]);
      RunConsistent(Step(tb, ops[0]), ops[1..]);
    }
  }

  // --------------------------------------------------- what the clauses say

  lemma InOwnRows(tb: Tables, t: Transaction)
    requires LedgerTables(tb) && t in tb.transactions
    ensures RowsOf(tb, t.id) == [t] && t.id < tb.nextId
  {
    FilterMembers(HasId(t.id), tb.transactions);
    assert t in RowsOf(tb, t.id);
    assert LedgerOk(tb, t.id);
    assert RowsOf(tb, t.id)[0] == t;
  }

  lemma InOwnGains(tb: Tables, g: RealizedGain)
    requires LedgerTables(tb) && g in tb.gains
    ensures GainsOf(tb, g.transactionId) == [g]
    ensures |RowsOf(tb, g.transactionId)| == 1
  {
    FilterMembers(BookedFor(g.transactionId), tb.gains);
    assert g in GainsOf(tb, g.transactionId);
    assert LedgerOk(tb, g.transactionId);
  }

  /**
   After any run: a transaction id is used once; a sale has exactly one gain and it is that sale's, unless
   an import allocated it, when it may have none; nothing else has a gain, and no gain is an orphan.
   */
  lemma GainLifecycle(tb: Tables, ops: seq<Operation>, t: Transaction)
    requires Consistent(tb) && t in Run(tb, ops).transactions
    ensures var after := Run(tb, ops);
            var gains := GainsOf(after, t.id);
            && RowsOf(after, t.id) == [t]
            && FindPf(after, t.pfId).Some?
            && (!t.kind.Sell? ==> gains == [])
            && (t.kind.Sell? && LinksOf(after, t.id) == [] ==> |gains| == 1)
            && (gains != [] ==> |gains| == 1 && t.kind.Sell? && Books(gains[0], t, FindPf(after, t.pfId).value))
  {
    RunConsistent(tb, ops);
    InOwnRows(Run(tb, ops), t);
    assert LedgerOk(Run(tb, ops), t.id);
  }

  predicate OfTransactions(op: Operation)
  {
    op.Create? || op.Update? || op.Delete?
  }

  lemma {:induction false} NoLinksAppear(tb: Tables, ops: seq<Operation>)
    requires tb.allocations == [] && forall op :: op in ops ==> OfTransactions(op)
    ensures Run(tb, ops).allocations == []
    decreases |ops|
  {
    if ops != [] {
      assert OfTransactions(ops[0]) && forall op :: op in ops[1..] ==> op in ops;
      NoLinksAppear(Step(tb, ops[0]), ops[1..]);
    }
  }

  /** Where nothing is imported, every sell has exactly one gain and nothing else has one. */
  lemma EverySaleHasOneGain(tb: Tables, ops: seq<Operation>, t: Transaction)
    requires Consistent(tb) && tb.allocations == [] && forall op :: op in ops ==> OfTransactions(op)
    requires t in Run(tb, ops).transactions
    ensures |GainsOf(Run(tb, ops), t.id)| == if t.kind.Sell? then 1 else 0
  {
    NoLinksAppear(tb, ops);
    GainLifecycle(tb, ops, t);
  }

  lemma NoOrphanGain(tb: Tables, ops: seq<Operation>, g: RealizedGain)
    requires Consistent(tb) && g in Run(tb, ops).gains
    ensures exists t, pf :: t in Run(tb, ops).transactions && pf in Run(tb, ops).portfolioFunds &&
              t.kind.Sell? && Books(g, t, pf)
  {
    var after := Run(tb, ops);
    RunConsistent(tb, ops);
    InOwnGains(after, g);
    var t := RowsOf(after, g.transactionId)[0];
    FoundRow(HasId(g.transactionId), after.transactions);
    FoundRow(IsPf(t.pfId), after.portfolioFunds);
    assert LedgerOk(after, g.transactionId);
    assert Books(g, t, FindPf(after, t.pfId).value);
  }

  /**
   After any run: an entry is processed if and only if it has an allocation, and every allocation points
   at an existing entry and an existing transaction, no two at the same one.
   */
  lemma InboxInvariant(tb: Tables, ops: seq<Operation>, ib: IbkrTransaction)
    requires Consistent(tb) && ib in Run(tb, ops).inbox
    ensures ib.status == Processed <==> exists a :: a in Run(tb, ops).allocations && a.ibkrTransactionId == ib.id
    ensures ib.status == Processed <==> ib.processedAt.Some?
  {
    var after := Run(tb, ops);
    RunConsistent(tb, ops);
    assert InboxOk(after, ib.id);
    FilterMembers(HasIbkr(ib.id), after.inbox);
    assert ib in Filter(HasIbkr(ib.id), after.inbox);
    FilterMembers(ForIbkr(ib.id), after.allocations);
    if ib.status == Processed {
      var parts := PartsOfIbkr(after, ib.id);
      assert parts[0] in parts;
    }
  }

  lemma AllocationsPoint(tb: Tables, ops: seq<Operation>, a: Allocation)
    requires Consistent(tb) && a in Run(tb, ops).allocations
    ensures exists t :: t in Run(tb, ops).transactions && t.id == a.transactionId
    ensures exists ib :: ib in Run(tb, ops).inbox && ib.id == a.ibkrTransactionId && ib.status == Processed
    ensures forall b :: b in Run(tb, ops).allocations && b.transactionId == a.transactionId ==> b == a
  {
    var after := Run(tb, ops);
    RunConsistent(tb, ops);
    OwnLinks(after, a.ibkrTransactionId, a);
    FoundRow(HasId(a.transactionId), after.transactions);
    assert RowsOf(after, a.transactionId)[0] in after.transactions;
    FilterMembers(ForIbkr(a.ibkrTransactionId), after.allocations);
    assert a in PartsOfIbkr(after, a.ibkrTransactionId);
    assert InboxOk(after, a.ibkrTransactionId);
    FoundRow(HasIbkr(a.ibkrTransactionId), after.inbox);
    assert LedgerOk(after, a.transactionId);
    FilterMembers(ForTransaction(a.transactionId), after.allocations);
    assert a in LinksOf(after, a.transactionId);
    assert forall b :: b in after.allocations && b.transactionId == a.transactionId ==>
      b in LinksOf(after, a.transactionId);
  }

  // ------------------------------------------- allocate, then unallocate

  lemma OlderRowsStay(tb: Tables, ids: seq<Id>)
    requires LedgerTables(tb) && forall id :: id in ids ==> id >= tb.nextId
    ensures Without(tb, ids) == tb
  {
    forall t | t in tb.transactions
      ensures RowNotIn(ids)(t)
    {
      InOwnRows(tb, t);
    }
    forall g | g in tb.gains
      ensures GainNotIn(ids)(g)
    {
      InOwnGains(tb, g);
      assert LedgerOk(tb, g.transactionId);
    }
    forall a | a in tb.allocations
      ensures LinkNotIn(ids)(a)
    {
      OwnLinks(tb, a.ibkrTransactionId, a);
      assert LedgerOk(tb, a.transactionId);
    }
    FilterAll(RowNotIn(ids), tb.transactions);
    FilterAll(GainNotIn(ids), tb.gains);
    FilterAll(LinkNotIn(ids), tb.allocations);
  }

  /** Removing what an extension added leaves the old ledger. */
  lemma ExtensionRemoved(
    tb: Tables, after: Tables, ibId: Id,
    pfs: seq<PortfolioFund>, txs: seq<Transaction>, links: seq<Allocation>)
    requires LedgerTables(tb) && Extends(tb, after, ibId, pfs, txs, links)
    ensures Without(after, LinkedIds(links)) == tb.(portfolioFunds := after.portfolioFunds, nextId := after.nextId)
  {
    var ids := LinkedIds(links);
    assert forall i :: 0 <= i < |ids| ==> ids[i] == txs[i].id;
    OlderRowsStay(tb, ids);
    FilterConcat(RowNotIn(ids), tb.transactions, txs);
    FilterConcat(LinkNotIn(ids), tb.allocations, links);
    forall t | t in txs
      ensures !RowNotIn(ids)(t)
    {
      var i :| 0 <= i < |txs| && txs[i] == t;
      assert ids[i] == t.id;
    }
    forall a | a in links
      ensures !LinkNotIn(ids)(a)
    {
      var i :| 0 <= i < |links| && links[i] == a;
      assert ids[i] == a.transactionId;
    }
    FilterNone(RowNotIn(ids), txs);
    FilterNone(LinkNotIn(ids), links);
    assert tb.transactions + [] == tb.transactions && tb.allocations + [] == tb.allocations;
  }

  lemma StatusRestored(tb: Tables, k: Id, now: int)
    requires InboxOk(tb, k) && FindIbkr(tb, k).Some? && FindIbkr(tb, k).value.status == Pending
    ensures WithStatus(WithStatus(tb.inbox, k, Processed, Some(now)), k, Pending, None) == tb.inbox
  {
    FilterMembers(HasIbkr(k), tb.inbox);
    forall i | 0 <= i < |tb.inbox| && tb.inbox[i].id == k
      ensures tb.inbox[i].status == Pending && tb.inbox[i].processedAt == None
    {
      assert tb.inbox[i] in Filter(HasIbkr(k), tb.inbox);
    }
  }

  /** Dividends that only name existing transactions. */
  ghost predicate ReferToRows(tb: Tables, ds: seq<DividendRow>)
  {
    forall v :: v in ds && v.reinvestment.Some? ==> RowsOf(tb, v.reinvestment.value) != []
  }

  lemma DividendsKeepLedger(tb: Tables, ds: seq<DividendRow>)
    requires LedgerTables(tb) && ReferToRows(tb, ds)
    ensures LedgerTables(tb.(dividends := ds))
  {
    var after := tb.(dividends := ds);
    forall id: Id
      ensures LedgerOk(after, id)
    {
      assert LedgerOk(tb, id);
    }
    PfsKept(tb, after);
  }

  lemma AllocatedShape(tb: Tables, k: Id, entries: seq<AllocationEntry>, now: int)
    returns (split: Tables, pfs: seq<PortfolioFund>, txs: seq<Transaction>, links: seq<Allocation>)
    requires Consistent(tb) && Allocated(tb, k, entries, now).Ok?
    ensures Extends(tb, split, k, pfs, txs, links) && txs != []
    ensures Allocated(tb, k, entries, now).value == split.(inbox := WithStatus(tb.inbox, k, Processed, Some(now)))
    ensures PartsOfIbkr(split, k) == links
  {
    var ib := FindIbkr(tb, k).value;
    FoundRow(HasIbkr(k), tb.inbox);
    var fund := FindFund(tb.funds, ib.isin, ib.symbol).value;
    split := AllocateAll(tb, ib, fund, Chosen(tb, entries)).value;
    pfs, txs, links := AllocateAllExtends(tb, ib, fund, Chosen(tb, entries));
    ExtendedParts(tb, split, k, pfs, txs, links, k);
    assert InboxOk(tb, k);
    assert [] + links == links;
  }

  /**
   Unallocating right after an allocation, with any dividends matched in between, restores every table:
   only the portfolio funds may have grown. It is refused if and only if a dividend was matched to one
   of the allocated transactions.
   */
  lemma AllocateUnallocateRoundTrip(
    tb: Tables, k: Id, entries: seq<AllocationEntry>, now: int, ds: seq<DividendRow>)
    requires Consistent(tb) && Allocated(tb, k, entries, now).Ok?
    requires ReferToRows(Allocated(tb, k, entries, now).value, ds)
    ensures var after := Allocated(tb, k, entries, now).value;
            var matched := after.(dividends := ds);
            Unallocated(matched, k) ==
              if AnyReinvested(matched, LinkedIds(PartsOfIbkr(after, k))) then Err(ForeignKeyViolated)
              else Ok(tb.(portfolioFunds := after.portfolioFunds, dividends := ds, nextId := after.nextId))
  {
    var after := Allocated(tb, k, entries, now).value;
    var matched := after.(dividends := ds);
    var split, pfs, txs, links := AllocatedShape(tb, k, entries, now);
    AllocatedConsistent(tb, k, entries, now);
    DividendsKeepLedger(after, ds);
    assert InboxOk(tb, k) && InboxOk(after, k);
    StatusRows(tb.inbox, k, Processed, Some(now), k);
    UnallocatedIs(matched, k);
    ExtensionRemoved(tb, split, k, pfs, txs, links);
    StatusRestored(tb, k, now);
  }

  lemma NewRowsNotReinvested(tb: Tables, split: Tables, k: Id,
    pfs: seq<PortfolioFund>, txs: seq<Transaction>, links: seq<Allocation>)
    requires LedgerTables(tb) && Extends(tb, split, k, pfs, txs, links)
    ensures !AnyReinvested(split, LinkedIds(links))
  {
    var ids := LinkedIds(links);
    forall id | id in ids
      ensures !Reinvested(split, id)
    {
      var i :| 0 <= i < |ids| && ids[i] == id;
      assert id == txs[i].id;
      assert LedgerOk(tb, id);
    }
  }

  /**
   Modifying an allocation is allocating the entry afresh, on tables that kept nothing of the first
   allocation but the portfolio funds it created.
   */
  lemma ModifyIsFreshAllocation(
    tb: Tables, k: Id, entries: seq<AllocationEntry>, now: int, entries': seq<AllocationEntry>, now': int)
    requires Consistent(tb) && Allocated(tb, k, entries, now).Ok?
    ensures var after := Allocated(tb, k, entries, now).value;
            Modified(after, k, entries', now') ==
            Allocated(tb.(portfolioFunds := after.portfolioFunds, nextId := after.nextId), k, entries', now')
  {
    var after := Allocated(tb, k, entries, now).value;
    var split, pfs, txs, links := AllocatedShape(tb, k, entries, now);
    AllocatedConsistent(tb, k, entries, now);
    NewRowsNotReinvested(tb, split, k, pfs, txs, links);
    forall v | v in tb.dividends && v.reinvestment.Some?
      ensures RowsOf(after, v.reinvestment.value) != []
    {
      assert LedgerOk(after, v.reinvestment.value);
    }
    assert after.(dividends := tb.dividends) == after;
    AllocateUnallocateRoundTrip(tb, k, entries, now, tb.dividends);
    assert tb.(portfolioFunds := after.portfolioFunds, dividends := tb.dividends, nextId := after.nextId) ==
           tb.(portfolioFunds := after.portfolioFunds, nextId := after.nextId);
  }

  // -------------------------------------------------------------- importing

  lemma KnownNext(inbox: seq<IbkrTransaction>, ib: IbkrTransaction)
    ensures Known(inbox + [ib]) == Known(inbox) + {ib.ibkrId}
  {
    assert forall x :: x in inbox + [ib] <==> x in inbox || x == ib;
  }

  lemma {:induction false} InsertedLinesKnown(tb: Tables, lines: seq<ReportLine>)
    requires InsertLines(tb, lines).Ok?
    ensures forall s :: s in Known(InsertLines(tb, lines).value.inbox) <==>
              s in Known(tb.inbox) || exists line :: line in lines && line.ibkrId == s
    ensures InsertLines(tb, lines).value ==
              tb.(inbox := InsertLines(tb, lines).value.inbox, nextId := tb.nextId + |lines|)
  {
    if lines != [] {
      var n := |lines| - 1;
      InsertedLinesKnown(tb, lines[..n]);
      assert lines == lines[..n] + [lines[n]];
      var before := InsertLines(tb, lines[..n]).value;
      KnownNext(before.inbox, Imported(before.nextId, lines[n]));
    }
  }

  /** Importing a report a second time imports nothing. */
  lemma ImportIsIdempotent(tb: Tables, report: seq<ReportLine>)
    requires AfterImport(tb, report).Ok?
    ensures AfterImport(AfterImport(tb, report).value, report) == AfterImport(tb, report)
  {
    var missing := Filter(Unknown(tb.inbox), report);
    var after := AfterImport(tb, report).value;
    InsertedLinesKnown(tb, missing);
    FilterMembers(Unknown(tb.inbox), report);
    FilterNone(Unknown(after.inbox), report);
  }

  /** An import goes through if and only if no two of its new lines carry the same broker id. */
  lemma {:induction false} ImportSucceedsIff(tb: Tables, lines: seq<ReportLine>)
    requires forall line :: line in lines ==> line.ibkrId !in Known(tb.inbox)
    ensures InsertLines(tb, lines).Ok? <==> forall i, j :: 0 <= i < j < |lines| ==> lines[i].ibkrId != lines[j].ibkrId
  {
    if lines != [] {
      var n := |lines| - 1;
      assert lines == lines[..n] + [lines[n]];
      ImportSucceedsIff(tb, lines[..n]);
      if InsertLines(tb, lines[..n]).Ok? {
        InsertedLinesKnown(tb, lines[..n]);
        assert lines[n].ibkrId in Known(InsertLines(tb, lines[..n]).value.inbox) <==>
               exists i :: 0 <= i < n && lines[i].ibkrId == lines[n].ibkrId;
      }
    }
  }
}
