/**
 The regenerations an operation requests cover the rows it changes: their dates and their portfolios. New
 portfolio funds by themselves show nothing.
 */
module CacheCoverage {
  import opened Collections
  import opened Sorting
  import opened Schema
  import opened Rounding
  import opened FundHistory
  import opened FundHistoryService
  import opened Causality
  import opened MaterializedCache
  import opened CacheAgreement
  import opened CacheRequests
  import opened CacheChanges
  import opened Transactions
  import opened Inbox
  import opened AllocationSplit
  import opened Consistency
  import opened TransactionInvariants
  import opened InboxInvariants
  import opened Operations

  // ------------------------------------------------- what the rows refer to

  /** The transactions with an id, and their gains, are the one that Find returns and its own. */
  lemma OnlyFound(tb: Tables, id: Id)
    requires LedgerTables(tb)
    ensures forall t :: t in tb.transactions && t.id == id ==> FindTransaction(tb, id) == Some(t)
    ensures forall g :: g in tb.gains && g.transactionId == id ==>
              && FindTransaction(tb, id).Some?
              && FindPf(tb, FindTransaction(tb, id).value.pfId).Some?
              && Books(g, FindTransaction(tb, id).value, FindPf(tb, FindTransaction(tb, id).value.pfId).value)
  {
    forall t | t in tb.transactions && t.id == id
      ensures FindTransaction(tb, id) == Some(t)
    {
      InOwnRows(tb, t);
    }
    forall g | g in tb.gains && g.transactionId == id
      ensures FindTransaction(tb, id).Some? && FindPf(tb, FindTransaction(tb, id).value.pfId).Some?
      ensures Books(g, FindTransaction(tb, id).value, FindPf(tb, FindTransaction(tb, id).value.pfId).value)
    {
      InOwnGains(tb, g);
      assert LedgerOk(tb, id);
    }
  }

  lemma GainBacked(tb: Tables, g: RealizedGain) returns (t: Transaction, pf: PortfolioFund)
    requires LedgerTables(tb) && g in tb.gains
    ensures t in tb.transactions && t.id == g.transactionId && t.date == g.date
    ensures pf in tb.portfolioFunds && t.pfId == pf.id && pf.portfolioId == g.portfolioId && pf.fundId == g.fundId
  {
    var id := g.transactionId;
    OnlyFound(tb, id);
    FoundRow(HasId(id), tb.transactions);
    t := FindTransaction(tb, id).value;
    FoundRow(IsPf(t.pfId), tb.portfolioFunds);
    pf := FindPf(tb, t.pfId).value;
  }

  lemma AllGainsBacked(tb: Tables)
    requires LedgerTables(tb)
    ensures GainsBacked(tb)
  {
    forall g | g in tb.gains
      ensures exists t, pf :: t in tb.transactions && pf in tb.portfolioFunds && t.id == g.transactionId &&
                t.date == g.date && t.pfId == pf.id && pf.portfolioId == g.portfolioId && pf.fundId == g.fundId
    {
      var t, pf := GainBacked(tb, g);
    }
  }

  lemma PfIdsDistinct(tb: Tables)
    requires LedgerTables(tb)
    ensures DistinctPfIds(tb.portfolioFunds)
  {
    var pfs := tb.portfolioFunds;
    forall i, j | 0 <= i < j < |pfs|
      ensures pfs[i].id != pfs[j].id
    {
      assert PfOk(tb, pfs[i].id);
      if pfs[i].id == pfs[j].id {
        TwoKept(IsPf(pfs[i].id), pfs, i, j);
      }
    }
  }

  lemma FoundPfIs(tb: Tables, pf: PortfolioFund)
    requires LedgerTables(tb) && pf in tb.portfolioFunds
    ensures FindPf(tb, pf.id) == Some(pf)
  {
    PfIdsDistinct(tb);
    FilterMembers(IsPf(pf.id), tb.portfolioFunds);
    FoundRow(IsPf(pf.id), tb.portfolioFunds);
    assert pf in Filter(IsPf(pf.id), tb.portfolioFunds);
    SamePf(tb, pf, FindPf(tb, pf.id).value);
  }

  /** Every transaction is of a portfolio fund. */
  lemma OwnPf(tb: Tables, t: Transaction) returns (pf: PortfolioFund)
    requires LedgerTables(tb) && t in tb.transactions
    ensures FindPf(tb, t.pfId) == Some(pf) && pf in tb.portfolioFunds && pf.id == t.pfId
  {
    InOwnRows(tb, t);
    assert LedgerOk(tb, t.id);
    FoundRow(IsPf(t.pfId), tb.portfolioFunds);
    pf := FindPf(tb, t.pfId).value;
  }

  // ---------------------------------------------------------- the coverage

  ghost predicate Reached(tb: Tables, qs: seq<Regeneration>, portfolioId: Id)
  {
    exists q :: q in qs && Reaches(tb, q, portfolioId)
  }

  /** The rows with these ids are dated from r on, in portfolios that some regeneration reaches. */
  ghost predicate Covers(tb': Tables, qs: seq<Regeneration>, r: Day, tb: Tables, ids: seq<Id>)
  {
    forall t :: t in tb.transactions && t.id in ids ==> t.date >= r && CoversPf(tb', qs, t.pfId)
  }

  ghost predicate CoversPf(tb': Tables, qs: seq<Regeneration>, pfId: Id)
  {
    exists pf :: pf in tb'.portfolioFunds && pf.id == pfId && Reached(tb', qs, pf.portfolioId)
  }

  lemma ForPfCovers(tb': Tables, qs: seq<Regeneration>, from: Day, pfId: Id)
    requires ForPf(from, pfId) in qs && FindPf(tb', pfId).Some?
    ensures CoversPf(tb', qs, pfId)
  {
    var pf := FindPf(tb', pfId).value;
    FoundRow(IsPf(pfId), tb'.portfolioFunds);
    assert Reaches(tb', ForPf(from, pfId), pf.portfolioId);
  }

  lemma CreatedFound(tb: Tables, req: CreateRequest)
    requires LedgerTables(tb) && Created(tb, req).Ok?
    ensures FindTransaction(tb, tb.nextId).None?
    ensures FindTransaction(Created(tb, req).value, tb.nextId) ==
            Some(Transaction(tb.nextId, req.pfId, req.date, req.kind, req.shares, req.costPerShare))
  {
    FreshRecord(tb);
    InsertedRow(tb, Transaction(tb.nextId, req.pfId, req.date, req.kind, req.shares, req.costPerShare));
  }

  lemma UpdatedFound(tb: Tables, id: Id, req: UpdateRequest)
    requires LedgerTables(tb) && Updated(tb, id, req).Ok?
    ensures FindTransaction(Updated(tb, id, req).value, id) == Some(Patched(FindTransaction(tb, id).value, req))
  {
    var old_ := FindTransaction(tb, id).value;
    FoundRow(HasId(id), tb.transactions);
    assert LedgerOk(tb, id);
    RebookedOne(tb, old_, Patched(old_, req));
    ReplacedRows(tb.transactions, Patched(old_, req), id);
  }

  lemma DeletedFound(tb: Tables, id: Id)
    requires Deleted(tb, id).Ok?
    ensures FindTransaction(Deleted(tb, id).value, id).None?
  {
    DeletedShape(tb, id);
    Removed(HasId(id), NotId(id), tb.transactions);
  }

  /** One transaction: where it is found, it is dated from r on and its fund has a request. */
  lemma OneCovered(tb: Tables, tb': Tables, qs: seq<Regeneration>, r: Day, id: Id)
    requires LedgerTables(tb) && tb.portfolioFunds == tb'.portfolioFunds
    requires FindTransaction(tb, id).Some? ==>
               FindTransaction(tb, id).value.date >= r && ForPf(r, FindTransaction(tb, id).value.pfId) in qs
    ensures Covers(tb', qs, r, tb, [id])
  {
    forall t | t in tb.transactions && t.id in [id]
      ensures t.date >= r && CoversPf(tb', qs, t.pfId)
    {
      OnlyFound(tb, id);
      var pf := OwnPf(tb, t);
      ForPfCovers(tb', qs, r, t.pfId);
    }
  }

  lemma TransactionsCovered(tb: Tables, op: Operation)
    requires Consistent(tb) && OfTransactions(op) && Effect(tb, op).Ok?
    ensures Covers(Step(tb, op), Requests(tb, op), RegenFrom(tb, op), tb, ChangedIds(tb, op))
    ensures Covers(Step(tb, op), Requests(tb, op), RegenFrom(tb, op), Step(tb, op), ChangedIds(tb, op))
  {
    var tb', qs, r := Step(tb, op), Requests(tb, op), RegenFrom(tb, op);
    var id := ChangedIds(tb, op)[0];
    StepConsistent(tb, op);
    match op
    case Create(req) =>
      CreatedFound(tb, req);
      OneCovered(tb, tb', qs, r, id);
      OneCovered(tb', tb', qs, r, id);
    case Update(_, req) =>
      UpdatedFound(tb, id, req);
      OneCovered(tb, tb', qs, r, id);
      OneCovered(tb', tb', qs, r, id);
    case Delete(_) =>
      DeletedFound(tb, id);
      DeletedShape(tb, id);
      OneCovered(tb, tb', qs, r, id);
      OneCovered(tb', tb', qs, r, id);
  }

  /** The entry's transactions still are where the allocation put them, and not dated before the trade. */
  ghost predicate Faithful(tb: Tables, k: Id)
  {
    forall a, t ::
      a in tb.allocations && a.ibkrTransactionId == k && t in tb.transactions && t.id == a.transactionId ==>
        t.date >= EntryDate(tb, k) && OnPortfolio(tb.portfolioFunds, t.pfId, a.portfolioId)
  }

  lemma AllocatedPlaced(tb: Tables, k: Id, entries: seq<AllocationEntry>, now: int)
    returns (txs: seq<Transaction>, links: seq<Allocation>)
    requires Consistent(tb) && Allocated(tb, k, entries, now).Ok?
    ensures var after := Allocated(tb, k, entries, now).value;
            && PartsOfIbkr(after, k) == links
            && (forall t :: t in txs ==> t in after.transactions)
            && PlacedRight(after.portfolioFunds, EntryDate(tb, k), txs, links)
            && forall i :: 0 <= i < |txs| ==> links[i].transactionId == txs[i].id
  {
    var ib := FindIbkr(tb, k).value;
    FoundRow(HasIbkr(k), tb.inbox);
    var fund := FindFund(tb.funds, ib.isin, ib.symbol).value;
    var pfs;
    pfs, txs, links := AllocateAllExtends(tb, ib, fund, Chosen(tb, entries));
    ExtendedParts(tb, AllocateAll(tb, ib, fund, Chosen(tb, entries)).value, k, pfs, txs, links, k);
    assert InboxOk(tb, k);
    assert [] + links == links;
  }

  lemma PlacedFaithful(tb: Tables, k: Id, txs: seq<Transaction>, links: seq<Allocation>)
    requires LedgerTables(tb) && PartsOfIbkr(tb, k) == links && forall t :: t in txs ==> t in tb.transactions
    requires PlacedRight(tb.portfolioFunds, EntryDate(tb, k), txs, links)
    requires forall i :: 0 <= i < |txs| ==> links[i].transactionId == txs[i].id
    ensures Faithful(tb, k)
  {
    FilterMembers(ForIbkr(k), tb.allocations);
    forall a, t | a in tb.allocations && a.ibkrTransactionId == k && t in tb.transactions && t.id == a.transactionId
      ensures t.date >= EntryDate(tb, k) && OnPortfolio(tb.portfolioFunds, t.pfId, a.portfolioId)
    {
      assert a in links;
      var i :| 0 <= i < |links| && links[i] == a;
      InOwnRows(tb, t);
      InOwnRows(tb, txs[i]);
    }
  }

  lemma SameEntryDate(tb: Tables, k: Id, entries: seq<AllocationEntry>, now: int)
    requires Allocated(tb, k, entries, now).Ok?
    ensures EntryDate(Allocated(tb, k, entries, now).value, k) == EntryDate(tb, k)
  {
    var ib := FindIbkr(tb, k).value;
    var fund := FindFund(tb.funds, ib.isin, ib.symbol).value;
    var pfs, txs, links := AllocateAllExtends(tb, ib, fund, Chosen(tb, entries));
    EntryDateKept(tb.inbox, k, Processed, Some(now));
  }

  /** Allocating leaves the entry's transactions where the allocations say, dated with the trade. */
  lemma AllocatedFaithful(tb: Tables, k: Id, entries: seq<AllocationEntry>, now: int)
    requires Consistent(tb) && Allocated(tb, k, entries, now).Ok?
    ensures Faithful(Allocated(tb, k, entries, now).value, k)
    ensures EntryDate(Allocated(tb, k, entries, now).value, k) == EntryDate(tb, k)
  {
    SameEntryDate(tb, k, entries, now);
    AllocatedConsistent(tb, k, entries, now);
    var txs, links := AllocatedPlaced(tb, k, entries, now);
    PlacedFaithful(Allocated(tb, k, entries, now).value, k, txs, links);
  }

  lemma {:induction false} EntryDateKept(inbox: seq<IbkrTransaction>, k: Id, status: Status, at: Option<int>)
    ensures var before, after := Filter(HasIbkr(k), inbox), Filter(HasIbkr(k), WithStatus(inbox, k, status, at));
            |after| == |before| && forall i :: 0 <= i < |after| ==> after[i].date == before[i].date
  {
    if inbox != [] {
      assert WithStatus(inbox, k, status, at)[1..] == WithStatus(inbox[1..], k, status, at);
      EntryDateKept(inbox[1..], k, status, at);
    }
  }

  lemma ForPortfoliosReaches(tb': Tables, from: Day, portfolioIds: seq<Id>, p: Id)
    requires p in portfolioIds
    ensures Reached(tb', ForPortfolios(from, portfolioIds), p)
  {
    var q := ForPortfolios(from, portfolioIds)[0];
    assert p in FirstOccurrences(portfolioIds);
    assert Reaches(tb', q, p);
  }

  /** While an entry's allocation is faithful, a request for its portfolios covers its transactions. */
  lemma FaithfulCovered(tb: Tables, tb': Tables, k: Id, portfolioIds: seq<Id>)
    requires LedgerTables(tb) && Faithful(tb, k) && tb.portfolioFunds <= tb'.portfolioFunds
    requires forall p :: p in NamedIn(PartsOfIbkr(tb, k)) ==> p in portfolioIds
    ensures var r := EntryDate(tb, k);
            Covers(tb', ForPortfolios(r, portfolioIds), r, tb, LinkedIds(PartsOfIbkr(tb, k)))
  {
    var parts, r := PartsOfIbkr(tb, k), EntryDate(tb, k);
    FilterMembers(ForIbkr(k), tb.allocations);
    forall t | t in tb.transactions && t.id in LinkedIds(parts)
      ensures t.date >= r && CoversPf(tb', ForPortfolios(r, portfolioIds), t.pfId)
    {
      var i :| 0 <= i < |parts| && LinkedIds(parts)[i] == t.id;
      assert parts[i] in parts && NamedIn(parts)[i] == parts[i].portfolioId;
      assert OnPortfolio(tb.portfolioFunds, t.pfId, parts[i].portfolioId);
      var pf :| pf in tb.portfolioFunds && pf.id == t.pfId && pf.portfolioId == parts[i].portfolioId;
      assert pf in tb'.portfolioFunds;
      ForPortfoliosReaches(tb', r, portfolioIds, pf.portfolioId);
    }
  }

  lemma AllocationCovered(tb: Tables, k: Id, entries: seq<AllocationEntry>, now: int)
    requires Consistent(tb) && Allocated(tb, k, entries, now).Ok?
    ensures var op := Allocate(k, entries, now);
            && Covers(Step(tb, op), Requests(tb, op), RegenFrom(tb, op), tb, ChangedIds(tb, op))
            && Covers(Step(tb, op), Requests(tb, op), RegenFrom(tb, op), Step(tb, op), ChangedIds(tb, op))
  {
    var tb' := Allocated(tb, k, entries, now).value;
    AllocatedIsLocal(tb, k, entries, now);
    AllFresh(tb, LinkedIds(PartsOfIbkr(tb', k)));
    AllocatedFaithful(tb, k, entries, now);
    AllocatedConsistent(tb, k, entries, now);
    FaithfulCovered(tb', tb', k, NamedIn(PartsOfIbkr(tb', k)));
  }

  lemma UnallocationCovered(tb: Tables, k: Id)
    requires Consistent(tb) && Unallocated(tb, k).Ok? && Faithful(tb, k)
    ensures var op := Unallocate(k);
            && Covers(Step(tb, op), Requests(tb, op), RegenFrom(tb, op), tb, ChangedIds(tb, op))
            && Covers(Step(tb, op), Requests(tb, op), RegenFrom(tb, op), Step(tb, op), ChangedIds(tb, op))
  {
    UnallocatedShape(tb, k);
    FilterMembers(RowNotIn(LinkedIds(PartsOfIbkr(tb, k))), tb.transactions);
    FaithfulCovered(tb, Unallocated(tb, k).value, k, NamedIn(PartsOfIbkr(tb, k)));
  }

  lemma UnallocatedKeepsDate(tb: Tables, k: Id)
    requires Consistent(tb) && Unallocated(tb, k).Ok?
    ensures EntryDate(Unallocated(tb, k).value, k) == EntryDate(tb, k)
  {
    UnallocatedShape(tb, k);
    EntryDateKept(tb.inbox, k, Pending, None);
  }

  /** Of the removed transactions none is left; the new ones are where the new allocation put them. */
  lemma ModifiedFaithful(tb: Tables, k: Id, entries: seq<AllocationEntry>, now: int)
    requires Consistent(tb) && Modified(tb, k, entries, now).Ok?
    ensures var after := Modified(tb, k, entries, now).value;
            && LedgerTables(after) && Faithful(after, k) && EntryDate(after, k) == EntryDate(tb, k)
            && forall t :: t in after.transactions && t.id in LinkedIds(PartsOfIbkr(tb, k)) ==>
                 t.id in LinkedIds(PartsOfIbkr(after, k))
  {
    var mid, after := Unallocated(tb, k).value, Modified(tb, k, entries, now).value;
    var old_, new_ := LinkedIds(PartsOfIbkr(tb, k)), LinkedIds(PartsOfIbkr(after, k));
    UnallocatedShape(tb, k);
    UnallocatedConsistent(tb, k);
    UnallocatedKeepsDate(tb, k);
    AllocatedConsistent(mid, k, entries, now);
    AllocatedFaithful(mid, k, entries, now);
    AllocatedIsLocal(mid, k, entries, now);
    FilterMembers(RowNotIn(new_), mid.transactions);
    FilterMembers(RowNotIn(new_), after.transactions);
    FilterMembers(RowNotIn(old_), tb.transactions);
  }

  lemma ModificationCovered(tb: Tables, k: Id, entries: seq<AllocationEntry>, now: int)
    requires Consistent(tb) && Modified(tb, k, entries, now).Ok? && Faithful(tb, k)
    ensures var op := Modify(k, entries, now);
            && Covers(Step(tb, op), Requests(tb, op), RegenFrom(tb, op), tb, ChangedIds(tb, op))
            && Covers(Step(tb, op), Requests(tb, op), RegenFrom(tb, op), Step(tb, op), ChangedIds(tb, op))
  {
    var tb' := Modified(tb, k, entries, now).value;
    var named := NamedIn(PartsOfIbkr(tb', k)) + NamedIn(PartsOfIbkr(tb, k));
    StepGrows(tb, Modify(k, entries, now));
    ModifiedIsLocal(tb, k, entries, now);
    AllFresh(tb, LinkedIds(PartsOfIbkr(tb', k)));
    ModifiedFaithful(tb, k, entries, now);
    FaithfulCovered(tb, tb', k, named);
    FaithfulCovered(tb', tb', k, named);
  }

  /** What a change must keep for its regenerations to cover it. */
  ghost predicate Contained(tb: Tables, op: Operation)
  {
    match op
    case Update(id, _) => !Reinvested(tb, id)
    case Unallocate(k) => Faithful(tb, k)
    case Modify(k, _, _) => Faithful(tb, k)
    case _ => true
  }

  /**
   The requests of every operation reach the portfolios of all transactions it changes, before and after,
   from a day on or before their dates. For unallocating and modifying this needs the entry's
   transactions to be where the allocation put them.
   */
  lemma RequestsCover(tb: Tables, op: Operation)
    requires Consistent(tb) && Effect(tb, op).Ok? && Contained(tb, op)
    ensures Covers(Step(tb, op), Requests(tb, op), RegenFrom(tb, op), tb, ChangedIds(tb, op))
    ensures Covers(Step(tb, op), Requests(tb, op), RegenFrom(tb, op), Step(tb, op), ChangedIds(tb, op))
  {
    match op
    case Allocate(k, entries, now) => AllocationCovered(tb, k, entries, now);
    case Unallocate(k) => UnallocationCovered(tb, k);
    case Modify(k, entries, now) => ModificationCovered(tb, k, entries, now);
    case _ =>
      if OfTransactions(op) {
        TransactionsCovered(tb, op);
      }
  }

  lemma ContainedNotReinvested(tb: Tables, op: Operation)
    requires Consistent(tb) && Effect(tb, op).Ok? && Contained(tb, op)
    ensures NotReinvested(tb, ChangedIds(tb, op))
  {
    if !op.Update? {
      NewlyReinvestedNever(tb, op);
    }
  }

  // ------------------------------------------ what follows from the coverage

  /** Covered transactions and their gains are dated from r on. */
  lemma CoveredFrom(tb': Tables, qs: seq<Regeneration>, r: Day, tb: Tables, ids: seq<Id>)
    requires LedgerTables(tb) && Covers(tb', qs, r, tb, ids)
    ensures ChangedFrom(tb, ids, r)
  {
    forall g | g in tb.gains && g.transactionId in ids
      ensures g.date >= r
    {
      var t, pf := GainBacked(tb, g);
    }
  }

  lemma ReachedPf(tb': Tables, qs: seq<Regeneration>, pfId: Id, p: Id)
    requires DistinctPfIds(tb'.portfolioFunds) && CoversPf(tb', qs, pfId) && !Reached(tb', qs, p)
    ensures pfId !in PfIds(FundsOf(tb', p))
  {
    FilterMembers(InPortfolio(p), tb'.portfolioFunds);
    if pfId in PfIds(FundsOf(tb', p)) {
      var mine :| mine in FundsOf(tb', p) && mine.id == pfId;
      var pf :| pf in tb'.portfolioFunds && pf.id == pfId && Reached(tb', qs, pf.portfolioId);
      SamePf(tb', pf, mine);
    }
  }

  /** Nothing covered is in a portfolio that no regeneration reaches. */
  lemma CoveredElsewhere(tb': Tables, qs: seq<Regeneration>, r: Day, tb: Tables, ids: seq<Id>, p: Id)
    requires LedgerTables(tb) && LedgerTables(tb') && tb.portfolioFunds == tb'.portfolioFunds
    requires Covers(tb', qs, r, tb, ids) && !Reached(tb', qs, p)
    ensures forall t :: t in tb.transactions && t.id in ids ==> t.pfId !in PfIds(FundsOf(tb, p))
    ensures forall g :: g in tb.gains && g.transactionId in ids ==> g.portfolioId != p
  {
    PfIdsDistinct(tb');
    FilterMembers(InPortfolio(p), tb.portfolioFunds);
    forall t | t in tb.transactions && t.id in ids
      ensures t.pfId !in PfIds(FundsOf(tb, p))
    {
      ReachedPf(tb', qs, t.pfId, p);
    }
    forall g | g in tb.gains && g.transactionId in ids
      ensures g.portfolioId != p
    {
      var t, pf := GainBacked(tb, g);
      assert pf.portfolioId == p ==> pf in FundsOf(tb, p) && pf.id in PfIds(FundsOf(tb, p));
    }
  }

  // ------------------------------------------------- adding portfolio funds

  lemma WidenedPf(tb: Tables, tb': Tables, pfId: Id)
    requires tb.portfolioFunds <= tb'.portfolioFunds && FindPf(tb, pfId).Some?
    ensures FindPf(Widened(tb, tb'), pfId) == FindPf(tb, pfId)
  {
    var more := tb'.portfolioFunds[|tb.portfolioFunds|..];
    assert tb'.portfolioFunds == tb.portfolioFunds + more;
    FilterConcat(IsPf(pfId), tb.portfolioFunds, more);
  }

  lemma WidenedLedger(tb: Tables, tb': Tables)
    requires LedgerTables(tb) && LedgerTables(tb') && Grows(tb, tb')
    ensures LedgerTables(Widened(tb, tb'))
  {
    var wide := Widened(tb, tb');
    forall id: Id
      ensures LedgerOk(wide, id)
    {
      assert LedgerOk(tb, id);
      if RowsOf(tb, id) != [] {
        WidenedPf(tb, tb', RowsOf(tb, id)[0].pfId);
      }
    }
    forall id: Id ensures PfOk(wide, id) { assert PfOk(tb', id); }
    forall p: Id, f: Id ensures PairOk(wide, p, f) { assert PairOk(tb', p, f); }
  }

  /** A transaction is in a portfolio before the funds are added exactly when it is afterwards. */
  lemma SameOwner(tb: Tables, tb': Tables, p: Id, t: Transaction)
    requires LedgerTables(tb) && LedgerTables(tb') && Grows(tb, tb') && t in tb.transactions
    ensures t.pfId in PfIds(FundsOf(Widened(tb, tb'), p)) <==> t.pfId in PfIds(FundsOf(tb, p))
  {
    var wide := Widened(tb, tb');
    FilterMembers(InPortfolio(p), tb.portfolioFunds);
    FilterMembers(InPortfolio(p), tb'.portfolioFunds);
    var pf := OwnPf(tb, t);
    PfIdsDistinct(tb');
    assert pf in tb'.portfolioFunds;
    if t.pfId in PfIds(FundsOf(wide, p)) {
      var other :| other in FundsOf(wide, p) && other.id == t.pfId;
      SamePf(tb', pf, other);
    }
  }

  lemma WidenedOldest(tb: Tables, tb': Tables, p: Id)
    requires LedgerTables(tb) && LedgerTables(tb') && Grows(tb, tb')
    ensures Oldest(Widened(tb, tb'), p) == Oldest(tb, p)
  {
    forall t | t in tb.transactions
      ensures OfAny(PfIds(FundsOf(Widened(tb, tb'), p)))(t) == OfAny(PfIds(FundsOf(tb, p)))(t)
    {
      SameOwner(tb, tb', p, t);
    }
    FilterSame(OfAny(PfIds(FundsOf(Widened(tb, tb'), p))), OfAny(PfIds(FundsOf(tb, p))), tb.transactions);
  }

  lemma WidenedReadable(tb: Tables, tb': Tables, p: Id, today: Day)
    requires LedgerTables(tb) && LedgerTables(tb') && Grows(tb, tb')
    ensures Readable(Widened(tb, tb'), p, today) <==> Readable(tb, p, today)
  {
    forall t | t in tb.transactions
      ensures t.pfId in PfIds(FundsOf(Widened(tb, tb'), p)) <==> t.pfId in PfIds(FundsOf(tb, p))
    {
      SameOwner(tb, tb', p, t);
    }
  }

  /** An entry is computed from the rows loaded for its fund. */
  lemma SameLoads(data: PortfolioData, data': PortfolioData, pf: PortfolioFund, d: Day)
    requires Get(data.transactionsByPf, pf.id) == Get(data'.transactionsByPf, pf.id)
    requires Get(data.dividendsByPf, pf.id) == Get(data'.dividendsByPf, pf.id)
    requires Get(data.pricesByFund, pf.fundId) == Get(data'.pricesByFund, pf.fundId) && data.gains == data'.gains
    ensures EntryFor(data, pf, d) == EntryFor(data', pf, d)
  {
  }

  lemma StillInPortfolio(tb: Tables, tb': Tables, pf: PortfolioFund)
    requires tb.portfolioFunds <= tb'.portfolioFunds && pf in tb.portfolioFunds
    ensures pf in FundsOf(tb, pf.portfolioId) && pf in FundsOf(Widened(tb, tb'), pf.portfolioId)
  {
    FilterMembers(InPortfolio(pf.portfolioId), tb.portfolioFunds);
    FilterMembers(InPortfolio(pf.portfolioId), tb'.portfolioFunds);
    assert pf in tb'.portfolioFunds;
  }

  /** Adding portfolio funds alters no day of the others. */
  lemma WidenedOld(tb: Tables, tb': Tables, pf: PortfolioFund, d: Day, today: Day)
    requires LedgerTables(tb) && LedgerTables(tb') && Grows(tb, tb') && pf in tb.portfolioFunds
    ensures Oracle(Widened(tb, tb'), pf, d, today) == Oracle(tb, pf, d, today)
  {
    var wide := Widened(tb, tb');
    StillInPortfolio(tb, tb', pf);
    WidenedOldest(tb, tb', pf.portfolioId);
    LoadedKeys(tb, pf.portfolioId, today, pf);
    LoadedKeys(wide, pf.portfolioId, today, pf);
    SameLoads(Loaded(tb, pf.portfolioId, today), Loaded(wide, pf.portfolioId, today), pf, d);
  }

  /** The portfolio fund has no transactions, gains or dividends. */
  ghost predicate Unused(tb: Tables, pf: PortfolioFund)
  {
    && (forall t :: t in tb.transactions ==> t.pfId != pf.id)
    && (forall g :: g in tb.gains ==> !(g.portfolioId == pf.portfolioId && g.fundId == pf.fundId))
    && (forall v :: v in tb.dividends ==> v.pfId != pf.id)
  }

  lemma UnusedShowsNothing(tb: Tables, pf: PortfolioFund, d: Day, today: Day)
    requires pf in tb.portfolioFunds && Unused(tb, pf)
    ensures Oracle(tb, pf, d, today).None?
  {
    FilterMembers(InPortfolio(pf.portfolioId), tb.portfolioFunds);
    if d <= today {
      BlankEntry(tb, pf.portfolioId, today, pf, d);
    }
  }

  lemma NewUnused(tb: Tables, tb': Tables, pf: PortfolioFund)
    requires LedgerTables(tb) && LedgerTables(tb') && Grows(tb, tb') && References(tb)
    requires pf in tb'.portfolioFunds && pf !in tb.portfolioFunds
    ensures pf.id !in PfIds(tb.portfolioFunds) && Unused(Widened(tb, tb'), pf)
  {
    forall other | other in tb.portfolioFunds
      ensures other.id != pf.id && !(other.portfolioId == pf.portfolioId && other.fundId == pf.fundId)
    {
      PairsIdentify(tb', pf, other);
    }
    forall t | t in tb.transactions
      ensures t.pfId != pf.id
    {
      var own := OwnPf(tb, t);
    }
    forall g | g in tb.gains
      ensures !(g.portfolioId == pf.portfolioId && g.fundId == pf.fundId)
    {
      var t, own := GainBacked(tb, g);
    }
  }

  /** A right table stays right when portfolio funds are added. */
  lemma WidenedAgrees(tb: Tables, tb': Tables, cache: Cache, pf: PortfolioFund, today: Day)
    requires LedgerTables(tb) && LedgerTables(tb') && Grows(tb, tb') && References(tb) && Owned(tb, cache)
    requires pf in tb'.portfolioFunds && (pf in tb.portfolioFunds ==> Agrees(tb, cache, pf, today))
    ensures Agrees(Widened(tb, tb'), cache, pf, today)
  {
    forall d
      ensures Cached(cache, pf.id, d) == Oracle(Widened(tb, tb'), pf, d, today)
    {
      if pf in tb.portfolioFunds {
        WidenedOld(tb, tb', pf, d, today);
        assert Cached(cache, pf.id, d) == Oracle(tb, pf, d, today);
      } else {
        NewUnused(tb, tb', pf);
        UnusedShowsNothing(Widened(tb, tb'), pf, d, today);
      }
    }
  }

  // ---------------------------------------------- no more than is covered

  /** The row was written or removed by the operation. */
  ghost predicate Touched(tb: Tables, op: Operation, t: Transaction)
    requires Effect(tb, op).Ok?
  {
    (t in tb.transactions || t in Step(tb, op).transactions) && t.id in ChangedIds(tb, op)
  }

  /** Entering, updating and deleting regenerate from the earliest date of the row before and after, no earlier. */
  lemma RequestedFromEarliest(tb: Tables, op: Operation)
    requires Consistent(tb) && Effect(tb, op).Ok? && OfTransactions(op)
    ensures exists t :: Touched(tb, op, t) && t.date == RegenFrom(tb, op)
    ensures forall t :: Touched(tb, op, t) ==> t.date >= RegenFrom(tb, op)
  {
    match op
    case Create(req) =>
      var t := Step(tb, op).transactions[|tb.transactions|];
      assert t in Step(tb, op).transactions && Touched(tb, op, t);
      FreshRecord(tb);
      FilterMembers(HasId(tb.nextId), tb.transactions);
    case Update(id, req) =>
      FoundRow(HasId(id), tb.transactions);
      var before := FindTransaction(tb, id).value;
      var i :| 0 <= i < |tb.transactions| && tb.transactions[i] == before;
      var after := Step(tb, op).transactions[i];
      assert after == Patched(before, req);
      assert Touched(tb, op, before) && Touched(tb, op, after);
      forall t | Touched(tb, op, t)
        ensures t == before || t == after
      {
        if t in tb.transactions {
          InOwnRows(tb, t);
          InOwnRows(tb, before);
        }
      }
    case Delete(id) =>
      FoundRow(HasId(id), tb.transactions);
      var before := FindTransaction(tb, id).value;
      DeletedShape(tb, id);
      FilterMembers(NotId(id), tb.transactions);
      assert Touched(tb, op, before);
      forall t | Touched(tb, op, t)
        ensures t == before
      {
        InOwnRows(tb, t);
        InOwnRows(tb, before);
      }
  }

  /** They regenerate nothing but the portfolio funds the row is or was on. */
  lemma RequestedTouched(tb: Tables, op: Operation, q: Regeneration)
    requires Consistent(tb) && Effect(tb, op).Ok? && OfTransactions(op) && q in Requests(tb, op)
    ensures exists t :: Touched(tb, op, t) && q == Regeneration(RegenFrom(tb, op), Scope([], None, Some(t.pfId)))
  {
    match op
    case Create(req) =>
      var t := Step(tb, op).transactions[|tb.transactions|];
      assert t in Step(tb, op).transactions && Touched(tb, op, t);
    case Update(id, req) =>
      FoundRow(HasId(id), tb.transactions);
      var before := FindTransaction(tb, id).value;
      var i :| 0 <= i < |tb.transactions| && tb.transactions[i] == before;
      var after := Step(tb, op).transactions[i];
      assert after == Patched(before, req);
      assert Touched(tb, op, before) && Touched(tb, op, after);
    case Delete(id) =>
      FoundRow(HasId(id), tb.transactions);
      assert Touched(tb, op, FindTransaction(tb, id).value);
  }

  ghost predicate Named(tb: Tables, k: Id, portfolioId: Id)
  {
    exists a :: a in tb.allocations && a.ibkrTransactionId == k && a.portfolioId == portfolioId
  }

  lemma NamedAre(tb: Tables, k: Id, p: Id)
    ensures p in NamedIn(PartsOfIbkr(tb, k)) <==> Named(tb, k, p)
  {
    var parts := PartsOfIbkr(tb, k);
    FilterMembers(ForIbkr(k), tb.allocations);
    if p in NamedIn(parts) {
      var i :| 0 <= i < |parts| && NamedIn(parts)[i] == p;
      assert parts[i] in parts;
    }
    if Named(tb, k, p) {
      var a :| a in tb.allocations && a.ibkrTransactionId == k && a.portfolioId == p;
      var i :| 0 <= i < |parts| && parts[i] == a;
      assert NamedIn(parts)[i] == p;
    }
  }

  /** Inbox operations regenerate exactly the portfolios named by the allocations they remove or make. */
  lemma RequestedNamed(tb: Tables, op: Operation, k: Id, p: Id)
    requires Effect(tb, op).Ok?
    requires (op.Allocate? || op.Unallocate? || op.Modify?) && op.id == k
    ensures (exists q :: q in Requests(tb, op) && p in q.scope.portfolioIds) <==>
            (!op.Allocate? && Named(tb, k, p)) || (!op.Unallocate? && Named(Step(tb, op), k, p))
  {
    NamedAre(tb, k, p);
    NamedAre(Step(tb, op), k, p);
    var qs := Requests(tb, op);
    if qs != [] {
      assert forall q :: q in qs ==> q == qs[0];
      assert qs[0] in qs;
    }
  }

  /** Inbox operations regenerate from the date of the trade. */
  lemma RequestedFromTrade(tb: Tables, ib: IbkrTransaction, entries: seq<AllocationEntry>, now: int)
    requires Consistent(tb) && ib in tb.inbox
    ensures Effect(tb, Allocate(ib.id, entries, now)).Ok? ==> RegenFrom(tb, Allocate(ib.id, entries, now)) == ib.date
    ensures Effect(tb, Unallocate(ib.id)).Ok? ==> RegenFrom(tb, Unallocate(ib.id)) == ib.date
    ensures Effect(tb, Modify(ib.id, entries, now)).Ok? ==> RegenFrom(tb, Modify(ib.id, entries, now)) == ib.date
  {
    assert InboxOk(tb, ib.id);
    FilterMembers(HasIbkr(ib.id), tb.inbox);
    assert ib in Filter(HasIbkr(ib.id), tb.inbox);
  }
}
