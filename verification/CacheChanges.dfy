/**
 What the service operations change and which regenerations they request: the rows they touch, where these
 are dated, and the portfolio funds they add.
 */
module CacheChanges {
  import opened Collections
  import opened Schema
  import opened FundHistory
  import opened FundHistoryService
  import opened Causality
  import opened MaterializedCache
  import opened CacheAgreement
  import opened CacheRequests
  import opened Transactions
  import opened Inbox
  import opened AllocationSplit
  import opened Consistency
  import opened TransactionInvariants
  import opened InboxInvariants
  import opened Operations

  // ------------------------------------------------------------ the requests

  function ForPf(from: Day, pfId: Id): Regeneration
  {
    Regeneration(from, Scope([], None, Some(pfId)))
  }

  /** One request for all the portfolios, unless there are none. */
  function ForPortfolios(from: Day, portfolioIds: seq<Id>): seq<Regeneration>
  {
    if portfolioIds == [] then [] else [Regeneration(from, Scope(FirstOccurrences(portfolioIds), None, None))]
  }

  function EntryDate(tb: Tables, k: Id): Day
  {
    match FindIbkr(tb, k)
    case Some(ib) => ib.date
    case None => 0
  }

  /** Regeneration starts at the earlier of the old and the new date, or at the date of the imported trade. */
  function RegenFrom(tb: Tables, op: Operation): Day
    requires Effect(tb, op).Ok?
  {
    match op
    case Create(req) => req.date
    case Update(id, req) =>
      var before := FindTransaction(tb, id).value;
      var after := Patched(before, req);
      if before.date < after.date then before.date else after.date
    case Delete(id) => FindTransaction(tb, id).value.date
    case Allocate(k, _, _) => EntryDate(tb, k)
    case Unallocate(k) => EntryDate(tb, k)
    case Modify(k, _, _) => EntryDate(tb, k)
    case _ => 0
  }

  /**
   The fund of the transaction and, when it moved, its old fund in a request of its own; the portfolios of
   the allocations made and removed together.
   */
  function Requests(tb: Tables, op: Operation): seq<Regeneration>
    requires Effect(tb, op).Ok?
  {
    var from := RegenFrom(tb, op);
    match op
    case Create(req) => [ForPf(from, req.pfId)]
    case Update(id, req) =>
      var before := FindTransaction(tb, id).value;
      var after := Patched(before, req);
      if before.pfId != after.pfId then [ForPf(from, after.pfId), ForPf(from, before.pfId)]
      else [ForPf(from, after.pfId)]
    case Delete(id) => [ForPf(from, FindTransaction(tb, id).value.pfId)]
    case Allocate(k, _, _) => ForPortfolios(from, NamedIn(PartsOfIbkr(Step(tb, op), k)))
    case Unallocate(k) => ForPortfolios(from, NamedIn(PartsOfIbkr(tb, k)))
    case Modify(k, _, _) =>
      ForPortfolios(from, NamedIn(PartsOfIbkr(Step(tb, op), k)) + NamedIn(PartsOfIbkr(tb, k)))
    case _ => []
  }

  lemma RequestsFrom(tb: Tables, op: Operation)
    requires Effect(tb, op).Ok?
    ensures AllFrom(Requests(tb, op), RegenFrom(tb, op))
  {
    match op
    case Allocate(k, _, _) => FirstOccurrencesDistinct(NamedIn(PartsOfIbkr(Step(tb, op), k)));
    case Unallocate(k) => FirstOccurrencesDistinct(NamedIn(PartsOfIbkr(tb, k)));
    case Modify(k, _, _) =>
      FirstOccurrencesDistinct(NamedIn(PartsOfIbkr(Step(tb, op), k)) + NamedIn(PartsOfIbkr(tb, k)));
    case _ =>
  }

  // --------------------------------------------------------------- the growth

  /** Portfolios, dividends and prices stay; portfolio funds and identifiers are only added. */
  ghost predicate Grows(tb: Tables, tb': Tables)
  {
    && tb'.portfolios == tb.portfolios && tb'.dividends == tb.dividends && tb'.prices == tb.prices
    && tb.portfolioFunds <= tb'.portfolioFunds && tb.nextId <= tb'.nextId
  }

  lemma {:induction false} LinesGrow(tb: Tables, lines: seq<ReportLine>)
    requires InsertLines(tb, lines).Ok?
    ensures Grows(tb, InsertLines(tb, lines).value)
    ensures InsertLines(tb, lines).value.portfolioFunds == tb.portfolioFunds
    ensures InsertLines(tb, lines).value.transactions == tb.transactions
    ensures InsertLines(tb, lines).value.gains == tb.gains
  {
    if lines != [] {
      LinesGrow(tb, lines[..|lines| - 1]);
    }
  }

  lemma AllocatedGrows(tb: Tables, k: Id, entries: seq<AllocationEntry>, now: int)
    requires Allocated(tb, k, entries, now).Ok?
    ensures Grows(tb, Allocated(tb, k, entries, now).value)
    ensures Allocated(tb, k, entries, now).value.gains == tb.gains
  {
    var ib := FindIbkr(tb, k).value;
    var fund := FindFund(tb.funds, ib.isin, ib.symbol).value;
    var pfs, txs, links := AllocateAllExtends(tb, ib, fund, Chosen(tb, entries));
  }

  lemma UnallocatedShape(tb: Tables, k: Id)
    requires Consistent(tb) && Unallocated(tb, k).Ok?
    ensures var ids := LinkedIds(PartsOfIbkr(tb, k));
            && !AnyReinvested(tb, ids)
            && Unallocated(tb, k).value == Without(tb, ids).(inbox := WithStatus(tb.inbox, k, Pending, None))
  {
    UnallocatedIs(tb, k);
  }

  lemma StepGrows(tb: Tables, op: Operation)
    requires Consistent(tb)
    ensures Grows(tb, Step(tb, op))
  {
    if Effect(tb, op).Ok? {
      match op
      case Create(req) =>
      case Update(id, req) =>
      case Delete(id) => DeletedShape(tb, id);
      case Import(report) => LinesGrow(tb, Filter(Unknown(tb.inbox), report));
      case Allocate(k, entries, now) => AllocatedGrows(tb, k, entries, now);
      case Unallocate(k) => UnallocatedShape(tb, k);
      case Modify(k, entries, now) =>
        UnallocatedShape(tb, k);
        AllocatedGrows(Unallocated(tb, k).value, k, entries, now);
      case Ignore(k) =>
      case Drop(k) =>
    }
  }

  /** Foreign keys: portfolio funds are of existing portfolios, dividends of existing portfolio funds. */
  ghost predicate References(tb: Tables)
  {
    && (forall pf :: pf in tb.portfolioFunds ==> pf.portfolioId in tb.portfolios)
    && (forall v :: v in tb.dividends ==> v.pfId in PfIds(tb.portfolioFunds))
  }

  lemma {:induction false} AllocateAllReferences(
    tb: Tables, ib: IbkrTransaction, fund: FundRow, entries: seq<AllocationEntry>)
    requires AllocateAll(tb, ib, fund, entries).Ok?
    requires forall pf :: pf in tb.portfolioFunds ==> pf.portfolioId in tb.portfolios
    ensures var after := AllocateAll(tb, ib, fund, entries).value;
            after.portfolios == tb.portfolios &&
            forall pf :: pf in after.portfolioFunds ==> pf.portfolioId in tb.portfolios
  {
    if entries != [] {
      AllocateAllReferences(tb, ib, fund, entries[..|entries| - 1]);
    }
  }

  lemma AllocatedReferences(tb: Tables, k: Id, entries: seq<AllocationEntry>, now: int)
    requires Allocated(tb, k, entries, now).Ok? && References(tb)
    ensures forall pf :: pf in Allocated(tb, k, entries, now).value.portfolioFunds ==> pf.portfolioId in tb.portfolios
  {
    var ib := FindIbkr(tb, k).value;
    var fund := FindFund(tb.funds, ib.isin, ib.symbol).value;
    AllocateAllReferences(tb, ib, fund, Chosen(tb, entries));
  }

  lemma StepReferences(tb: Tables, op: Operation)
    requires Consistent(tb) && References(tb)
    ensures References(Step(tb, op))
  {
    StepGrows(tb, op);
    var tb' := Step(tb, op);
    assert forall pf :: pf in tb.portfolioFunds ==> pf in tb'.portfolioFunds;
    if Effect(tb, op).Ok? {
      match op
      case Allocate(k, entries, now) => AllocatedReferences(tb, k, entries, now);
      case Modify(k, entries, now) =>
        UnallocatedShape(tb, k);
        AllocatedReferences(Unallocated(tb, k).value, k, entries, now);
      case Import(report) => LinesGrow(tb, Filter(Unknown(tb.inbox), report));
      case Delete(id) => DeletedShape(tb, id);
      case Unallocate(k) => UnallocatedShape(tb, k);
      case _ =>
    }
  }

  // ------------------------------------------------------- the changed rows

  /** The transactions an operation writes or removes. */
  function ChangedIds(tb: Tables, op: Operation): seq<Id>
    requires Effect(tb, op).Ok?
  {
    match op
    case Create(req) => [tb.nextId]
    case Update(id, req) => [id]
    case Delete(id) => [id]
    case Allocate(k, _, _) => LinkedIds(PartsOfIbkr(Step(tb, op), k))
    case Unallocate(k) => LinkedIds(PartsOfIbkr(tb, k))
    case Modify(k, _, _) => LinkedIds(PartsOfIbkr(tb, k)) + LinkedIds(PartsOfIbkr(Step(tb, op), k))
    case _ => []
  }

  lemma NotIdIsNotIn(ts: seq<Transaction>, gs: seq<RealizedGain>, id: Id)
    ensures Filter(RowNotIn([id]), ts) == Filter(NotId(id), ts)
    ensures Filter(GainNotIn([id]), gs) == Filter(NotOf(id), gs)
  {
    FilterSame(RowNotIn([id]), NotId(id), ts);
    FilterSame(GainNotIn([id]), NotOf(id), gs);
  }

  lemma LocalToOne(tb: Tables, tb': Tables, id: Id)
    requires Grows(tb, tb') && tb'.portfolioFunds == tb.portfolioFunds
    requires Filter(NotId(id), tb'.transactions) == Filter(NotId(id), tb.transactions)
    requires Filter(NotOf(id), tb'.gains) == Filter(NotOf(id), tb.gains)
    ensures SameBut(tb, tb', [id])
  {
    NotIdIsNotIn(tb.transactions, tb.gains, id);
    NotIdIsNotIn(tb'.transactions, tb'.gains, id);
  }

  lemma {:induction false} ReplacedElsewhere(ts: seq<Transaction>, t: Transaction)
    ensures Filter(NotId(t.id), Replaced(ts, t)) == Filter(NotId(t.id), ts)
  {
    if ts != [] {
      var replaced := Replaced(ts, t);
      assert replaced[1..] == Replaced(ts[1..], t);
      ReplacedElsewhere(ts[1..], t);
    }
  }

  lemma GainsElsewhere(tb: Tables, t: Transaction)
    requires Transactions.Booked(tb, t).Ok?
    ensures Filter(NotOf(t.id), Transactions.Booked(tb, t).value.gains) == Filter(NotOf(t.id), tb.gains)
  {
    var g, pf := BookedShape(tb, t);
    Appended(NotOf(t.id), tb.gains, g);
  }

  lemma CreatedIsLocal(tb: Tables, req: CreateRequest)
    requires Created(tb, req).Ok?
    ensures SameBut(tb, Created(tb, req).value, [tb.nextId])
  {
    var t := Transaction(tb.nextId, req.pfId, req.date, req.kind, req.shares, req.costPerShare);
    Appended(NotId(t.id), tb.transactions, t);
    if req.kind.Sell? {
      GainsElsewhere(WithTransaction(tb, t), t);
    }
    LocalToOne(tb, Created(tb, req).value, tb.nextId);
  }

  lemma UpdatedIsLocal(tb: Tables, id: Id, req: UpdateRequest)
    requires Updated(tb, id, req).Ok?
    ensures SameBut(tb, Updated(tb, id, req).value, [id])
  {
    var old_ := FindTransaction(tb, id).value;
    FoundRow(HasId(id), tb.transactions);
    var t := Patched(old_, req);
    ReplacedElsewhere(tb.transactions, t);
    Removed(NotOf(id), NotOf(id), tb.gains);
    if t.kind.Sell? {
      GainsElsewhere(if old_.kind.Sell? then Cleared(tb, id) else tb, t);
    }
    LocalToOne(tb, Updated(tb, id, req).value, id);
  }

  lemma DeletedIsLocal(tb: Tables, id: Id)
    requires Deleted(tb, id).Ok?
    ensures SameBut(tb, Deleted(tb, id).value, [id])
  {
    DeletedShape(tb, id);
    Removed(NotId(id), NotId(id), tb.transactions);
    Removed(NotOf(id), NotOf(id), tb.gains);
    LocalToOne(tb, Deleted(tb, id).value, id);
  }

  /** The old rows with the portfolio funds the operation adds. */
  function Widened(tb: Tables, tb': Tables): Tables
  {
    tb.(portfolioFunds := tb'.portfolioFunds, nextId := tb'.nextId)
  }

  lemma AllocatedIsLocal(tb: Tables, k: Id, entries: seq<AllocationEntry>, now: int)
    requires Consistent(tb) && Allocated(tb, k, entries, now).Ok?
    ensures var after := Allocated(tb, k, entries, now).value;
            var ids := LinkedIds(PartsOfIbkr(after, k));
            && SameBut(Widened(tb, after), after, ids)
            && forall id :: id in ids ==> tb.nextId <= id < after.nextId
  {
    var after := Allocated(tb, k, entries, now).value;
    var split, pfs, txs, links := AllocatedShape(tb, k, entries, now);
    assert PartsOfIbkr(after, k) == links;
    ExtensionRemoved(tb, split, k, pfs, txs, links);
    forall id | id in LinkedIds(links)
      ensures tb.nextId <= id < after.nextId
    {
      var i :| 0 <= i < |txs| && links[i].transactionId == id;
    }
    OlderRowsStay(tb, LinkedIds(links));
  }

  lemma UnallocatedIsLocal(tb: Tables, k: Id)
    requires Consistent(tb) && Unallocated(tb, k).Ok?
    ensures SameBut(tb, Unallocated(tb, k).value, LinkedIds(PartsOfIbkr(tb, k)))
  {
    var ids := LinkedIds(PartsOfIbkr(tb, k));
    UnallocatedShape(tb, k);
    Removed(RowNotIn(ids), RowNotIn(ids), tb.transactions);
    Removed(GainNotIn(ids), GainNotIn(ids), tb.gains);
  }

  lemma WiderLocal(tb: Tables, tb': Tables, ids: seq<Id>, more: seq<Id>)
    requires SameBut(tb, tb', ids) && forall id :: id in ids ==> id in more
    ensures SameBut(tb, tb', more)
  {
    FilterFilter(RowNotIn(more), RowNotIn(ids), RowNotIn(more), tb.transactions);
    FilterFilter(RowNotIn(more), RowNotIn(ids), RowNotIn(more), tb'.transactions);
    FilterFilter(GainNotIn(more), GainNotIn(ids), GainNotIn(more), tb.gains);
    FilterFilter(GainNotIn(more), GainNotIn(ids), GainNotIn(more), tb'.gains);
  }

  lemma ModifiedIsLocal(tb: Tables, k: Id, entries: seq<AllocationEntry>, now: int)
    requires Consistent(tb) && Modified(tb, k, entries, now).Ok?
    ensures var after := Modified(tb, k, entries, now).value;
            var new_ := LinkedIds(PartsOfIbkr(after, k));
            && SameBut(Widened(tb, after), after, LinkedIds(PartsOfIbkr(tb, k)) + new_)
            && forall id :: id in new_ ==> tb.nextId <= id < after.nextId
  {
    var mid, after := Unallocated(tb, k).value, Modified(tb, k, entries, now).value;
    var old_, new_ := LinkedIds(PartsOfIbkr(tb, k)), LinkedIds(PartsOfIbkr(after, k));
    UnallocatedConsistent(tb, k);
    UnallocatedShape(tb, k);
    UnallocatedIsLocal(tb, k);
    AllocatedIsLocal(mid, k, entries, now);
    WiderLocal(Widened(tb, after), Widened(mid, after), old_, old_ + new_);
    WiderLocal(Widened(mid, after), after, new_, old_ + new_);
  }

  /** Apart from new portfolio funds, an operation changes the transactions it names and their gains only. */
  lemma ChangeIsLocal(tb: Tables, op: Operation)
    requires Consistent(tb) && Effect(tb, op).Ok?
    ensures SameBut(Widened(tb, Step(tb, op)), Step(tb, op), ChangedIds(tb, op))
  {
    match op
    case Create(req) => CreatedIsLocal(tb, req);
    case Update(id, req) => UpdatedIsLocal(tb, id, req);
    case Delete(id) => DeletedIsLocal(tb, id);
    case Import(report) => LinesGrow(tb, Filter(Unknown(tb.inbox), report));
    case Allocate(k, entries, now) => AllocatedIsLocal(tb, k, entries, now);
    case Unallocate(k) => UnallocatedIsLocal(tb, k);
    case Modify(k, entries, now) => ModifiedIsLocal(tb, k, entries, now);
    case Ignore(k) =>
    case Drop(k) =>
  }

  lemma FreshNotReinvested(tb: Tables, id: Id)
    requires LedgerTables(tb) && id >= tb.nextId
    ensures !Reinvested(tb, id) && RowsOf(tb, id) == []
  {
    assert LedgerOk(tb, id);
  }

  /** Only an update can change a transaction that a dividend reinvests. */
  lemma NewlyReinvestedNever(tb: Tables, op: Operation)
    requires Consistent(tb) && Effect(tb, op).Ok? && !op.Update?
    ensures NotReinvested(tb, ChangedIds(tb, op))
  {
    match op
    case Create(req) => FreshNotReinvested(tb, tb.nextId);
    case Delete(id) =>
    case Allocate(k, entries, now) =>
      AllocatedIsLocal(tb, k, entries, now);
      AllFresh(tb, ChangedIds(tb, op));
    case Unallocate(k) => UnallocatedShape(tb, k);
    case Modify(k, entries, now) =>
      UnallocatedShape(tb, k);
      ModifiedIsLocal(tb, k, entries, now);
      AllFresh(tb, LinkedIds(PartsOfIbkr(Step(tb, op), k)));
    case _ =>
  }

  lemma AllFresh(tb: Tables, ids: seq<Id>)
    requires LedgerTables(tb) && forall id :: id in ids ==> id >= tb.nextId
    ensures NotReinvested(tb, ids)
    ensures forall t :: t in tb.transactions ==> t.id !in ids
  {
    forall id | id in ids
      ensures !Reinvested(tb, id)
    {
      FreshNotReinvested(tb, id);
    }
    forall t | t in tb.transactions
      ensures t.id !in ids
    {
      InOwnRows(tb, t);
    }
  }
}
