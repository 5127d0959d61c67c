/**
 When creating, updating and deleting transactions succeed, with which error they fail otherwise, and what
 they leave in every table, row by row and field by field.
 */
module TransactionEffects {
  import opened Collections
  import opened Sorting
  import opened Schema
  import opened Ledger
  import opened Transactions
  import opened Inbox
  import opened Consistency
  import opened TransactionInvariants
  import opened Operations

  // ------------------------------------------------------ selling what is held

  /** What a transaction adds to the shares held; it takes some away when it is a sale. */
  function Moves(t: Transaction): real
  {
    match t.kind
    case Buy => t.shares
    case Dividend => t.shares
    case Sell => 0.0 - t.shares
    case Fee => 0.0
    case Other(_) => 0.0
  }

  predicate OtherOn(t: Transaction, pfId: Id, id: Id)
  {
    t.pfId == pfId && t.id != id
  }

  /** The shares all transactions of the portfolio fund but one leave, whatever their dates. */
  function HeldWithout(tb: Tables, pfId: Id, id: Id): real
  {
    Sum(Moves, Filter((t: Transaction) => OtherOn(t, pfId, id), tb.transactions))
  }

  ghost predicate SomeUnsupported(tb: Tables, pfId: Id, id: Id)
  {
    exists t :: t in tb.transactions && OtherOn(t, pfId, id) && t.kind.Other?
  }

  ghost predicate HasPortfolioFund(tb: Tables, pfId: Id)
  {
    exists pf :: pf in tb.portfolioFunds && pf.id == pfId
  }

  lemma FoundPf(tb: Tables, pfId: Id)
    ensures FindPf(tb, pfId).Some? <==> HasPortfolioFund(tb, pfId)
  {
    FilterMembers(IsPf(pfId), tb.portfolioFunds);
    if FindPf(tb, pfId).Some? {
      assert FindPf(tb, pfId).value in Filter(IsPf(pfId), tb.portfolioFunds);
    }
  }

  lemma OthersRead(tb: Tables, pfId: Id, id: Id)
    ensures multiset(Filter(NotId(id), OfPortfolioFund(tb, pfId))) ==
            multiset(Filter((t: Transaction) => OtherOn(t, pfId, id), tb.transactions))
  {
    var rows := Filter(HasPf(pfId), tb.transactions);
    SortMultiset(ByDate, rows);
    FilterPermutation(NotId(id), OfPortfolioFund(tb, pfId), rows);
    FilterFilter(NotId(id), HasPf(pfId), (t: Transaction) => OtherOn(t, pfId, id), tb.transactions);
  }

  lemma {:induction false} PositionMoves(p: Position, ts: seq<Transaction>)
    ensures Fold(PositionStep, p, ts).shares == p.shares + Sum(Moves, ts)
    decreases |ts|
  {
    if ts != [] {
      PositionMoves(PositionStep(p, ts[0]), ts[1..]);
    }
  }

  /** The position a sale is checked against: it can be counted unless an unsupported row is among the others. */
  lemma PositionRead(tb: Tables, pfId: Id, id: Id)
    ensures SomeUnsupported(tb, pfId, id) ==> PositionWithout(tb, pfId, id) == Err(UnsupportedKind)
    ensures !SomeUnsupported(tb, pfId, id) ==>
              PositionWithout(tb, pfId, id).Ok? &&
              PositionWithout(tb, pfId, id).value.shares == HeldWithout(tb, pfId, id)
  {
    var counted := Filter(NotId(id), OfPortfolioFund(tb, pfId));
    var others := Filter((t: Transaction) => OtherOn(t, pfId, id), tb.transactions);
    OthersRead(tb, pfId, id);
    FilterMembers((t: Transaction) => OtherOn(t, pfId, id), tb.transactions);
    assert forall t :: t in counted <==> t in multiset(counted);
    assert forall t :: t in others <==> t in multiset(others);
    SumPermutation(Moves, counted, others);
    PositionMoves(Position(0.0, 0.0), counted);
  }

  /** Why a sale is refused; nothing speaks against one of all the shares held. */
  ghost function SaleError(tb: Tables, pfId: Id, id: Id, shares: real): Option<Error>
  {
    if SomeUnsupported(tb, pfId, id) then Some(UnsupportedKind)
    else if HeldWithout(tb, pfId, id) < shares then Some(InsufficientShares)
    else if !HasPortfolioFund(tb, pfId) then Some(PortfolioFundNotFound)
    else None
  }

  lemma BookedIff(tb: Tables, t: Transaction)
    ensures match SaleError(tb, t.pfId, t.id, t.shares)
            case Some(e) => Booked(tb, t) == Err(e)
            case None => Booked(tb, t).Ok?
  {
    PositionRead(tb, t.pfId, t.id);
    FoundPf(tb, t.pfId);
  }

  // --------------------------------------------------------------- creating

  /** The fund's rows, without the one about to be entered, are all there are. */
  lemma HeldByAll(tb: Tables, t: Transaction)
    requires LedgerTables(tb) && t.id == tb.nextId
    ensures var inserted := WithTransaction(tb, t);
            && HeldWithout(inserted, t.pfId, t.id) == Sum(Moves, Filter(HasPf(t.pfId), tb.transactions))
            && (SomeUnsupported(inserted, t.pfId, t.id) <==>
                exists u :: u in tb.transactions && u.pfId == t.pfId && u.kind.Other?)
  {
    var keep := (u: Transaction) => OtherOn(u, t.pfId, t.id);
    Appended(keep, tb.transactions, t);
    forall u | u in tb.transactions
      ensures keep(u) <==> HasPf(t.pfId)(u)
    {
      InOwnRows(tb, u);
    }
    FilterSame(keep, HasPf(t.pfId), tb.transactions);
    assert forall u :: u in tb.transactions + [t] <==> u in tb.transactions || u == t;
    assert forall u :: u in tb.transactions ==> keep(u) == HasPf(t.pfId)(u);
  }

  /** Why a creation is refused. */
  ghost function CreateError(tb: Tables, req: CreateRequest): Option<Error>
  {
    if forall pf :: pf in tb.portfolioFunds ==> pf.id != req.pfId then Some(PortfolioFundNotFound)
    else if !req.kind.Sell? then None
    else if exists t :: t in tb.transactions && t.pfId == req.pfId && t.kind.Other? then Some(UnsupportedKind)
    else if Sum(Moves, Filter((t: Transaction) => t.pfId == req.pfId, tb.transactions)) < req.shares then
      Some(InsufficientShares)
    else None
  }

  /**
   A transaction is entered if and only if its portfolio fund exists and, when it is a sale, the fund has no
   row of an unsupported type and holds at least the shares sold.
   */
  lemma CreatedIff(tb: Tables, req: CreateRequest)
    requires LedgerTables(tb)
    ensures match CreateError(tb, req)
            case Some(e) => Created(tb, req) == Err(e)
            case None => Created(tb, req).Ok?
  {
    var t := Transaction(tb.nextId, req.pfId, req.date, req.kind, req.shares, req.costPerShare);
    FoundPf(tb, req.pfId);
    if HasPortfolioFund(tb, req.pfId) && req.kind.Sell? {
      HeldByAll(tb, t);
      BookedIff(WithTransaction(tb, t), t);
      FilterSame((u: Transaction) => u.pfId == req.pfId, HasPf(req.pfId), tb.transactions);
    }
  }

  /** Apart from the gain of a sale, only the requested row is added, with a new id. */
  lemma CreatedRow(tb: Tables, req: CreateRequest)
    requires Created(tb, req).Ok?
    ensures var after := Created(tb, req).value;
            var t := after.transactions[|tb.transactions|];
            && after.transactions == tb.transactions + [t]
            && t.id == tb.nextId && t.pfId == req.pfId && t.date == req.date && t.kind == req.kind
            && t.shares == req.shares && t.costPerShare == req.costPerShare
            && after == tb.(transactions := after.transactions, gains := after.gains, nextId := after.nextId)
            && (!req.kind.Sell? ==> after.gains == tb.gains)
            && (req.kind.Sell? ==> |after.gains| == |tb.gains| + 1 && tb.gains <= after.gains)
  {
  }

  // --------------------------------------------------------------- updating

  /** The requested value where there is one, the old one otherwise. */
  function Or<T>(requested: Option<T>, before: T): T
  {
    match requested
    case Some(v) => v
    case None => before
  }

  /** Why an update of this row is refused; a sale is checked against the fund it moves to, without itself. */
  ghost function UpdateError(tb: Tables, before: Transaction, req: UpdateRequest): Option<Error>
  {
    if req.pfId.Some? && forall pf :: pf in tb.portfolioFunds ==> pf.id != req.pfId.value then
      Some(PortfolioFundNotFound)
    else if !Or(req.kind, before.kind).Sell? then None
    else if exists t :: t in tb.transactions && OtherOn(t, Or(req.pfId, before.pfId), before.id) && t.kind.Other? then
      Some(UnsupportedKind)
    else if HeldWithout(tb, Or(req.pfId, before.pfId), before.id) < Or(req.shares, before.shares) then
      Some(InsufficientShares)
    else None
  }

  lemma FoundTransaction(tb: Tables, id: Id)
    requires LedgerTables(tb)
    ensures FindTransaction(tb, id).None? <==> forall t :: t in tb.transactions ==> t.id != id
    ensures forall t :: t in tb.transactions && t.id == id ==> FindTransaction(tb, id) == Some(t)
  {
    FilterMembers(HasId(id), tb.transactions);
    forall t | t in tb.transactions && t.id == id
      ensures FindTransaction(tb, id) == Some(t)
    {
      InOwnRows(tb, t);
    }
    if FindTransaction(tb, id).Some? {
      assert FindTransaction(tb, id).value in Filter(HasId(id), tb.transactions);
    }
  }

  lemma OnExistingFund(tb: Tables, t: Transaction)
    requires LedgerTables(tb) && t in tb.transactions
    ensures HasPortfolioFund(tb, t.pfId)
  {
    InOwnRows(tb, t);
    assert LedgerOk(tb, t.id);
    FoundPf(tb, t.pfId);
  }

  /** An update of a transaction that does not exist is refused. */
  lemma UpdatedNothing(tb: Tables, id: Id, req: UpdateRequest)
    requires LedgerTables(tb) && forall t :: t in tb.transactions ==> t.id != id
    ensures Updated(tb, id, req) == Err(NotFound)
  {
    FoundTransaction(tb, id);
  }

  /**
   An update is accepted if and only if the fund it names exists and, when the row is a sale afterwards, the
   fund's other rows are of supported types and leave at least the shares sold.
   */
  lemma UpdatedIff(tb: Tables, before: Transaction, req: UpdateRequest)
    requires LedgerTables(tb) && before in tb.transactions
    ensures match UpdateError(tb, before, req)
            case Some(e) => Updated(tb, before.id, req) == Err(e)
            case None => Updated(tb, before.id, req).Ok?
  {
    var t := Patched(before, req);
    var cleared := if before.kind.Sell? then Cleared(tb, before.id) else tb;
    FoundTransaction(tb, before.id);
    OnExistingFund(tb, before);
    if req.pfId.Some? {
      FoundPf(tb, req.pfId.value);
    }
    BookedIff(cleared, t);
  }

  /** The row has each requested value and keeps the others; the rest of the table is as it was, in its place. */
  lemma UpdatedRows(tb: Tables, id: Id, req: UpdateRequest)
    requires LedgerTables(tb) && Updated(tb, id, req).Ok?
    ensures var after := Updated(tb, id, req).value;
            && |after.transactions| == |tb.transactions|
            && forall i :: 0 <= i < |tb.transactions| ==>
                 var before, row := tb.transactions[i], after.transactions[i];
                 && (before.id != id ==> row == before)
                 && (before.id == id ==>
                       && row.id == id && row.pfId == Or(req.pfId, before.pfId)
                       && row.date == Or(req.date, before.date) && row.kind == Or(req.kind, before.kind)
                       && row.shares == Or(req.shares, before.shares)
                       && row.costPerShare == Or(req.costPerShare, before.costPerShare))
  {
    var t := Patched(FindTransaction(tb, id).value, req);
    FoundRow(HasId(id), tb.transactions);
    FoundTransaction(tb, id);
    assert Updated(tb, id, req).value.transactions == Replaced(tb.transactions, t);
    assert forall i :: 0 <= i < |tb.transactions| ==> tb.transactions[i] in tb.transactions;
  }

  /** No other table changes but the gains, and of these only the row's own. */
  lemma UpdatedGains(tb: Tables, id: Id, req: UpdateRequest)
    requires LedgerTables(tb) && Updated(tb, id, req).Ok?
    ensures var after := Updated(tb, id, req).value;
            && after == tb.(transactions := after.transactions, gains := after.gains, nextId := after.nextId)
            && Filter((g: RealizedGain) => g.transactionId != id, after.gains) ==
               Filter((g: RealizedGain) => g.transactionId != id, tb.gains)
  {
    var others := (g: RealizedGain) => g.transactionId != id;
    var before := FindTransaction(tb, id).value;
    FoundRow(HasId(id), tb.transactions);
    var t := Patched(before, req);
    var cleared := if before.kind.Sell? then Cleared(tb, id) else tb;
    FilterFilter(others, NotOf(id), others, tb.gains);
    if t.kind.Sell? {
      var g, pf := BookedShape(cleared, t);
      Appended(others, cleared.gains, g);
    }
  }

  // --------------------------------------------------------------- deleting

  /** Deleting is refused for a transaction that does not exist, or that a dividend reinvests. */
  lemma DeletedIff(tb: Tables, id: Id)
    requires LedgerTables(tb)
    ensures if forall t :: t in tb.transactions ==> t.id != id then Deleted(tb, id) == Err(NotFound)
            else if exists v :: v in tb.dividends && v.reinvestment == Some(id) then
              Deleted(tb, id) == Err(ForeignKeyViolated)
            else Deleted(tb, id).Ok?
  {
    FoundTransaction(tb, id);
  }

  /** The transaction is the only one left of those the imported trade was allocated to. */
  ghost predicate LastOf(tb: Tables, id: Id, ibId: Id)
  {
    && (exists a :: a in tb.allocations && a.ibkrTransactionId == ibId)
    && (forall a :: a in tb.allocations && a.ibkrTransactionId == ibId ==> a.transactionId == id)
  }

  lemma LastOfIs(tb: Tables, id: Id, ibId: Id, a: Allocation)
    requires Filter(ForTransaction(id), tb.allocations) == [a]
    ensures LastOf(tb, id, ibId) <==>
            a.ibkrTransactionId == ibId && |Filter(ForIbkr(ibId), tb.allocations)| == 1
  {
    var parts := Filter(ForIbkr(ibId), tb.allocations);
    var rest := Filter(ForIbkr(ibId), Filter(NotForTransaction(id), tb.allocations));
    OneLinkLess(tb.allocations, id, ibId, a);
    FilterMembers(ForTransaction(id), tb.allocations);
    FilterMembers(ForIbkr(ibId), tb.allocations);
    FilterMembers(NotForTransaction(id), tb.allocations);
    FilterMembers(ForIbkr(ibId), Filter(NotForTransaction(id), tb.allocations));
    assert a in [a];
    if LastOf(tb, id, ibId) {
      var b :| b in tb.allocations && b.ibkrTransactionId == ibId;
      assert b in [a];
      forall c | c in tb.allocations && NotForTransaction(id)(c)
        ensures !ForIbkr(ibId)(c)
      {
      }
      FilterNone(ForIbkr(ibId), Filter(NotForTransaction(id), tb.allocations));
    } else if a.ibkrTransactionId == ibId && |parts| == 1 {
      assert |rest| == 0;
      forall b | b in tb.allocations && b.ibkrTransactionId == ibId
        ensures b.transactionId == id
      {
        assert b.transactionId != id ==> b in rest;
      }
    }
  }

  lemma NotLast(tb: Tables, id: Id, ibId: Id)
    requires Filter(ForTransaction(id), tb.allocations) == []
    ensures !LastOf(tb, id, ibId)
  {
    FilterMembers(ForTransaction(id), tb.allocations);
  }

  /**
   The transaction goes with its gains and its link; an imported trade it was the last part of is pending
   again, and every other entry of the inbox and every other table stays as it was.
   */
  lemma DeletedRows(tb: Tables, id: Id)
    requires Consistent(tb) && Deleted(tb, id).Ok?
    ensures var after := Deleted(tb, id).value;
            && after.transactions == Filter((t: Transaction) => t.id != id, tb.transactions)
            && after.gains == Filter((g: RealizedGain) => g.transactionId != id, tb.gains)
            && after.allocations == Filter((a: Allocation) => a.transactionId != id, tb.allocations)
            && after == tb.(transactions := after.transactions, gains := after.gains,
                            allocations := after.allocations, inbox := after.inbox)
  {
    DeletedShape(tb, id);
    FilterSame((t: Transaction) => t.id != id, NotId(id), tb.transactions);
    FilterSame((g: RealizedGain) => g.transactionId != id, NotOf(id), tb.gains);
    FilterSame((a: Allocation) => a.transactionId != id, NotForTransaction(id), tb.allocations);
  }

  lemma DeletedInbox(tb: Tables, id: Id)
    requires Consistent(tb) && Deleted(tb, id).Ok?
    ensures var after := Deleted(tb, id).value;
            && |after.inbox| == |tb.inbox|
            && forall i :: 0 <= i < |tb.inbox| ==>
                 after.inbox[i] == if LastOf(tb, id, tb.inbox[i].id)
                                   then tb.inbox[i].(status := Pending, processedAt := None) else tb.inbox[i]
  {
    var after := Deleted(tb, id).value;
    var links := Filter(ForTransaction(id), tb.allocations);
    assert LedgerOk(tb, id);
    forall i | 0 <= i < |tb.inbox|
      ensures |after.inbox| == |tb.inbox|
      ensures after.inbox[i] == if LastOf(tb, id, tb.inbox[i].id)
                                then tb.inbox[i].(status := Pending, processedAt := None) else tb.inbox[i]
    {
      if links == [] {
        NotLast(tb, id, tb.inbox[i].id);
      } else {
        assert links == [links[0]];
        LastOfIs(tb, id, tb.inbox[i].id, links[0]);
        LastOfIs(tb, id, links[0].ibkrTransactionId, links[0]);
      }
    }
  }
}
