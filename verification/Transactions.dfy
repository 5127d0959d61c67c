/** transaction_service.go: creating, updating and deleting transactions with their realized gains. */
module Transactions {
  import opened Collections
  import opened Sorting
  import opened Schema
  import opened Ledger

  datatype CreateRequest = CreateRequest(pfId: Id, date: Day, kind: Kind, shares: Shares, costPerShare: real)

  datatype UpdateRequest = UpdateRequest(
    pfId: Option<Id>, date: Option<Day>, kind: Option<Kind>, shares: Option<Shares>, costPerShare: Option<real>)

  // -------------------------------------------------------- row operations

  function HasPf(pfId: Id): Transaction -> bool
  {
    (t: Transaction) => t.pfId == pfId
  }

  function NotForTransaction(id: Id): Allocation -> bool
  {
    (a: Allocation) => a.transactionId != id
  }

  function ForTransaction(id: Id): Allocation -> bool
  {
    (a: Allocation) => a.transactionId == id
  }

  function ForIbkr(id: Id): Allocation -> bool
  {
    (a: Allocation) => a.ibkrTransactionId == id
  }

  /** QueryRow: the first row, if there is one. */
  function First<T>(rows: seq<T>): Option<T>
  {
    if rows == [] then None else Some(rows[0])
  }

  function FindPf(tb: Tables, pfId: Id): Option<PortfolioFund>
  {
    First(Filter(IsPf(pfId), tb.portfolioFunds))
  }

  function FindTransaction(tb: Tables, id: Id): Option<Transaction>
  {
    First(Filter(HasId(id), tb.transactions))
  }

  /** UPDATE ... WHERE id = ?, in place. */
  function Replaced(ts: seq<Transaction>, t: Transaction): (r: seq<Transaction>)
    ensures |r| == |ts|
    ensures forall i :: 0 <= i < |ts| ==> r[i] == if ts[i].id == t.id then t else ts[i]
  {
    seq(|ts|, i requires 0 <= i < |ts| => if ts[i].id == t.id then t else ts[i])
  }

  function WithStatus(inbox: seq<IbkrTransaction>, id: Id, status: Status, at: Option<int>): (r: seq<IbkrTransaction>)
    ensures |r| == |inbox|
    ensures forall i :: 0 <= i < |inbox| ==>
      r[i] == if inbox[i].id == id then inbox[i].(status := status, processedAt := at) else inbox[i]
  {
    seq(|inbox|, i requires 0 <= i < |inbox| =>
      if inbox[i].id == id then inbox[i].(status := status, processedAt := at) else inbox[i])
  }

  predicate Reinvested(tb: Tables, id: Id)
  {
    exists v :: v in tb.dividends && v.reinvestment == Some(id)
  }

  /** DELETE of one transaction: restricted by dividends, cascading to its gains and allocations. */
  function DeleteRow(tb: Tables, id: Id): Result<Tables, Error>
  {
    if FindTransaction(tb, id).None? then Err(NotFound)
    else if Reinvested(tb, id) then Err(ForeignKeyViolated)
    else Ok(tb.(
      transactions := Filter(NotId(id), tb.transactions),
      gains := Filter(NotOf(id), tb.gains),
      allocations := Filter(NotForTransaction(id), tb.allocations)))
  }

  /** The transactions of a portfolio fund, ordered by date. */
  function OfPortfolioFund(tb: Tables, pfId: Id): seq<Transaction>
  {
    Sort(ByDate, Filter(HasPf(pfId), tb.transactions))
  }

  // --------------------------------------------------------- realized gains

  function PositionWithout(tb: Tables, pfId: Id, id: Id): Result<Position, Error>
  {
    var counted := Filter(NotId(id), OfPortfolioFund(tb, pfId));
    if Unsupported(counted) then Err(UnsupportedKind) else Ok(PositionOf(counted))
  }

  function AverageCost(p: Position): real
  {
    if p.shares > 0.0 then p.cost / p.shares else 0.0
  }

  function GainFor(id: Id, t: Transaction, pf: PortfolioFund, p: Position): RealizedGain
  {
    var basis := AverageCost(p) * t.shares;
    var proceeds := t.shares * t.costPerShare;
    RealizedGain(id, pf.portfolioId, pf.fundId, t.id, t.date, t.shares, basis, proceeds, proceeds - basis)
  }

  /** Books a sale against the position without it; fails when that holds fewer shares. */
  function Booked(tb: Tables, t: Transaction): Result<Tables, Error>
  {
    var p :- PositionWithout(tb, t.pfId, t.id);
    if p.shares < t.shares then Err(InsufficientShares)
    else match FindPf(tb, t.pfId)
      case None => Err(PortfolioFundNotFound)
      case Some(pf) => Ok(tb.(gains := tb.gains + [GainFor(tb.nextId, t, pf, p)], nextId := tb.nextId + 1))
  }

  // ------------------------------------------------------------- operations

  function Created(tb: Tables, req: CreateRequest): Result<Tables, Error>
  {
    if FindPf(tb, req.pfId).None? then Err(PortfolioFundNotFound)
    else
      var t := Transaction(tb.nextId, req.pfId, req.date, req.kind, req.shares, req.costPerShare);
      var inserted := tb.(transactions := tb.transactions + [t], nextId := tb.nextId + 1);
      if req.kind.Sell? then Booked(inserted, t) else Ok(inserted)
  }

  function Patched(t: Transaction, req: UpdateRequest): Transaction
  {
    Transaction(
      t.id,
      if req.pfId.Some? then req.pfId.value else t.pfId,
      if req.date.Some? then req.date.value else t.date,
      if req.kind.Some? then req.kind.value else t.kind,
      if req.shares.Some? then req.shares.value else t.shares,
      if req.costPerShare.Some? then req.costPerShare.value else t.costPerShare)
  }

  /** The tables after the realized gain of an updated transaction has been replaced. */
  function Rebooked(tb: Tables, old_: Transaction, t: Transaction): Result<Tables, Error>
  {
    var cleared := if old_.kind.Sell? then tb.(gains := Filter(NotOf(t.id), tb.gains)) else tb;
    if t.kind.Sell? then Booked(cleared, t) else Ok(cleared)
  }

  function Updated(tb: Tables, id: Id, req: UpdateRequest): Result<Tables, Error>
  {
    match FindTransaction(tb, id)
    case None => Err(NotFound)
    case Some(old_) =>
      if req.pfId.Some? && FindPf(tb, req.pfId.value).None? then Err(PortfolioFundNotFound)
      else
        var t := Patched(old_, req);
        var booked :- Rebooked(tb, old_, t);
        Ok(booked.(transactions := Replaced(booked.transactions, t)))
  }

  /** Reverts an inbox entry whose last allocation is about to go. */
  function Reverted(tb: Tables, id: Id): Tables
  {
    match First(Filter(ForTransaction(id), tb.allocations))
    case None => tb
    case Some(a) =>
      if |Filter(ForIbkr(a.ibkrTransactionId), tb.allocations)| == 1 then
        tb.(inbox := WithStatus(tb.inbox, a.ibkrTransactionId, Pending, None))
      else tb
  }

  function Deleted(tb: Tables, id: Id): Result<Tables, Error>
  {
    match FindTransaction(tb, id)
    case None => Err(NotFound)
    case Some(t) =>
      var cleared := if t.kind.Sell? then tb.(gains := Filter(NotOf(id), tb.gains)) else tb;
      DeleteRow(Reverted(cleared, id), id)
  }

  // ---------------------------------------------------------------- service

  class TransactionService {
    const db: Database

    constructor (db: Database)
      ensures this.db == db
    {
      this.db := db;
    }

    /** The sale's realized gain, computed by folding the fund's other transactions. */
    method CreateRealizedGainLoss(tx: Tables, t: Transaction) returns (r: Result<Tables, Error>)
      ensures r == Booked(tx, t)
    {
      var position := CalculateCurrentPosition(OfPortfolioFund(tx, t.pfId), t.id);
      if position.Err? {
        return Err(position.error);
      }
      if position.value.shares < t.shares {
        return Err(InsufficientShares);
      }
      var pf := FindPf(tx, t.pfId);
      if pf.None? {
        return Err(PortfolioFundNotFound);
      }
      var avgCost := 0.0;
      if position.value.shares > 0.0 {
        avgCost := position.value.cost / position.value.shares;
      }
      var costBasis := avgCost * t.shares;
      var saleProceeds := t.shares * t.costPerShare;
      var gain := RealizedGain(tx.nextId, pf.value.portfolioId, pf.value.fundId, t.id, t.date, t.shares,
                               costBasis, saleProceeds, saleProceeds - costBasis);
      assert avgCost == AverageCost(position.value);
      assert gain == GainFor(tx.nextId, t, pf.value, position.value);
      r := Ok(tx.(gains := tx.gains + [gain], nextId := tx.nextId + 1));
    }

    method CreateTransaction(req: CreateRequest) returns (r: Result<Id, Error>)
      modifies db
      ensures var after := Created(old(db.tables), req);
              && (after.Ok? ==> r == Ok(old(db.tables).nextId) && db.tables == after.value)
              && (after.Err? ==> r == Err(after.error) && db.tables == old(db.tables))
    {
      var tx := db.tables;
      var pf := FindPf(tx, req.pfId);
      if pf.None? {
        return Err(PortfolioFundNotFound);
      }
      var t := Transaction(tx.nextId, req.pfId, req.date, req.kind, req.shares, req.costPerShare);
      tx := tx.(transactions := tx.transactions + [t], nextId := tx.nextId + 1);
      if req.kind.Sell? {
        var booked := CreateRealizedGainLoss(tx, t);
        if booked.Err? {
          return Err(booked.error);
        }
        tx := booked.value;
      }
      db.tables := tx;
      r := Ok(t.id);
    }

    method UpdateTransaction(id: Id, req: UpdateRequest) returns (r: Result<Transaction, Error>)
      modifies db
      ensures var after := Updated(old(db.tables), id, req);
              && (after.Ok? ==>
                    && r == Ok(Patched(FindTransaction(old(db.tables), id).value, req))
                    && db.tables == after.value)
              && (after.Err? ==> r == Err(after.error) && db.tables == old(db.tables))
    {
      var tx := db.tables;
      var found := FindTransaction(tx, id);
      if found.None? {
        return Err(NotFound);
      }
      var t := found.value;
      var oldKind := t.kind;
      if req.pfId.Some? {
        var pf := FindPf(tx, req.pfId.value);
        if pf.None? {
          return Err(PortfolioFundNotFound);
        }
        t := t.(pfId := req.pfId.value);
      }
      if req.date.Some? { t := t.(date := req.date.value); }
      if req.kind.Some? { t := t.(kind := req.kind.value); }
      if req.shares.Some? { t := t.(shares := req.shares.value); }
      if req.costPerShare.Some? { t := t.(costPerShare := req.costPerShare.value); }
      assert t == Patched(found.value, req);
      FilterMembers(HasId(id), tx.transactions);
      assert found.value in Filter(HasId(id), tx.transactions);
      if oldKind.Sell? {
        tx := tx.(gains := Filter(NotOf(id), tx.gains));
      }
      if t.kind.Sell? {
        var booked := CreateRealizedGainLoss(tx, t);
        if booked.Err? {
          return Err(booked.error);
        }
        tx := booked.value;
      }
      tx := tx.(transactions := Replaced(tx.transactions, t));
      db.tables := tx;
      r := Ok(t);
    }

    method DeleteTransaction(id: Id) returns (r: Result<(), Error>)
      modifies db
      ensures var after := Deleted(old(db.tables), id);
              && (after.Ok? ==> r == Ok(()) && db.tables == after.value)
              && (after.Err? ==> r == Err(after.error) && db.tables == old(db.tables))
    {
      var tx := db.tables;
      var found := FindTransaction(tx, id);
      if found.None? {
        return Err(NotFound);
      }
      if found.value.kind.Sell? {
        tx := tx.(gains := Filter(NotOf(id), tx.gains));
      }
      var linked := First(Filter(ForTransaction(id), tx.allocations));
      if linked.Some? {
        var count := |Filter(ForIbkr(linked.value.ibkrTransactionId), tx.allocations)|;
        if count == 1 {
          tx := tx.(inbox := WithStatus(tx.inbox, linked.value.ibkrTransactionId, Pending, None));
        }
      }
      var deleted := DeleteRow(tx, id);
      if deleted.Err? {
        return Err(deleted.error);
      }
      db.tables := deleted.value;
      r := Ok(());
    }
  }
}
