/** Creating, updating and deleting transactions keep the tables consistent. */
module TransactionInvariants {
  import opened Collections
  import opened Schema
  import opened Ledger
  import opened Transactions
  import opened Inbox
  import opened Consistency

  // ---------------------------------------------------------------- booking

  lemma BookedShape(tb: Tables, t: Transaction) returns (g: RealizedGain, pf: PortfolioFund)
    requires Booked(tb, t).Ok?
    ensures Booked(tb, t).value == tb.(gains := tb.gains + [g], nextId := tb.nextId + 1)
    ensures FindPf(tb, t.pfId) == Some(pf) && Books(g, t, pf)
  {
    var p := PositionWithout(tb, t.pfId, t.id).value;
    pf := FindPf(tb, t.pfId).value;
    g := GainFor(tb.nextId, t, pf, p);
    FoundRow(IsPf(t.pfId), tb.portfolioFunds);
  }

  lemma BookedKeeps(tb: Tables, t: Transaction, id: Id)
    requires Booked(tb, t).Ok? && id != t.id && LedgerOk(tb, id)
    ensures LedgerOk(Booked(tb, t).value, id)
  {
    var g, pf := BookedShape(tb, t);
    Appended(BookedFor(id), tb.gains, g);
    RecordKept(tb, Booked(tb, t).value, id);
  }

  /** A booked sale without an earlier gain has exactly its own. */
  lemma BookedOne(tb: Tables, t: Transaction) returns (g: RealizedGain, pf: PortfolioFund)
    requires Booked(tb, t).Ok? && GainsOf(tb, t.id) == []
    ensures FindPf(tb, t.pfId) == Some(pf) && Books(g, t, pf)
    ensures GainsOf(Booked(tb, t).value, t.id) == [g]
  {
    g, pf := BookedShape(tb, t);
    Appended(BookedFor(t.id), tb.gains, g);
  }

  // --------------------------------------------------------------- creating

  function WithTransaction(tb: Tables, t: Transaction): Tables
  {
    tb.(transactions := tb.transactions + [t], nextId := tb.nextId + 1)
  }

  lemma InsertKeeps(tb: Tables, t: Transaction, id: Id)
    requires LedgerOk(tb, id) && id != t.id
    ensures LedgerOk(WithTransaction(tb, t), id)
  {
    Appended(HasId(id), tb.transactions, t);
    RecordKept(tb, WithTransaction(tb, t), id);
  }

  lemma InsertedRow(tb: Tables, t: Transaction)
    requires LedgerTables(tb) && t.id == tb.nextId
    ensures RowsOf(WithTransaction(tb, t), t.id) == [t]
    ensures GainsOf(tb, t.id) == [] && LinksOf(tb, t.id) == []
  {
    FreshRecord(tb);
    Appended(HasId(t.id), tb.transactions, t);
  }

  lemma CreatedRecord(tb: Tables, req: CreateRequest, id: Id)
    requires LedgerTables(tb) && Created(tb, req).Ok?
    ensures LedgerOk(Created(tb, req).value, id)
  {
    var t := Transaction(tb.nextId, req.pfId, req.date, req.kind, req.shares, req.costPerShare);
    var inserted := WithTransaction(tb, t);
    assert LedgerOk(tb, id);
    InsertedRow(tb, t);
    if id != t.id {
      InsertKeeps(tb, t, id);
      if t.kind.Sell? {
        BookedKeeps(inserted, t, id);
      }
    } else if t.kind.Sell? {
      var g, pf := BookedOne(inserted, t);
    }
  }

  lemma CreatedConsistent(tb: Tables, req: CreateRequest)
    requires Consistent(tb) && Created(tb, req).Ok?
    ensures Consistent(Created(tb, req).value)
  {
    var after := Created(tb, req).value;
    forall id: Id ensures LedgerOk(after, id) { CreatedRecord(tb, req, id); }
    PfsKept(tb, after);
    forall id: Id ensures InboxOk(after, id) { InboxKept(tb, after, id); }
  }

  // --------------------------------------------------------------- updating

  function Cleared(tb: Tables, id: Id): Tables
  {
    tb.(gains := Filter(NotOf(id), tb.gains))
  }

  lemma ClearedKeeps(tb: Tables, cleared: Id, id: Id)
    requires LedgerOk(tb, id) && id != cleared
    ensures LedgerOk(Cleared(tb, cleared), id)
  {
    Removed(BookedFor(id), NotOf(cleared), tb.gains);
    RecordKept(tb, Cleared(tb, cleared), id);
  }

  lemma ClearedNone(tb: Tables, id: Id)
    ensures GainsOf(Cleared(tb, id), id) == []
  {
    Removed(BookedFor(id), NotOf(id), tb.gains);
  }

  function WithRow(tb: Tables, t: Transaction): Tables
  {
    tb.(transactions := Replaced(tb.transactions, t))
  }

  lemma ReplaceKeeps(tb: Tables, t: Transaction, id: Id)
    requires LedgerOk(tb, id) && id != t.id
    ensures LedgerOk(WithRow(tb, t), id)
  {
    ReplacedRows(tb.transactions, t, id);
    RecordKept(tb, WithRow(tb, t), id);
  }

  lemma RebookedKeeps(tb: Tables, old_: Transaction, t: Transaction, id: Id)
    requires Rebooked(tb, old_, t).Ok? && id != t.id && LedgerOk(tb, id)
    ensures LedgerOk(Rebooked(tb, old_, t).value, id)
  {
    var cleared := if old_.kind.Sell? then Cleared(tb, t.id) else tb;
    if old_.kind.Sell? {
      ClearedKeeps(tb, t.id, id);
    }
    if t.kind.Sell? {
      BookedKeeps(cleared, t, id);
    }
  }

  /** Only the gain table and the counter change; the changed transaction has its new gain, or none. */
  lemma RebookedOne(tb: Tables, old_: Transaction, t: Transaction)
    requires Rebooked(tb, old_, t).Ok? && (!old_.kind.Sell? ==> GainsOf(tb, t.id) == [])
    ensures var after := Rebooked(tb, old_, t).value;
            && after == tb.(gains := after.gains, nextId := after.nextId) && tb.nextId <= after.nextId
            && (!t.kind.Sell? ==> GainsOf(after, t.id) == [])
            && (t.kind.Sell? ==>
                  && FindPf(tb, t.pfId).Some? && |GainsOf(after, t.id)| == 1
                  && Books(GainsOf(after, t.id)[0], t, FindPf(tb, t.pfId).value))
  {
    var cleared := if old_.kind.Sell? then Cleared(tb, t.id) else tb;
    ClearedNone(tb, t.id);
    if t.kind.Sell? {
      var g, pf := BookedOne(cleared, t);
      g, pf := BookedShape(cleared, t);
    }
  }

  lemma UpdatedRecord(tb: Tables, id: Id, req: UpdateRequest, other: Id)
    requires LedgerTables(tb) && Updated(tb, id, req).Ok?
    ensures LedgerOk(Updated(tb, id, req).value, other)
  {
    assert LedgerOk(tb, other) && LedgerOk(tb, id);
    var old_ := FindTransaction(tb, id).value;
    FoundRow(HasId(id), tb.transactions);
    var t := Patched(old_, req);
    var booked := Rebooked(tb, old_, t).value;
    if other != id {
      RebookedKeeps(tb, old_, t, other);
      ReplaceKeeps(booked, t, other);
    } else {
      RebookedOne(tb, old_, t);
      ReplacedRows(booked.transactions, t, id);
    }
  }

  lemma UpdatedConsistent(tb: Tables, id: Id, req: UpdateRequest)
    requires Consistent(tb) && Updated(tb, id, req).Ok?
    ensures Consistent(Updated(tb, id, req).value)
  {
    var after := Updated(tb, id, req).value;
    var old_ := FindTransaction(tb, id).value;
    assert LedgerOk(tb, id);
    FoundRow(HasId(id), tb.transactions);
    RebookedOne(tb, old_, Patched(old_, req));
    forall other: Id ensures LedgerOk(after, other) { UpdatedRecord(tb, id, req, other); }
    PfsKept(tb, after);
    forall k: Id ensures InboxOk(after, k) { InboxKept(tb, after, k); }
  }

  // --------------------------------------------------------------- deleting

  lemma {:induction false} OneLinkLess(links: seq<Allocation>, id: Id, k: Id, a: Allocation)
    requires Filter(ForTransaction(id), links) == [a]
    ensures |Filter(ForIbkr(k), Filter(NotForTransaction(id), links))| ==
            |Filter(ForIbkr(k), links)| - (if a.ibkrTransactionId == k then 1 else 0)
  {
    if links != [] {
      if links[0].transactionId == id {
        assert Filter(ForTransaction(id), links) == [links[0]] + Filter(ForTransaction(id), links[1..]);
        assert links[0] == [a][0];
        FilterMembers(ForTransaction(id), links[1..]);
        Removed(ForIbkr(k), NotForTransaction(id), links[1..]);
        assert forall x :: x in links[1..] ==> NotForTransaction(id)(x);
      } else {
        OneLinkLess(links[1..], id, k, a);
      }
    }
  }

  lemma UnlinkedEntry(tb: Tables, id: Id, a: Allocation, k: Id)
    requires LinksOf(tb, id) == [a] && a.ibkrTransactionId != k
    ensures Filter(ForIbkr(k), Filter(NotForTransaction(id), tb.allocations)) == PartsOfIbkr(tb, k)
  {
    FilterMembers(ForTransaction(id), tb.allocations);
    assert forall x :: x in tb.allocations && ForTransaction(id)(x) ==> x in [a];
    Removed(ForIbkr(k), NotForTransaction(id), tb.allocations);
  }

  lemma UnlinkedDelete(tb: Tables, id: Id, k: Id)
    requires Deleted(tb, id).Ok? && InboxOk(tb, k) && LinksOf(tb, id) == []
    ensures InboxOk(Deleted(tb, id).value, k)
  {
    DeletedShape(tb, id);
    FilterMembers(ForTransaction(id), tb.allocations);
    Removed(ForIbkr(k), NotForTransaction(id), tb.allocations);
    InboxKept(tb, Deleted(tb, id).value, k);
  }

  /** The entry whose last link goes becomes pending; every other entry keeps its links. */
  lemma DeletedEntry(tb: Tables, id: Id, k: Id)
    requires Consistent(tb) && Deleted(tb, id).Ok?
    ensures InboxOk(Deleted(tb, id).value, k)
  {
    var after := Deleted(tb, id).value;
    assert LedgerOk(tb, id) && InboxOk(tb, k);
    var links := LinksOf(tb, id);
    if links == [] {
      UnlinkedDelete(tb, id, k);
    } else {
      var a := links[0];
      assert links == [a];
      DeletedShape(tb, id);
      OneLinkLess(tb.allocations, id, k, a);
      StatusRows(tb.inbox, a.ibkrTransactionId, Pending, None, k);
      if a.ibkrTransactionId != k {
        UnlinkedEntry(tb, id, a, k);
        InboxKept(tb, after, k);
      }
    }
  }

  lemma DeletedShape(tb: Tables, id: Id)
    requires Deleted(tb, id).Ok?
    ensures var after := Deleted(tb, id).value;
            && after.transactions == Filter(NotId(id), tb.transactions)
            && after.gains == Filter(NotOf(id), tb.gains)
            && after.allocations == Filter(NotForTransaction(id), tb.allocations)
            && after == tb.(transactions := after.transactions, gains := after.gains,
                            allocations := after.allocations, inbox := after.inbox)
            && !Reinvested(tb, id)
  {
    FilterFilter(NotOf(id), NotOf(id), NotOf(id), tb.gains);
  }

  lemma DeletedRecord(tb: Tables, after: Tables, id: Id, other: Id)
    requires LedgerOk(tb, other) && !Reinvested(tb, id)
    requires after == tb.(
               transactions := Filter(NotId(id), tb.transactions), gains := Filter(NotOf(id), tb.gains),
               allocations := Filter(NotForTransaction(id), tb.allocations), inbox := after.inbox)
    ensures LedgerOk(after, other)
  {
    Removed(HasId(other), NotId(id), tb.transactions);
    Removed(BookedFor(other), NotOf(id), tb.gains);
    Removed(ForTransaction(other), NotForTransaction(id), tb.allocations);
    if other != id {
      RecordKept(tb, after, other);
    }
  }

  lemma DeletedConsistent(tb: Tables, id: Id)
    requires Consistent(tb) && Deleted(tb, id).Ok?
    ensures Consistent(Deleted(tb, id).value)
  {
    var after := Deleted(tb, id).value;
    DeletedShape(tb, id);
    forall other: Id ensures LedgerOk(after, other) { DeletedRecord(tb, after, id, other); }
    PfsKept(tb, after);
    forall k: Id ensures InboxOk(after, k) { DeletedEntry(tb, id, k); }
  }
}
