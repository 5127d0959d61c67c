/**
 What every service operation keeps between the tables: sells and their realized gains, inbox entries
 and their allocations, and the keys that identify rows. Each clause speaks about one identifier.
 */
module Consistency {
  import opened Collections
  import opened Schema
  import opened Transactions
  import opened Inbox

  // ------------------------------------------------------------ the clauses

  function BookedFor(id: Id): RealizedGain -> bool
  {
    (g: RealizedGain) => g.transactionId == id
  }

  function RowsOf(tb: Tables, id: Id): seq<Transaction>
  {
    Filter(HasId(id), tb.transactions)
  }

  function GainsOf(tb: Tables, id: Id): seq<RealizedGain>
  {
    Filter(BookedFor(id), tb.gains)
  }

  function LinksOf(tb: Tables, id: Id): seq<Allocation>
  {
    Filter(ForTransaction(id), tb.allocations)
  }

  function PartsOfIbkr(tb: Tables, id: Id): seq<Allocation>
  {
    Filter(ForIbkr(id), tb.allocations)
  }

  /** The gain is that of the sale: same shares, date, fund and portfolio; proceeds less cost basis. */
  predicate Books(g: RealizedGain, t: Transaction, pf: PortfolioFund)
  {
    && g.transactionId == t.id && g.date == t.date && g.sharesSold == t.shares
    && pf.id == t.pfId && g.portfolioId == pf.portfolioId && g.fundId == pf.fundId
    && g.saleProceeds == t.shares * t.costPerShare && g.gain == g.saleProceeds - g.costBasis
  }

  /** The single gain a sale has; only a sale that an import allocated may have none. */
  predicate Realized(t: Transaction, gains: seq<RealizedGain>, links: seq<Allocation>, pf: PortfolioFund)
  {
    if !t.kind.Sell? then gains == []
    else if gains == [] then links != []
    else |gains| == 1 && Books(gains[0], t, pf)
  }

  predicate Recorded(
    rows: seq<Transaction>, gains: seq<RealizedGain>, links: seq<Allocation>, reinvested: bool, tb: Tables, id: Id)
  {
    if rows == [] then gains == [] && links == [] && !reinvested
    else
      && |rows| == 1 && id < tb.nextId && |links| <= 1
      && FindPf(tb, rows[0].pfId).Some?
      && Realized(rows[0], gains, links, FindPf(tb, rows[0].pfId).value)
  }

  /** What the ledger tables say of one transaction id. */
  predicate LedgerOk(tb: Tables, id: Id)
  {
    Recorded(RowsOf(tb, id), GainsOf(tb, id), LinksOf(tb, id), Reinvested(tb, id), tb, id)
  }

  /** One row for an id and one for a pair of portfolio and fund. */
  predicate PfOk(tb: Tables, id: Id)
  {
    |Filter(IsPf(id), tb.portfolioFunds)| <= (if id < tb.nextId then 1 else 0)
  }

  predicate PairOk(tb: Tables, portfolioId: Id, fundId: Id)
  {
    |Filter(IsPair(portfolioId, fundId), tb.portfolioFunds)| <= 1
  }

  /** An entry is processed, with a timestamp, exactly when it has allocations. */
  predicate Settled(entries: seq<IbkrTransaction>, parts: seq<Allocation>)
  {
    if entries == [] then parts == []
    else
      && |entries| == 1
      && (entries[0].status == Processed <==> parts != [])
      && (entries[0].status == Processed <==> entries[0].processedAt.Some?)
  }

  predicate InboxOk(tb: Tables, id: Id)
  {
    && Settled(Filter(HasIbkr(id), tb.inbox), PartsOfIbkr(tb, id))
    && (id >= tb.nextId ==> Filter(HasIbkr(id), tb.inbox) == [])
  }

  ghost predicate LedgerTables(tb: Tables)
  {
    && (forall id: Id :: LedgerOk(tb, id))
    && (forall id: Id :: PfOk(tb, id))
    && (forall p: Id, f: Id :: PairOk(tb, p, f))
  }

  ghost predicate Consistent(tb: Tables)
  {
    LedgerTables(tb) && forall id: Id :: InboxOk(tb, id)
  }

  // -------------------------------------------------- filters of new tables

  lemma Appended<T>(keep: T -> bool, xs: seq<T>, x: T)
    ensures Filter(keep, xs + [x]) == if keep(x) then Filter(keep, xs) + [x] else Filter(keep, xs)
  {
    FilterConcat(keep, xs, [x]);
    FilterOne(keep, x);
    assert Filter(keep, xs) + [] == Filter(keep, xs);
  }

  /** Deleting rows that a clause does not select changes nothing for it; deleting all it selects leaves none. */
  lemma Removed<T>(keep: T -> bool, stays: T -> bool, xs: seq<T>)
    ensures (forall x :: x in xs && keep(x) ==> stays(x)) ==> Filter(keep, Filter(stays, xs)) == Filter(keep, xs)
    ensures (forall x :: x in xs && keep(x) ==> !stays(x)) ==> Filter(keep, Filter(stays, xs)) == []
  {
    if forall x :: x in xs && keep(x) ==> stays(x) {
      FilterFilter(keep, stays, keep, xs);
    }
    if forall x :: x in xs && keep(x) ==> !stays(x) {
      FilterMembers(stays, xs);
      FilterNone(keep, Filter(stays, xs));
    }
  }

  lemma {:induction false} ReplacedRows(ts: seq<Transaction>, t: Transaction, id: Id)
    ensures id != t.id ==> Filter(HasId(id), Replaced(ts, t)) == Filter(HasId(id), ts)
    ensures |Filter(HasId(t.id), ts)| == 1 ==> Filter(HasId(t.id), Replaced(ts, t)) == [t]
    ensures Filter(HasId(t.id), ts) == [] ==> Filter(HasId(t.id), Replaced(ts, t)) == []
  {
    if ts != [] {
      var replaced := Replaced(ts, t);
      assert replaced[1..] == Replaced(ts[1..], t);
      ReplacedRows(ts[1..], t, id);
    }
  }

  lemma {:induction false} StatusRows(inbox: seq<IbkrTransaction>, id: Id, status: Status, at: Option<int>, k: Id)
    ensures var before := Filter(HasIbkr(k), inbox);
            var after := Filter(HasIbkr(k), WithStatus(inbox, id, status, at));
            && |after| == |before|
            && (k != id ==> after == before)
            && (k == id ==> forall i :: 0 <= i < |after| ==> after[i].status == status && after[i].processedAt == at)
  {
    if inbox != [] {
      var changed := WithStatus(inbox, id, status, at);
      assert changed[1..] == WithStatus(inbox[1..], id, status, at);
      StatusRows(inbox[1..], id, status, at, k);
    }
  }

  lemma FoundRow<T>(keep: T -> bool, xs: seq<T>)
    ensures First(Filter(keep, xs)).Some? ==> First(Filter(keep, xs)).value in xs && keep(First(Filter(keep, xs)).value)
  {
    FilterMembers(keep, xs);
    if Filter(keep, xs) != [] {
      assert Filter(keep, xs)[0] in Filter(keep, xs);
    }
  }

  // ------------------------------------------------------------- the frames

  /** What an operation leaves alone for one transaction id. */
  ghost predicate SameRecord(tb: Tables, tb': Tables, id: Id)
  {
    && RowsOf(tb', id) == RowsOf(tb, id)
    && GainsOf(tb', id) == GainsOf(tb, id)
    && LinksOf(tb', id) == LinksOf(tb, id)
    && tb'.dividends == tb.dividends
    && tb'.portfolioFunds == tb.portfolioFunds
    && tb.nextId <= tb'.nextId
  }

  lemma RecordKept(tb: Tables, tb': Tables, id: Id)
    requires SameRecord(tb, tb', id) && LedgerOk(tb, id)
    ensures LedgerOk(tb', id)
  {
  }

  lemma PfsKept(tb: Tables, tb': Tables)
    requires LedgerTables(tb) && tb'.portfolioFunds == tb.portfolioFunds && tb.nextId <= tb'.nextId
    ensures forall id: Id :: PfOk(tb', id)
    ensures forall p: Id, f: Id :: PairOk(tb', p, f)
  {
    forall id: Id ensures PfOk(tb', id) { assert PfOk(tb, id); }
    forall p: Id, f: Id ensures PairOk(tb', p, f) { assert PairOk(tb, p, f); }
  }

  lemma InboxKept(tb: Tables, tb': Tables, id: Id)
    requires InboxOk(tb, id) && tb.nextId <= tb'.nextId
    requires Filter(HasIbkr(id), tb'.inbox) == Filter(HasIbkr(id), tb.inbox)
    requires PartsOfIbkr(tb', id) == PartsOfIbkr(tb, id)
    ensures InboxOk(tb', id)
  {
  }

  lemma FreshRecord(tb: Tables)
    requires LedgerTables(tb)
    ensures RowsOf(tb, tb.nextId) == [] && GainsOf(tb, tb.nextId) == [] && LinksOf(tb, tb.nextId) == []
    ensures !Reinvested(tb, tb.nextId)
  {
    assert LedgerOk(tb, tb.nextId);
  }

  /** Two portfolio funds of the same portfolio and fund are one. */
  lemma PairsIdentify(tb: Tables, pf: PortfolioFund, pf': PortfolioFund)
    requires LedgerTables(tb) && pf in tb.portfolioFunds && pf' in tb.portfolioFunds
    ensures pf.id == pf'.id ==> pf == pf'
    ensures pf.portfolioId == pf'.portfolioId && pf.fundId == pf'.fundId ==> pf == pf'
  {
    FilterMembers(IsPf(pf.id), tb.portfolioFunds);
    FilterMembers(IsPair(pf.portfolioId, pf.fundId), tb.portfolioFunds);
    assert PfOk(tb, pf.id) && PairOk(tb, pf.portfolioId, pf.fundId);
    assert pf in Filter(IsPf(pf.id), tb.portfolioFunds);
    assert pf in Filter(IsPair(pf.portfolioId, pf.fundId), tb.portfolioFunds);
  }
}
