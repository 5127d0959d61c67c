/**
 Money put into a fund is either in the cost bases of its recorded gains or in the cost of the shares
 left: exactly when entering a transaction, of whatever date, keeps it so.
 */
module Conservation {
  import opened Collections
  import opened Sorting
  import opened Schema
  import opened Ledger
  import opened FundHistory
  import Inbox
  import opened Transactions
  import opened Consistency
  import opened TransactionInvariants
  import opened Operations

  /** What a transaction adds to the cost: purchases, reinvested dividends and fees. */
  const MoneyIn: Transaction -> real := (t: Transaction) =>
    match t.kind
    case Buy | Dividend => t.shares * t.costPerShare
    case Fee => t.costPerShare
    case _ => 0.0

  function OnFund(pf: PortfolioFund): RealizedGain -> bool
  {
    (g: RealizedGain) => g.portfolioId == pf.portfolioId && g.fundId == pf.fundId
  }

  function Invested(tb: Tables, pf: PortfolioFund): real
  {
    Sum(MoneyIn, Filter(HasPf(pf.id), tb.transactions))
  }

  function SoldBasis(tb: Tables, pf: PortfolioFund): real
  {
    Sum(BasisOf, Filter(OnFund(pf), tb.gains))
  }

  function Remaining(tb: Tables, pf: PortfolioFund): real
  {
    PositionOf(OfPortfolioFund(tb, pf.id)).cost
  }

  predicate Conserved(tb: Tables, pf: PortfolioFund)
  {
    SoldBasis(tb, pf) + Remaining(tb, pf) == Invested(tb, pf)
  }

  // --------------------------------------------------------------- one sale

  /** Nothing was lost: something was sold, or shares were left, or there was no cost to lose. */
  predicate CostKept(p: Position, sold: real)
  {
    sold > 0.0 || p.shares > 0.0 || p.cost == 0.0
  }

  /** The booked basis and the cost that stays make up the cost before, unless a void sale wipes it out. */
  lemma SaleSplitsCost(p: Position, sold: real)
    requires p.shares >= sold >= 0.0
    ensures AverageCost(p) * sold + CostAfterSell(p.shares, p.cost, sold) == p.cost <==> CostKept(p, sold)
  {
    var left := p.shares - sold;
    if p.shares > 0.0 {
      var average := p.cost / p.shares;
      assert average * p.shares == p.cost;
      assert average * sold + average * left == average * p.shares;
      if left > 0.0 {
        assert CostAfterSell(p.shares, p.cost, sold) == average * left;
      }
    }
  }

  // -------------------------------------------------------- what sales take

  /** The cost a sale takes out of a position; other transactions take none. */
  function Taken(p: Position, t: Transaction): real
  {
    if t.kind.Sell? then p.cost - CostAfterSell(p.shares, p.cost, t.shares) else 0.0
  }

  /** What the sales of a list take, one after the other. */
  function Released(p: Position, ts: seq<Transaction>): real
    decreases |ts|
  {
    if ts == [] then 0.0 else Taken(p, ts[0]) + Released(PositionStep(p, ts[0]), ts[1..])
  }

  /** The cost at the end is what was there and came in, less what the sales took. */
  lemma {:induction false} CostFlows(p: Position, ts: seq<Transaction>)
    ensures Fold(PositionStep, p, ts).cost == p.cost + Sum(MoneyIn, ts) - Released(p, ts)
    decreases |ts|
  {
    if ts != [] {
      CostFlows(PositionStep(p, ts[0]), ts[1..]);
    }
  }

  lemma {:induction false} ReleasedConcat(p: Position, a: seq<Transaction>, b: seq<Transaction>)
    ensures Released(p, a + b) == Released(p, a) + Released(Fold(PositionStep, p, a), b)
    decreases |a|
  {
    if a == [] {
      assert a + b == b;
    } else {
      assert (a + b)[1..] == a[1..] + b;
      ReleasedConcat(PositionStep(p, a[0]), a[1..], b);
    }
  }

  /** In any tables: a fund is conserved if and only if its recorded bases are what its sales take in date order. */
  lemma ConservedIff(tb: Tables, pf: PortfolioFund)
    ensures Conserved(tb, pf) <==> SoldBasis(tb, pf) == Released(Position(0.0, 0.0), OfPortfolioFund(tb, pf.id))
  {
    var rows := Filter(HasPf(pf.id), tb.transactions);
    CostFlows(Position(0.0, 0.0), OfPortfolioFund(tb, pf.id));
    SortMultiset(ByDate, rows);
    SumPermutation(MoneyIn, OfPortfolioFund(tb, pf.id), rows);
  }

  // ------------------------------------------------------ entering one row

  function After(date: Day): Transaction -> bool
  {
    (t: Transaction) => t.date > date
  }

  /** The fund's transactions up to a day, and those after it. */
  function Earlier(tb: Tables, pfId: Id, date: Day): seq<Transaction>
  {
    Filter(UpTo(date), OfPortfolioFund(tb, pfId))
  }

  function Later(tb: Tables, pfId: Id, date: Day): seq<Transaction>
  {
    Filter(After(date), OfPortfolioFund(tb, pfId))
  }

  lemma {:induction false} InsertedAmid(ts: seq<Transaction>, t: Transaction)
    requires SortedBy(ByDate, ts)
    ensures Insert(ByDate, ts, t) == Filter(UpTo(t.date), ts) + [t] + Filter(After(t.date), ts)
    ensures ts == Filter(UpTo(t.date), ts) + Filter(After(t.date), ts)
  {
    if ts != [] {
      if ts[0].date <= t.date {
        InsertedAmid(ts[1..], t);
      } else {
        forall u | u in ts
          ensures u.date > t.date
        {
          var i :| 0 <= i < |ts| && ts[i] == u;
          assert i == 0 || ByDate(ts[0], ts[i]);
        }
        FilterNone(UpTo(t.date), ts);
        FilterAll(After(t.date), ts);
      }
    }
  }

  /** The new row is read after those up to its date and before the later ones. */
  lemma LoadInserted(tb: Tables, t: Transaction)
    ensures OfPortfolioFund(WithTransaction(tb, t), t.pfId) ==
            Earlier(tb, t.pfId, t.date) + [t] + Later(tb, t.pfId, t.date)
    ensures OfPortfolioFund(tb, t.pfId) == Earlier(tb, t.pfId, t.date) + Later(tb, t.pfId, t.date)
  {
    var rows := Filter(HasPf(t.pfId), tb.transactions);
    Appended(HasPf(t.pfId), tb.transactions, t);
    assert (rows + [t])[..|rows + [t]| - 1] == rows;
    SortSorted(ByDate, rows);
    InsertedAmid(Sort(ByDate, rows), t);
  }

  lemma LoadIsOlder(tb: Tables, pfId: Id)
    requires LedgerTables(tb)
    ensures forall u :: u in OfPortfolioFund(tb, pfId) ==> NotId(tb.nextId)(u)
  {
    SortMembers(ByDate, Filter(HasPf(pfId), tb.transactions));
    FilterMembers(HasPf(pfId), tb.transactions);
    forall u | u in OfPortfolioFund(tb, pfId)
      ensures NotId(tb.nextId)(u)
    {
      InOwnRows(tb, u);
    }
  }

  lemma OnlyOneDropped(a: seq<Transaction>, t: Transaction, b: seq<Transaction>)
    requires forall u :: u in a + b ==> NotId(t.id)(u)
    ensures Filter(NotId(t.id), a + [t] + b) == a + b
  {
    assert forall u :: u in a || u in b ==> u in a + b;
    FilterParts(NotId(t.id), a, t, b);
    FilterAll(NotId(t.id), a);
    FilterAll(NotId(t.id), b);
    assert a + [] + b == a + b;
  }

  /** The position a sale is checked against is that of all the other rows, whatever their dates. */
  lemma PositionOfOthers(tb: Tables, t: Transaction)
    requires LedgerTables(tb) && t.id == tb.nextId
    ensures Filter(NotId(t.id), OfPortfolioFund(WithTransaction(tb, t), t.pfId)) == OfPortfolioFund(tb, t.pfId)
  {
    LoadInserted(tb, t);
    LoadIsOlder(tb, t.pfId);
    OnlyOneDropped(Earlier(tb, t.pfId, t.date), t, Later(tb, t.pfId, t.date));
  }

  lemma NextInvested(tb: Tables, pf: PortfolioFund, t: Transaction)
    ensures Invested(WithTransaction(tb, t), pf) == Invested(tb, pf) + if t.pfId == pf.id then MoneyIn(t) else 0.0
  {
    Appended(HasPf(pf.id), tb.transactions, t);
    SumConcat(MoneyIn, Filter(HasPf(pf.id), tb.transactions), [t]);
    SumOne(MoneyIn, t);
  }

  lemma BookedBasis(tb: Tables, t: Transaction, p: Position) returns (g: RealizedGain, pf: PortfolioFund)
    requires Booked(tb, t).Ok? && PositionWithout(tb, t.pfId, t.id) == Ok(p)
    ensures Booked(tb, t).value == tb.(gains := tb.gains + [g], nextId := tb.nextId + 1)
    ensures FindPf(tb, t.pfId) == Some(pf) && g.portfolioId == pf.portfolioId && g.fundId == pf.fundId
    ensures g.costBasis == AverageCost(p) * t.shares && p.shares >= t.shares
  {
    pf := FindPf(tb, t.pfId).value;
    g := GainFor(tb.nextId, t, pf, p);
  }

  lemma NextSoldBasis(tb: Tables, after: Tables, pf: PortfolioFund, g: RealizedGain)
    requires after.gains == tb.gains + [g]
    ensures SoldBasis(after, pf) == SoldBasis(tb, pf) + if OnFund(pf)(g) then g.costBasis else 0.0
  {
    Appended(OnFund(pf), tb.gains, g);
    SumConcat(BasisOf, Filter(OnFund(pf), tb.gains), [g]);
    SumOne(BasisOf, g);
  }

  lemma NextBasis(tb: Tables, pf: PortfolioFund, t: Transaction, p: Position)
    requires LedgerTables(tb) && pf in tb.portfolioFunds && t.id == tb.nextId
    requires Booked(WithTransaction(tb, t), t).Ok? && PositionWithout(WithTransaction(tb, t), t.pfId, t.id) == Ok(p)
    ensures SoldBasis(Booked(WithTransaction(tb, t), t).value, pf) == SoldBasis(tb, pf) +
              if t.pfId == pf.id then AverageCost(p) * t.shares else 0.0
    ensures p.shares >= t.shares
  {
    var g, pf' := BookedBasis(WithTransaction(tb, t), t, p);
    FoundRow(IsPf(t.pfId), tb.portfolioFunds);
    PairsIdentify(tb, pf, pf');
    NextSoldBasis(tb, Booked(WithTransaction(tb, t), t).value, pf, g);
  }

  // ----------------------------------------------------------- one creation

  function NewTransaction(tb: Tables, req: CreateRequest): Transaction
  {
    Transaction(tb.nextId, req.pfId, req.date, req.kind, req.shares, req.costPerShare)
  }

  /** The basis a sale is booked with: the average over everything entered, whatever its date. */
  function Basis(all: Position, t: Transaction): real
  {
    if t.kind.Sell? then AverageCost(all) * t.shares else 0.0
  }

  lemma CreatedBasis(tb: Tables, pf: PortfolioFund, req: CreateRequest)
    requires LedgerTables(tb) && pf in tb.portfolioFunds && Created(tb, req).Ok? && req.pfId == pf.id
    ensures var t, after := NewTransaction(tb, req), Created(tb, req).value;
            && after.transactions == tb.transactions + [t]
            && SoldBasis(after, pf) == SoldBasis(tb, pf) + Basis(PositionOf(OfPortfolioFund(tb, pf.id)), t)
            && (t.kind.Sell? ==> PositionOf(OfPortfolioFund(tb, pf.id)).shares >= t.shares)
  {
    var t := NewTransaction(tb, req);
    if req.kind.Sell? {
      PositionOfOthers(tb, t);
      NextBasis(tb, pf, t, PositionOf(OfPortfolioFund(tb, pf.id)));
    }
  }

  /** What a new row books and the later sales took before is what it and they take now. */
  predicate Balanced(earlier: seq<Transaction>, later: seq<Transaction>, t: Transaction)
  {
    var p := PositionOf(earlier);
    Basis(PositionOf(earlier + later), t) + Released(p, later) == Taken(p, t) + Released(PositionStep(p, t), later)
  }

  lemma ReleasedAround(a: seq<Transaction>, t: Transaction, b: seq<Transaction>)
    ensures var start, p := Position(0.0, 0.0), PositionOf(a);
            && Released(start, a + b) == Released(start, a) + Released(p, b)
            && Released(start, a + [t] + b) == Released(start, a) + (Taken(p, t) + Released(PositionStep(p, t), b))
  {
    var start := Position(0.0, 0.0);
    ReleasedConcat(start, a, b);
    assert a + [t] + b == a + ([t] + b);
    ReleasedConcat(start, a, [t] + b);
    assert ([t] + b)[1..] == b;
  }

  /**
   Entering a transaction of any date conserves the fund if and only if it is balanced: for a sale, if what
   it is booked with is what it takes at its date, up to what the later sales take more or less for it.
   */
  lemma CreatedConservesIff(tb: Tables, pf: PortfolioFund, req: CreateRequest)
    requires LedgerTables(tb) && pf in tb.portfolioFunds && Conserved(tb, pf)
    requires Created(tb, req).Ok? && req.pfId == pf.id
    ensures Conserved(Created(tb, req).value, pf) <==>
            Balanced(Earlier(tb, pf.id, req.date), Later(tb, pf.id, req.date), NewTransaction(tb, req))
  {
    var t, after := NewTransaction(tb, req), Created(tb, req).value;
    ConservedIff(tb, pf);
    ConservedIff(after, pf);
    CreatedBasis(tb, pf, req);
    LoadInserted(tb, t);
    assert OfPortfolioFund(after, pf.id) == OfPortfolioFund(WithTransaction(tb, t), pf.id);
    ReleasedAround(Earlier(tb, pf.id, req.date), t, Later(tb, pf.id, req.date));
  }

  lemma CreatedElsewhere(tb: Tables, pf: PortfolioFund, req: CreateRequest)
    requires LedgerTables(tb) && pf in tb.portfolioFunds && Created(tb, req).Ok? && req.pfId != pf.id
    ensures Conserved(Created(tb, req).value, pf) <==> Conserved(tb, pf)
  {
    var t := NewTransaction(tb, req);
    NextInvested(tb, pf, t);
    Appended(HasPf(pf.id), tb.transactions, t);
    if req.kind.Sell? {
      NextBasis(tb, pf, t, PositionWithout(WithTransaction(tb, t), t.pfId, t.id).value);
    }
  }

  // ------------------------------------------------- with no sale after it

  predicate NoSales(ts: seq<Transaction>)
  {
    forall t :: t in ts ==> !t.kind.Sell?
  }

  lemma {:induction false} NothingReleased(p: Position, ts: seq<Transaction>)
    requires NoSales(ts)
    ensures Released(p, ts) == 0.0
    decreases |ts|
  {
    if ts != [] {
      assert ts[0] in ts && forall t :: t in ts[1..] ==> t in ts;
      NothingReleased(PositionStep(p, ts[0]), ts[1..]);
    }
  }

  /**
   A sale against what was held at its date: with shares left, the average cost has not changed since;
   otherwise what it is booked with is the whole cost of that day.
   */
  predicate Settled(then_: Position, all: Position, sold: real)
  {
    if then_.shares > sold then sold == 0.0 || AverageCost(all) == AverageCost(then_)
    else AverageCost(all) * sold == then_.cost
  }

  lemma SettledIff(then_: Position, all: Position, sold: real)
    requires sold >= 0.0
    ensures AverageCost(all) * sold == then_.cost - CostAfterSell(then_.shares, then_.cost, sold) <==>
            Settled(then_, all, sold)
  {
    if then_.shares > sold {
      var average, left := AverageCost(then_), then_.shares - sold;
      assert average * then_.shares == then_.cost && CostAfterSell(then_.shares, then_.cost, sold) == average * left;
      assert average * then_.shares - average * left == average * sold;
      assert AverageCost(all) * sold - average * sold == (AverageCost(all) - average) * sold;
      ZeroFactor(AverageCost(all) - average, sold);
    }
  }

  lemma BalancedUnsold(earlier: seq<Transaction>, later: seq<Transaction>, t: Transaction)
    requires NoSales(later)
    ensures Balanced(earlier, later, t) <==>
            (t.kind.Sell? ==> Settled(PositionOf(earlier), PositionOf(earlier + later), t.shares))
  {
    NothingReleased(PositionOf(earlier), later);
    NothingReleased(PositionStep(PositionOf(earlier), t), later);
    if t.kind.Sell? {
      SettledIff(PositionOf(earlier), PositionOf(earlier + later), t.shares);
    }
  }

  /**
   With no sale of the fund dated after it: a purchase, dividend or fee always conserves it, and a sale
   does if and only if it is settled.
   */
  lemma UnsoldSinceIff(tb: Tables, pf: PortfolioFund, req: CreateRequest)
    requires LedgerTables(tb) && pf in tb.portfolioFunds && Conserved(tb, pf)
    requires Created(tb, req).Ok? && req.pfId == pf.id && NoSales(Later(tb, pf.id, req.date))
    ensures Conserved(Created(tb, req).value, pf) <==>
            (req.kind.Sell? ==>
               Settled(PositionOf(Earlier(tb, pf.id, req.date)), PositionOf(OfPortfolioFund(tb, pf.id)), req.shares))
  {
    CreatedConservesIff(tb, pf, req);
    LoadInserted(tb, NewTransaction(tb, req));
    BalancedUnsold(Earlier(tb, pf.id, req.date), Later(tb, pf.id, req.date), NewTransaction(tb, req));
  }

  /** The new transaction is not dated before any other on its fund. */
  ghost predicate Latest(tb: Tables, pfId: Id, date: Day)
  {
    forall t :: t in tb.transactions && t.pfId == pfId ==> t.date <= date
  }

  lemma LatestIsLast(tb: Tables, pfId: Id, date: Day)
    requires Latest(tb, pfId, date)
    ensures Later(tb, pfId, date) == [] && Earlier(tb, pfId, date) == OfPortfolioFund(tb, pfId)
  {
    SortMembers(ByDate, Filter(HasPf(pfId), tb.transactions));
    FilterMembers(HasPf(pfId), tb.transactions);
    FilterNone(After(date), OfPortfolioFund(tb, pfId));
    FilterAll(UpTo(date), OfPortfolioFund(tb, pfId));
  }

  /** Entering the latest transaction of a fund conserves its cost exactly when it is no void sale. */
  lemma CreatedConserves(tb: Tables, pf: PortfolioFund, req: CreateRequest)
    requires LedgerTables(tb) && pf in tb.portfolioFunds && Conserved(tb, pf)
    requires Created(tb, req).Ok? && req.pfId == pf.id && Latest(tb, pf.id, req.date)
    ensures Conserved(Created(tb, req).value, pf) <==>
            (req.kind.Sell? ==> CostKept(PositionOf(OfPortfolioFund(tb, pf.id)), req.shares))
  {
    LatestIsLast(tb, pf.id, req.date);
    UnsoldSinceIff(tb, pf, req);
    if req.kind.Sell? {
      var p := PositionOf(OfPortfolioFund(tb, pf.id));
      CreatedBasis(tb, pf, req);
      SaleSplitsCost(p, req.shares);
      SettledIff(p, p, req.shares);
    }
  }

  // -------------------------------------------------------------- the runs

  function Entered(tb: Tables, req: CreateRequest): Tables
  {
    Step(tb, Create(req))
  }

  /** Every accepted request on the fund is balanced when it is entered. */
  ghost predicate AllBalanced(tb: Tables, pf: PortfolioFund, reqs: seq<CreateRequest>)
    decreases |reqs|
  {
    reqs == [] ||
    ((Created(tb, reqs[0]).Ok? && reqs[0].pfId == pf.id ==>
        Balanced(Earlier(tb, pf.id, reqs[0].date), Later(tb, pf.id, reqs[0].date), NewTransaction(tb, reqs[0]))) &&
     AllBalanced(Entered(tb, reqs[0]), pf, reqs[1..]))
  }

  /** The fund is conserved after every request of the run. */
  ghost predicate ConservedThroughout(tb: Tables, pf: PortfolioFund, reqs: seq<CreateRequest>)
    decreases |reqs|
  {
    Conserved(tb, pf) && (reqs == [] || ConservedThroughout(Entered(tb, reqs[0]), pf, reqs[1..]))
  }

  lemma EnteredConservesIff(tb: Tables, pf: PortfolioFund, req: CreateRequest)
    requires Consistent(tb) && pf in tb.portfolioFunds && Conserved(tb, pf)
    ensures Conserved(Entered(tb, req), pf) <==>
            (Created(tb, req).Ok? && req.pfId == pf.id ==>
               Balanced(Earlier(tb, pf.id, req.date), Later(tb, pf.id, req.date), NewTransaction(tb, req)))
    ensures Consistent(Entered(tb, req)) && pf in Entered(tb, req).portfolioFunds
  {
    StepConsistent(tb, Create(req));
    if Created(tb, req).Ok? {
      if req.pfId == pf.id {
        CreatedConservesIff(tb, pf, req);
      } else {
        CreatedElsewhere(tb, pf, req);
      }
    }
  }

  /**
   Over any run of accepted and refused requests, of whatever dates: at every moment the recorded cost bases
   and the remaining cost of a fund add up to all its purchases, reinvested dividends and fees, if and only
   if every accepted request on it is balanced.
   */
  lemma {:induction false} CostConservation(tb: Tables, pf: PortfolioFund, reqs: seq<CreateRequest>)
    requires Consistent(tb) && pf in tb.portfolioFunds && Conserved(tb, pf)
    ensures ConservedThroughout(tb, pf, reqs) <==> AllBalanced(tb, pf, reqs)
    ensures AllBalanced(tb, pf, reqs) ==> Conserved(Fold(Entered, tb, reqs), pf)
    ensures Consistent(Fold(Entered, tb, reqs)) && pf in Fold(Entered, tb, reqs).portfolioFunds
    decreases |reqs|
  {
    if reqs != [] {
      EnteredConservesIff(tb, pf, reqs[0]);
      if Conserved(Entered(tb, reqs[0]), pf) {
        CostConservation(Entered(tb, reqs[0]), pf, reqs[1..]);
      } else {
        RunKeepsFund(Entered(tb, reqs[0]), pf, reqs[1..]);
      }
    }
  }

  lemma {:induction false} RunKeepsFund(tb: Tables, pf: PortfolioFund, reqs: seq<CreateRequest>)
    requires Consistent(tb) && pf in tb.portfolioFunds
    ensures Consistent(Fold(Entered, tb, reqs)) && pf in Fold(Entered, tb, reqs).portfolioFunds
    decreases |reqs|
  {
    if reqs != [] {
      StepConsistent(tb, Create(reqs[0]));
      RunKeepsFund(Entered(tb, reqs[0]), pf, reqs[1..]);
    }
  }

  /** Each request is dated after all sales of its fund and, if it sells, settled: purchases in any order. */
  ghost predicate SalesInOrder(tb: Tables, pf: PortfolioFund, reqs: seq<CreateRequest>)
    decreases |reqs|
  {
    reqs == [] ||
    ((Created(tb, reqs[0]).Ok? && reqs[0].pfId == pf.id ==>
        && NoSales(Later(tb, pf.id, reqs[0].date))
        && (reqs[0].kind.Sell? ==>
              Settled(PositionOf(Earlier(tb, pf.id, reqs[0].date)), PositionOf(OfPortfolioFund(tb, pf.id)),
                      reqs[0].shares))) &&
     SalesInOrder(Entered(tb, reqs[0]), pf, reqs[1..]))
  }

  lemma {:induction false} SalesInOrderBalanced(tb: Tables, pf: PortfolioFund, reqs: seq<CreateRequest>)
    requires Consistent(tb) && pf in tb.portfolioFunds && Conserved(tb, pf) && SalesInOrder(tb, pf, reqs)
    ensures AllBalanced(tb, pf, reqs)
    decreases |reqs|
  {
    if reqs != [] {
      EnteredConservesIff(tb, pf, reqs[0]);
      if Created(tb, reqs[0]).Ok? && reqs[0].pfId == pf.id {
        UnsoldSinceIff(tb, pf, reqs[0]);
      }
      SalesInOrderBalanced(Entered(tb, reqs[0]), pf, reqs[1..]);
    }
  }

  /** Each request is the latest of its fund when it is entered, and sells at least something. */
  ghost predicate InDateOrder(tb: Tables, reqs: seq<CreateRequest>)
    decreases |reqs|
  {
    reqs == [] ||
    (Latest(tb, reqs[0].pfId, reqs[0].date) && (reqs[0].kind.Sell? ==> reqs[0].shares > 0.0) &&
     InDateOrder(Entered(tb, reqs[0]), reqs[1..]))
  }

  /** Runs in date order with positive sales are conserved throughout. */
  lemma {:induction false} DateOrderConserves(tb: Tables, pf: PortfolioFund, reqs: seq<CreateRequest>)
    requires Consistent(tb) && pf in tb.portfolioFunds && Conserved(tb, pf) && InDateOrder(tb, reqs)
    ensures AllBalanced(tb, pf, reqs)
    decreases |reqs|
  {
    if reqs != [] {
      EnteredConservesIff(tb, pf, reqs[0]);
      if Created(tb, reqs[0]).Ok? && reqs[0].pfId == pf.id {
        CreatedConserves(tb, pf, reqs[0]);
      }
      DateOrderConserves(Entered(tb, reqs[0]), pf, reqs[1..]);
    }
  }

  lemma NothingEnteredYet(tb: Tables, pf: PortfolioFund)
    requires Consistent(tb) && Filter(HasPf(pf.id), tb.transactions) == [] && pf in tb.portfolioFunds
    ensures Conserved(tb, pf)
  {
    forall g | g in tb.gains
      ensures !OnFund(pf)(g)
    {
      InOwnGains(tb, g);
      assert LedgerOk(tb, g.transactionId);
      var t := RowsOf(tb, g.transactionId)[0];
      FoundRow(HasId(g.transactionId), tb.transactions);
      FoundRow(IsPf(t.pfId), tb.portfolioFunds);
      FilterMembers(HasPf(pf.id), tb.transactions);
      var pf' := FindPf(tb, t.pfId).value;
      assert t !in Filter(HasPf(pf.id), tb.transactions);
      PairsIdentify(tb, pf, pf');
    }
    FilterNone(OnFund(pf), tb.gains);
  }

  // ---------------------------------------------------- realized and not

  lemma {:induction false} GainIsProceedsLessBasis(gains: seq<RealizedGain>)
    requires forall g :: g in gains ==> g.gain == g.saleProceeds - g.costBasis
    ensures Sum(GainOf, gains) == Sum(ProceedsOf, gains) - Sum(BasisOf, gains)
  {
    if gains != [] {
      assert gains[0] in gains && forall g :: g in gains[1..] ==> g in gains;
      GainIsProceedsLessBasis(gains[1..]);
    }
  }

  lemma EveryGainAddsUp(tb: Tables, g: RealizedGain)
    requires LedgerTables(tb) && g in tb.gains
    ensures g.gain == g.saleProceeds - g.costBasis
  {
    InOwnGains(tb, g);
    assert LedgerOk(tb, g.transactionId);
  }

  /**
   For a fund without reinvested dividends, at any price: realized plus unrealized gain is the market value
   plus the proceeds of all sales less the money invested.
   */
  lemma RealizedPlusUnrealized(tb: Tables, pf: PortfolioFund, reqs: seq<CreateRequest>, price: real)
    requires Consistent(tb) && pf in tb.portfolioFunds && Conserved(tb, pf) && AllBalanced(tb, pf, reqs)
    requires forall t :: t in Fold(Entered, tb, reqs).transactions && t.pfId == pf.id ==> !t.kind.Dividend?
    ensures var after := Fold(Entered, tb, reqs);
            var metrics := Valued(MetricsOf(0.0, OfPortfolioFund(after, pf.id)), price);
            var gains := Filter(OnFund(pf), after.gains);
            Sum(GainOf, gains) + metrics.unrealizedGain ==
              metrics.value + Sum(ProceedsOf, gains) - Invested(after, pf)
  {
    var after := Fold(Entered, tb, reqs);
    CostConservation(tb, pf, reqs);
    FilterMembers(OnFund(pf), after.gains);
    forall g | g in Filter(OnFund(pf), after.gains)
      ensures g.gain == g.saleProceeds - g.costBasis
    {
      EveryGainAddsUp(after, g);
    }
    GainIsProceedsLessBasis(Filter(OnFund(pf), after.gains));
    FilterMembers(HasPf(pf.id), after.transactions);
    SortMembers(ByDate, Filter(HasPf(pf.id), after.transactions));
    CostsMove(Metrics(0.0, 0.0, 0.0, 0.0), Position(0.0, 0.0), OfPortfolioFund(after, pf.id));
  }

  lemma LoadOfThree(a: Transaction, b: Transaction, c: Transaction)
    requires a.date < c.date < b.date
    ensures Sort(ByDate, [a, b, c]) == [a, c, b]
  {
    var abc, ab := [a, b, c], [a, b];
    assert abc[..2] == ab && ab[..1] == [a] && [a][..0] == [];
    assert Sort(ByDate, [a]) == [a];
    assert [a][1..] == [] && Insert(ByDate, [a], b) == [a, b];
    assert ab[1..] == [b] && Insert(ByDate, [b], c) == [c] + [b];
    assert Insert(ByDate, [a, b], c) == [a] + Insert(ByDate, [b], c);
  }

  // -------------------------------------------------------- out of order

  const OnlyPf: PortfolioFund := PortfolioFund(1, 0, 0)

  /** One portfolio with one fund, before anything is entered. */
  const Opening: Tables := Tables({0}, [FundRow(0, "", "")], [OnlyPf], [], [], [], [], [], [], [], 2)

  const FirstBuy: Transaction := Transaction(2, 1, 1, Buy, 1.0, 10.0)
  const SecondBuy: Transaction := Transaction(3, 1, 3, Buy, 1.0, 30.0)
  const BackSale: Transaction := Transaction(4, 1, 2, Sell, 1.0, 50.0)

  function RequestOf(t: Transaction): CreateRequest
  {
    CreateRequest(t.pfId, t.date, t.kind, t.shares, t.costPerShare)
  }

  const TwoBuys: Tables := Opening.(transactions := [FirstBuy, SecondBuy], nextId := 4)

  lemma BuysEntered()
    ensures Consistent(Opening) && Conserved(Opening, OnlyPf)
    ensures Created(Opening, RequestOf(FirstBuy)) == Ok(Opening.(transactions := [FirstBuy], nextId := 3))
    ensures Created(Opening.(transactions := [FirstBuy], nextId := 3), RequestOf(SecondBuy)) == Ok(TwoBuys)
  {
    FilterOne(IsPf(1), OnlyPf);
    forall id: Id ensures PfOk(Opening, id) { FilterOne(IsPf(id), OnlyPf); }
    forall p: Id, f: Id ensures PairOk(Opening, p, f) { FilterOne(Inbox.IsPair(p, f), OnlyPf); }
    InitialTablesConsistent(Opening);
    NothingEnteredYet(Opening, OnlyPf);
    assert [] + [FirstBuy] == [FirstBuy] && [FirstBuy] + [SecondBuy] == [FirstBuy, SecondBuy];
  }

  lemma BuysPosition()
    ensures PositionOf([FirstBuy, SecondBuy]) == Position(2.0, 40.0)
    ensures PositionOf([FirstBuy, BackSale, SecondBuy]) == Position(1.0, 30.0)
  {
    var ab, acb, cb := [FirstBuy, SecondBuy], [FirstBuy, BackSale, SecondBuy], [BackSale, SecondBuy];
    assert ab[1..] == [SecondBuy] && [SecondBuy][1..] == [] && acb[1..] == cb && cb[1..] == [SecondBuy];
    assert Fold(PositionStep, Position(1.0, 10.0), [SecondBuy]) == Position(2.0, 40.0);
    assert PositionStep(Position(1.0, 10.0), BackSale) == Position(0.0, 0.0);
    assert Fold(PositionStep, Position(0.0, 0.0), [SecondBuy]) == Position(1.0, 30.0);
    assert Fold(PositionStep, Position(1.0, 10.0), cb) == Position(1.0, 30.0);
  }

  const AllThree: seq<Transaction> := [FirstBuy, SecondBuy, BackSale]

  lemma FilterThree<T>(keep: T -> bool, a: T, b: T, c: T)
    ensures Filter(keep, [a, b, c]) ==
            (if keep(a) then [a] else []) + (if keep(b) then [b] else []) + (if keep(c) then [c] else [])
  {
    assert [a, b, c] == [a] + [b] + [c];
    FilterConcat(keep, [a] + [b], [c]);
    FilterConcat(keep, [a], [b]);
    FilterOne(keep, a);
    FilterOne(keep, b);
    FilterOne(keep, c);
  }

  lemma LoadOfAllThree(tb: Tables)
    requires tb.transactions == AllThree
    ensures OfPortfolioFund(tb, 1) == [FirstBuy, BackSale, SecondBuy]
    ensures Filter(NotId(4), OfPortfolioFund(tb, 1)) == [FirstBuy, SecondBuy]
    ensures Filter(HasPf(1), tb.transactions) == AllThree
  {
    FilterThree(HasPf(1), FirstBuy, SecondBuy, BackSale);
    assert Filter(HasPf(1), [FirstBuy, SecondBuy, BackSale]) == AllThree;
    LoadOfThree(FirstBuy, SecondBuy, BackSale);
    assert OfPortfolioFund(tb, 1) == Sort(ByDate, AllThree);
    FilterThree(NotId(4), FirstBuy, BackSale, SecondBuy);
  }

  /** The sale is booked at the average of both purchases. */
  lemma BackSaleBooked()
    ensures var after := Created(TwoBuys, RequestOf(BackSale));
            after.Ok? && after.value.transactions == AllThree && after.value.portfolioFunds == [OnlyPf] &&
            |after.value.gains| == 1 && after.value.gains[0].costBasis == 20.0 && OnFund(OnlyPf)(after.value.gains[0])
  {
    var inserted := TwoBuys.(transactions := AllThree, nextId := 5);
    assert TwoBuys.transactions + [BackSale] == AllThree;
    FilterOne(IsPf(1), OnlyPf);
    LoadOfAllThree(inserted);
    BuysPosition();
    assert PositionWithout(inserted, 1, 4) == Ok(Position(2.0, 40.0));
    assert AverageCost(Position(2.0, 40.0)) == 20.0;
  }

  lemma ThreeInvested()
    ensures Sum(MoneyIn, AllThree) == 40.0
  {
    assert AllThree == [FirstBuy] + [SecondBuy] + [BackSale];
    SumConcat(MoneyIn, [FirstBuy] + [SecondBuy], [BackSale]);
    SumConcat(MoneyIn, [FirstBuy], [SecondBuy]);
    SumOne(MoneyIn, FirstBuy);
    SumOne(MoneyIn, SecondBuy);
    SumOne(MoneyIn, BackSale);
  }

  /**
   A sale that is not settled: two purchases at different prices and then a sale dated between them, entered
   through the service. It is booked at an average that includes the later purchase, while the cost that
   remains is computed as if the sale came first: ten of the purchases' cost are counted twice.
   */
  lemma BackdatedSale()
    ensures Consistent(Opening) && Conserved(Opening, OnlyPf)
    ensures var bought := Entered(Entered(Opening, RequestOf(FirstBuy)), RequestOf(SecondBuy));
            var after := Entered(bought, RequestOf(BackSale));
            && after.transactions == AllThree && !Conserved(after, OnlyPf)
            && SoldBasis(after, OnlyPf) + Remaining(after, OnlyPf) == Invested(after, OnlyPf) + 10.0
  {
    BuysEntered();
    BackSaleBooked();
    var after := Created(TwoBuys, RequestOf(BackSale)).value;
    assert Entered(Entered(Entered(Opening, RequestOf(FirstBuy)), RequestOf(SecondBuy)), RequestOf(BackSale)) == after;
    LoadOfAllThree(after);
    BuysPosition();
    ThreeInvested();
    FilterOne(OnFund(OnlyPf), after.gains[0]);
    SumOne(BasisOf, after.gains[0]);
    assert after.gains == [after.gains[0]];
  }
}
