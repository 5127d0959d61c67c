/**
 Runs of service operations, each followed by the regenerations it requests: when the materialized table
 stays equal to the on-demand history.
 */
module CacheRuns {
  import opened Collections
  import opened Schema
  import opened Rounding
  import opened FundHistory
  import opened FundHistoryService
  import opened Causality
  import opened MaterializedCache
  import opened CacheAgreement
  import opened CacheRequests
  import opened CacheChanges
  import opened CacheCoverage
  import opened Transactions
  import opened Consistency
  import opened Operations

  // -------------------------------------------------------- what is at stake

  /** The fund's portfolio can be calculated on demand, and the table has exactly the rows it shows. */
  ghost predicate Right(tb: Tables, cache: Cache, pf: PortfolioFund, today: Day)
  {
    Readable(tb, pf.portfolioId, today) && Agrees(tb, cache, pf, today)
  }

  ghost predicate AllRight(tb: Tables, cache: Cache, today: Day)
  {
    Owned(tb, cache) && forall pf :: pf in tb.portfolioFunds ==> Right(tb, cache, pf, today)
  }

  ghost predicate Sound(tb: Tables)
  {
    Consistent(tb) && References(tb)
  }

  // ------------------------------------------------------------ one operation

  /** No day before the change shows a dividend, or the portfolio keeps having transactions. */
  ghost predicate EarlierDaysKept(tb: Tables, tb': Tables, pf: PortfolioFund, r: Day, today: Day)
  {
    SameEmptiness(tb, tb', pf.portfolioId) ||
    forall d :: d < r && d <= today ==> Round(PaidUpTo(tb, pf, d)) == 0.0
  }

  /** A change of some transactions that no dividend reinvests, with regenerations that cover them. */
  ghost predicate CoveredChange(tb: Tables, tb': Tables, qs: seq<Regeneration>, r: Day, ids: seq<Id>)
  {
    && LedgerTables(tb) && LedgerTables(tb') && tb.portfolioFunds == tb'.portfolioFunds
    && SameBut(tb, tb', ids) && NotReinvested(tb, ids) && AllFrom(qs, r)
    && Covers(tb', qs, r, tb, ids) && Covers(tb', qs, r, tb', ids)
  }

  lemma EarlierRows(
    tb: Tables, tb': Tables, qs: seq<Regeneration>, r: Day, ids: seq<Id>, pf: PortfolioFund, today: Day)
    requires CoveredChange(tb, tb', qs, r, ids) && pf in tb.portfolioFunds
    ensures SameBefore(tb, tb', pf, r, today) <==> EarlierDaysKept(tb, tb', pf, r, today)
  {
    CoveredFrom(tb', qs, r, tb, ids);
    CoveredFrom(tb', qs, r, tb', ids);
    AllGainsBacked(tb);
    AllGainsBacked(tb');
    FilterMembers(InPortfolio(pf.portfolioId), tb.portfolioFunds);
    forall d | d < r && d <= today
      ensures Oracle(tb, pf, d, today) == Oracle(tb', pf, d, today) <==>
              SameEmptiness(tb, tb', pf.portfolioId) || Round(PaidUpTo(tb, pf, d)) == 0.0
    {
      CausalityTheorem(tb, tb', pf.portfolioId, pf, d, today, ids, r);
    }
    assert forall d :: d > today ==> Oracle(tb, pf, d, today) == Oracle(tb', pf, d, today);
  }

  lemma UnreachedRow(
    tb: Tables, tb': Tables, qs: seq<Regeneration>, r: Day, ids: seq<Id>, pf: PortfolioFund, d: Day, today: Day)
    requires CoveredChange(tb, tb', qs, r, ids) && pf in tb.portfolioFunds && !Reached(tb', qs, pf.portfolioId)
    ensures Oracle(tb, pf, d, today) == Oracle(tb', pf, d, today)
  {
    CoveredElsewhere(tb', qs, r, tb, ids, pf.portfolioId);
    CoveredElsewhere(tb', qs, r, tb', ids, pf.portfolioId);
    FilterMembers(InPortfolio(pf.portfolioId), tb.portfolioFunds);
    UntouchedPortfolio(tb, tb', pf.portfolioId, pf, d, today, ids);
  }

  lemma UnreachedReadable(
    tb: Tables, tb': Tables, qs: seq<Regeneration>, r: Day, ids: seq<Id>, p: Id, today: Day)
    requires CoveredChange(tb, tb', qs, r, ids) && !Reached(tb', qs, p) && Readable(tb, p, today)
    ensures Readable(tb', p, today)
  {
    CoveredElsewhere(tb', qs, r, tb', ids, p);
    FilterMembers(RowNotIn(ids), tb.transactions);
    FilterMembers(RowNotIn(ids), tb'.transactions);
    forall t | t in tb'.transactions && t.pfId in PfIds(FundsOf(tb', p)) && t.date <= today
      ensures !t.kind.Other?
    {
      assert t in Filter(RowNotIn(ids), tb'.transactions);
    }
  }

  /**
   What a fund in a regenerated portfolio needs: nothing unreadable is due, its earlier days do not depend
   on the change, and its later days are recomputed or did not change.
   */
  ghost predicate KeptRight(
    tb: Tables, tb': Tables, qs: seq<Regeneration>, r: Day, pf: PortfolioFund, today: Day)
  {
    && Readable(tb', pf.portfolioId, today)
    && EarlierDaysKept(tb, tb', pf, r, today)
    && (SomeRefreshes(tb', qs, pf, today) || SameFrom(tb, tb', pf, r, today))
  }

  lemma CoveredChangeIff(
    tb: Tables, tb': Tables, cache: Cache, qs: seq<Regeneration>, r: Day, ids: seq<Id>, pf: PortfolioFund, today: Day)
    requires CoveredChange(tb, tb', qs, r, ids) && pf in tb.portfolioFunds && Right(tb, cache, pf, today)
    ensures Right(tb', ServeAll(tb', cache, qs, today), pf, today) <==>
            (Reached(tb', qs, pf.portfolioId) ==> KeptRight(tb, tb', qs, r, pf, today))
  {
    PfIdsDistinct(tb');
    ServedAgreesIff(tb, tb', cache, qs, r, today, pf);
    if Reached(tb', qs, pf.portfolioId) {
      EarlierRows(tb, tb', qs, r, ids, pf, today);
    } else {
      UnreachedReadable(tb, tb', qs, r, ids, pf.portfolioId, today);
      forall d
        ensures Oracle(tb, pf, d, today) == Oracle(tb', pf, d, today)
      {
        UnreachedRow(tb, tb', qs, r, ids, pf, d, today);
      }
    }
  }

  // --------------------------------------------------------- one operation

  /** The table after an operation and the regenerations it requests; a refused operation requests none. */
  ghost function Refreshed(tb: Tables, cache: Cache, op: Operation, today: Day): Cache
  {
    if Effect(tb, op).Err? then cache else ServeAll(Step(tb, op), cache, Requests(tb, op), today)
  }

  /** An accepted operation keeps every fund of the portfolios it has regenerated right. */
  ghost predicate Harmless(tb: Tables, op: Operation, today: Day)
  {
    Effect(tb, op).Ok? ==>
      var tb' := Step(tb, op);
      forall pf :: pf in tb'.portfolioFunds && Reached(tb', Requests(tb, op), pf.portfolioId) ==>
        KeptRight(Widened(tb, tb'), tb', Requests(tb, op), RegenFrom(tb, op), pf, today)
  }

  /** An accepted operation is such a change, once the portfolio funds it adds are there. */
  lemma OperationIsCovered(tb: Tables, op: Operation)
    requires Sound(tb) && Effect(tb, op).Ok? && Contained(tb, op)
    ensures var tb' := Step(tb, op);
            CoveredChange(Widened(tb, tb'), tb', Requests(tb, op), RegenFrom(tb, op), ChangedIds(tb, op))
  {
    StepConsistent(tb, op);
    StepGrows(tb, op);
    WidenedLedger(tb, Step(tb, op));
    ChangeIsLocal(tb, op);
    ContainedNotReinvested(tb, op);
    RequestsFrom(tb, op);
    RequestsCover(tb, op);
  }

  lemma WidenedRight(tb: Tables, op: Operation, cache: Cache, pf: PortfolioFund, today: Day)
    requires Sound(tb) && AllRight(tb, cache, today) && pf in Step(tb, op).portfolioFunds
    ensures Right(Widened(tb, Step(tb, op)), cache, pf, today)
  {
    var tb' := Step(tb, op);
    StepConsistent(tb, op);
    StepGrows(tb, op);
    WidenedAgrees(tb, tb', cache, pf, today);
    WidenedReadable(tb, tb', pf.portfolioId, today);
    if pf !in tb.portfolioFunds {
      NewPortfolioReadable(tb, cache, pf.portfolioId, today);
    }
  }

  lemma NewPortfolioReadable(tb: Tables, cache: Cache, p: Id, today: Day)
    requires AllRight(tb, cache, today)
    ensures Readable(tb, p, today)
  {
    FilterMembers(InPortfolio(p), tb.portfolioFunds);
    if FundsOf(tb, p) != [] {
      assert FundsOf(tb, p)[0] in FundsOf(tb, p);
      assert Right(tb, cache, FundsOf(tb, p)[0], today);
    }
  }

  /** One fund after one operation; funds of portfolios that are not regenerated stay right in any case. */
  lemma ChangedAgreesIff(tb: Tables, cache: Cache, op: Operation, today: Day, pf: PortfolioFund)
    requires Sound(tb) && AllRight(tb, cache, today) && Effect(tb, op).Ok? && Contained(tb, op)
    requires pf in Step(tb, op).portfolioFunds
    ensures Right(Step(tb, op), Refreshed(tb, cache, op, today), pf, today) <==>
            (Reached(Step(tb, op), Requests(tb, op), pf.portfolioId) ==>
               KeptRight(Widened(tb, Step(tb, op)), Step(tb, op), Requests(tb, op), RegenFrom(tb, op), pf, today))
  {
    var tb' := Step(tb, op);
    OperationIsCovered(tb, op);
    WidenedRight(tb, op, cache, pf, today);
    CoveredChangeIff(Widened(tb, tb'), tb', cache, Requests(tb, op), RegenFrom(tb, op), ChangedIds(tb, op), pf, today);
  }

  lemma RefreshedOwned(tb: Tables, cache: Cache, op: Operation, today: Day)
    requires Consistent(tb) && Owned(tb, cache)
    ensures Owned(Step(tb, op), Refreshed(tb, cache, op, today))
  {
    StepGrows(tb, op);
    forall k | k in cache
      ensures k.pfId in PfIds(Step(tb, op).portfolioFunds)
    {
      PfIdsGrow(tb.portfolioFunds, Step(tb, op).portfolioFunds, k.pfId);
    }
    if Effect(tb, op).Ok? {
      ServedAllOwned(Step(tb, op), cache, Requests(tb, op), today);
    }
  }

  /**
   From a right table, any operation followed by the regenerations it requests, whichever of them is
   refused, leaves a right table if and only if it is harmless. The operation must not update a
   transaction that a dividend reinvests, nor unallocate a trade whose transactions were moved.
   */
  lemma RefreshedAgreesIff(tb: Tables, cache: Cache, op: Operation, today: Day)
    requires Sound(tb) && AllRight(tb, cache, today) && Contained(tb, op)
    ensures AllRight(Step(tb, op), Refreshed(tb, cache, op, today), today) <==> Harmless(tb, op, today)
  {
    RefreshedOwned(tb, cache, op, today);
    if Effect(tb, op).Ok? {
      forall pf | pf in Step(tb, op).portfolioFunds
        ensures Right(Step(tb, op), Refreshed(tb, cache, op, today), pf, today) <==>
                (Reached(Step(tb, op), Requests(tb, op), pf.portfolioId) ==>
                   KeptRight(Widened(tb, Step(tb, op)), Step(tb, op), Requests(tb, op), RegenFrom(tb, op), pf, today))
      {
        ChangedAgreesIff(tb, cache, op, today, pf);
      }
    }
  }

  // ----------------------------------------- creating, updating and deleting

  /** The requests of a change of one transaction name one portfolio fund each. */
  lemma RequestOfOne(tb: Tables, op: Operation, q: Regeneration, p: Id)
    requires OfTransactions(op) && Effect(tb, op).Ok? && q in Requests(tb, op) && Reaches(Step(tb, op), q, p)
    ensures q.from == RegenFrom(tb, op) && Resolve(Step(tb, op), q.scope) == Ok([p])
  {
  }

  /**
   For a change of one transaction the condition on the later days is that the fund keeps a row from the
   change on or had none: rows are deleted only for funds that have recomputed ones.
   */
  lemma LaterDaysIff(tb: Tables, op: Operation, pf: PortfolioFund, today: Day)
    requires Sound(tb) && OfTransactions(op) && Effect(tb, op).Ok? && pf in tb.portfolioFunds
    requires Reached(Step(tb, op), Requests(tb, op), pf.portfolioId) && Readable(Step(tb, op), pf.portfolioId, today)
    ensures SomeRefreshes(Step(tb, op), Requests(tb, op), pf, today) ||
            SameFrom(tb, Step(tb, op), pf, RegenFrom(tb, op), today) <==>
            RowsKept(tb, Step(tb, op), pf, RegenFrom(tb, op), today)
  {
    var tb', qs, r := Step(tb, op), Requests(tb, op), RegenFrom(tb, op);
    StepGrows(tb, op);
    assert pf in tb'.portfolioFunds;
    var q :| q in qs && Reaches(tb', q, pf.portfolioId);
    RequestOfOne(tb, op, q, pf.portfolioId);
    OnePortfolioIff(tb, tb', q, pf, today);
    if SomeRefreshes(tb', qs, pf, today) {
      var q' :| q' in qs && Refreshes(tb', q', pf, today);
      RequestOfOne(tb, op, q', pf.portfolioId);
      OnePortfolioIff(tb, tb', q', pf, today);
    }
  }

  // ---------------------------------------------------------------- the runs

  /** Every operation of the run is contained and harmless. */
  ghost predicate Smooth(tb: Tables, ops: seq<Operation>, today: Day)
    decreases |ops|
  {
    ops == [] ||
    (Contained(tb, ops[0]) && Harmless(tb, ops[0], today) && Smooth(Step(tb, ops[0]), ops[1..], today))
  }

  ghost function CacheAfter(tb: Tables, cache: Cache, ops: seq<Operation>, today: Day): Cache
    decreases |ops|
  {
    if ops == [] then cache
    else CacheAfter(Step(tb, ops[0]), Refreshed(tb, cache, ops[0], today), ops[1..], today)
  }

  lemma StepSound(tb: Tables, op: Operation)
    requires Sound(tb)
    ensures Sound(Step(tb, op))
  {
    StepConsistent(tb, op);
    StepReferences(tb, op);
  }

  /**
   The materialized table equals the on-demand history, at every portfolio fund and day, after any such
   run of service operations.
   */
  lemma {:induction false} CacheEqualsOracle(tb: Tables, cache: Cache, ops: seq<Operation>, today: Day)
    requires Sound(tb) && AllRight(tb, cache, today) && Smooth(tb, ops, today)
    ensures AllRight(Run(tb, ops), CacheAfter(tb, cache, ops, today), today)
    decreases |ops|
  {
    if ops != [] {
      RefreshedAgreesIff(tb, cache, ops[0], today);
      StepSound(tb, ops[0]);
      CacheEqualsOracle(Step(tb, ops[0]), Refreshed(tb, cache, ops[0], today), ops[1..], today);
    }
  }

  /** An empty table is right for tables in which nothing has happened, so runs from the start are covered. */
  lemma NothingCachedYet(tb: Tables, today: Day)
    requires Sound(tb) && tb.transactions == [] && tb.dividends == []
    ensures AllRight(tb, map[], today)
  {
    forall pf | pf in tb.portfolioFunds
      ensures Right(tb, map[], pf, today)
    {
      forall d
        ensures Oracle(tb, pf, d, today).None?
      {
        assert tb.gains == [] by {
          if tb.gains != [] {
            var t, own := GainBacked(tb, tb.gains[0]);
          }
        }
        UnusedShowsNothing(tb, pf, d, today);
      }
    }
  }
}
