/**
 Regenerations run in the background, one at a time: other operations may commit before a requested one
 begins, and between its calculation and its write. Whatever the order, every row that differs from the
 on-demand history is in the hands of a regeneration or awaits one.
 */
module CacheInterleavings {
  import opened Collections
  import opened Schema
  import opened FundHistory
  import opened FundHistoryService
  import opened Causality
  import opened MaterializedCache
  import opened CacheAgreement
  import opened CacheRequests
  import opened CacheChanges
  import opened CacheCoverage
  import opened CacheRuns
  import opened CachePrices
  import opened Consistency
  import opened Operations

  /** A regeneration that has read the tables and not written yet. */
  datatype Running = Running(q: Regeneration, seen: Tables)

  /** The tables, the materialized one, the regenerations requested but not begun, and the one under way. */
  datatype State = State(tb: Tables, cache: Cache, waiting: seq<Regeneration>, running: Option<Running>)

  datatype Event =
    | Commit(op: Operation)
    | AddPrices(fundId: Id, from: Day, prices: seq<FundPrice>)
    | Begin(i: nat)
    | Finish

  function Rest(qs: seq<Regeneration>, i: nat): seq<Regeneration>
    requires i < |qs|
  {
    qs[..i] + qs[i + 1..]
  }

  /** A regeneration calculates from the tables as they are when it begins, and writes when it finishes. */
  ghost function After(s: State, e: Event, today: Day): State
  {
    match e
    case Commit(op) =>
      if Effect(s.tb, op).Err? then s
      else s.(tb := Step(s.tb, op), waiting := s.waiting + Requests(s.tb, op))
    case AddPrices(fundId, from, prices) =>
      s.(tb := WithPrices(s.tb, prices), waiting := s.waiting + [ForFund(from, fundId)])
    case Begin(i) =>
      if s.running.Some? || i >= |s.waiting| then s
      else s.(waiting := Rest(s.waiting, i), running := Some(Running(s.waiting[i], s.tb)))
    case Finish =>
      match s.running
      case None => s
      case Some(r) => s.(cache := ServeOne(r.seen, s.cache, r.q, today), running := None)
  }

  // ----------------------------------------------------------- the invariant

  ghost predicate Awaits(tb: Tables, waiting: seq<Regeneration>, pf: PortfolioFund, d: Day)
  {
    exists q :: q in waiting && q.from <= d && Reaches(tb, q, pf.portfolioId)
  }

  /** The regeneration under way will recompute the row, or was to. */
  ghost predicate InHand(running: Option<Running>, pf: PortfolioFund, d: Day)
  {
    running.Some? && pf in running.value.seen.portfolioFunds && running.value.q.from <= d &&
    Reaches(running.value.seen, running.value.q, pf.portfolioId)
  }

  /** The row of the fund and day is right, or a regeneration that will recompute it waits or is under way. */
  ghost predicate Attended(s: State, pf: PortfolioFund, d: Day, today: Day)
  {
    || Cached(s.cache, pf.id, d) == Oracle(s.tb, pf, d, today)
    || Awaits(s.tb, s.waiting, pf, d)
    || InHand(s.running, pf, d)
  }

  ghost predicate AllAttended(s: State, today: Day)
  {
    forall pf, d :: pf in s.tb.portfolioFunds ==> Attended(s, pf, d, today)
  }

  /** What the regeneration under way has read is still true of the row, or the row awaits another one. */
  ghost predicate StillTrue(s: State, seen: Tables, pf: PortfolioFund, d: Day, today: Day)
  {
    Oracle(seen, pf, d, today) == Oracle(s.tb, pf, d, today) || Awaits(s.tb, s.waiting, pf, d)
  }

  ghost predicate AllStillTrue(s: State, today: Day)
  {
    s.running.Some? ==>
      forall pf, d :: pf in s.running.value.seen.portfolioFunds ==> StillTrue(s, s.running.value.seen, pf, d, today)
  }

  /** The tables that a regeneration under way has read were sound, and funds have only been added since. */
  ghost predicate ReadBefore(r: Running, tb: Tables)
  {
    LedgerTables(r.seen) && r.seen.portfolioFunds <= tb.portfolioFunds && Distinct(r.q.scope.portfolioIds)
  }

  ghost predicate WellFormed(s: State)
  {
    && Sound(s.tb) && Owned(s.tb, s.cache)
    && (forall q :: q in s.waiting ==> Distinct(q.scope.portfolioIds))
    && (s.running.Some? ==> ReadBefore(s.running.value, s.tb))
  }

  ghost predicate Inv(s: State, today: Day)
  {
    WellFormed(s) && AllAttended(s, today) && AllStillTrue(s, today)
  }

  // ---------------------------------------------------------- a commit

  lemma ReachesGrows(tb: Tables, tb': Tables, q: Regeneration, p: Id)
    requires tb.portfolioFunds <= tb'.portfolioFunds
    requires DistinctPfIds(tb.portfolioFunds) && DistinctPfIds(tb'.portfolioFunds) && Reaches(tb, q, p)
    ensures Reaches(tb', q, p)
  {
    ResolvedIs(tb, q.scope, p);
    assert InScope(tb', q.scope, p) by {
      assert forall pf :: pf in tb.portfolioFunds ==> pf in tb'.portfolioFunds;
    }
    ResolvesIff(tb', q.scope);
    ResolvedIs(tb', q.scope, p);
  }

  lemma AwaitsGrows(tb: Tables, tb': Tables, waiting: seq<Regeneration>, pf: PortfolioFund, d: Day)
    requires tb.portfolioFunds <= tb'.portfolioFunds && Awaits(tb, waiting, pf, d)
    requires DistinctPfIds(tb.portfolioFunds) && DistinctPfIds(tb'.portfolioFunds)
    ensures Awaits(tb', waiting, pf, d)
  {
    var q :| q in waiting && q.from <= d && Reaches(tb, q, pf.portfolioId);
    ReachesGrows(tb, tb', q, pf.portfolioId);
  }

  /** No fund of a portfolio to be regenerated shows the change before its date. */
  ghost predicate NoEarlierTrace(tb: Tables, op: Operation, today: Day)
  {
    Effect(tb, op).Ok? ==>
      var tb' := Step(tb, op);
      forall pf :: pf in tb'.portfolioFunds && Reached(tb', Requests(tb, op), pf.portfolioId) ==>
        EarlierDaysKept(Widened(tb, tb'), tb', pf, RegenFrom(tb, op), today)
  }

  lemma ReachedAwaits(tb: Tables, qs: seq<Regeneration>, r: Day, pf: PortfolioFund, d: Day)
    requires AllFrom(qs, r) && r <= d && Reached(tb, qs, pf.portfolioId)
    ensures Awaits(tb, qs, pf, d)
  {
  }

  /** A row that the operation alters awaits one of the regenerations it requests. */
  lemma AlteredAwaits(tb: Tables, op: Operation, pf: PortfolioFund, d: Day, today: Day)
    requires Sound(tb) && Effect(tb, op).Ok? && Contained(tb, op) && NoEarlierTrace(tb, op, today)
    requires pf in Step(tb, op).portfolioFunds
    requires Oracle(Widened(tb, Step(tb, op)), pf, d, today) != Oracle(Step(tb, op), pf, d, today)
    ensures Awaits(Step(tb, op), Requests(tb, op), pf, d)
  {
    var tb', qs, r, ids := Step(tb, op), Requests(tb, op), RegenFrom(tb, op), ChangedIds(tb, op);
    OperationIsCovered(tb, op);
    if !Reached(tb', qs, pf.portfolioId) {
      UnreachedRow(Widened(tb, tb'), tb', qs, r, ids, pf, d, today);
    } else {
      EarlierRows(Widened(tb, tb'), tb', qs, r, ids, pf, today);
      ReachedAwaits(tb', qs, r, pf, d);
    }
  }

  /** A row that the operation leaves alone stays attended to. */
  lemma UnalteredAttended(s: State, tb': Tables, pf: PortfolioFund, d: Day, today: Day)
    requires Inv(s, today) && LedgerTables(tb') && Grows(s.tb, tb') && pf in tb'.portfolioFunds
    ensures Cached(s.cache, pf.id, d) == Oracle(Widened(s.tb, tb'), pf, d, today) || Awaits(tb', s.waiting, pf, d) ||
            InHand(s.running, pf, d)
  {
    PfIdsDistinct(s.tb);
    PfIdsDistinct(tb');
    if pf in s.tb.portfolioFunds {
      WidenedOld(s.tb, tb', pf, d, today);
      assert Attended(s, pf, d, today);
      if Awaits(s.tb, s.waiting, pf, d) {
        AwaitsGrows(s.tb, tb', s.waiting, pf, d);
      }
    } else {
      NewUnused(s.tb, tb', pf);
      UnusedShowsNothing(Widened(s.tb, tb'), pf, d, today);
    }
  }

  /** What the regeneration under way has read of it stays true, or it goes on waiting. */
  lemma UnalteredTrue(s: State, seen: Tables, tb': Tables, pf: PortfolioFund, d: Day, today: Day)
    requires Inv(s, today) && LedgerTables(tb') && Grows(s.tb, tb')
    requires s.running.Some? && seen == s.running.value.seen && pf in seen.portfolioFunds
    ensures Oracle(seen, pf, d, today) == Oracle(Widened(s.tb, tb'), pf, d, today) || Awaits(tb', s.waiting, pf, d)
  {
    PfIdsDistinct(s.tb);
    PfIdsDistinct(tb');
    assert StillTrue(s, seen, pf, d, today);
    assert pf in s.tb.portfolioFunds;
    WidenedOld(s.tb, tb', pf, d, today);
    if Awaits(s.tb, s.waiting, pf, d) {
      AwaitsGrows(s.tb, tb', s.waiting, pf, d);
    }
  }

  lemma EitherAwaits(tb: Tables, waiting: seq<Regeneration>, more: seq<Regeneration>, pf: PortfolioFund, d: Day)
    ensures Awaits(tb, waiting, pf, d) || Awaits(tb, more, pf, d) ==> Awaits(tb, waiting + more, pf, d)
  {
  }

  /** New tables, and more requests that wait. */
  function Extended(s: State, tb': Tables, qs: seq<Regeneration>): State
  {
    s.(tb := tb', waiting := s.waiting + qs)
  }

  lemma Committed(s: State, op: Operation)
    requires Sound(s.tb)
    ensures LedgerTables(Step(s.tb, op)) && Grows(s.tb, Step(s.tb, op))
  {
    StepConsistent(s.tb, op);
    StepGrows(s.tb, op);
  }

  lemma CommitAttended(s: State, op: Operation, pf: PortfolioFund, d: Day, today: Day)
    requires Inv(s, today) && Effect(s.tb, op).Ok? && Contained(s.tb, op) && NoEarlierTrace(s.tb, op, today)
    requires pf in Step(s.tb, op).portfolioFunds
    ensures Attended(Extended(s, Step(s.tb, op), Requests(s.tb, op)), pf, d, today)
  {
    var tb', qs := Step(s.tb, op), Requests(s.tb, op);
    Committed(s, op);
    UnalteredAttended(s, tb', pf, d, today);
    if Oracle(Widened(s.tb, tb'), pf, d, today) != Oracle(tb', pf, d, today) {
      AlteredAwaits(s.tb, op, pf, d, today);
    }
    EitherAwaits(tb', s.waiting, qs, pf, d);
  }

  lemma CommitStillTrue(s: State, op: Operation, seen: Tables, pf: PortfolioFund, d: Day, today: Day)
    requires Inv(s, today) && Effect(s.tb, op).Ok? && Contained(s.tb, op) && NoEarlierTrace(s.tb, op, today)
    requires s.running.Some? && seen == s.running.value.seen && pf in seen.portfolioFunds
    ensures StillTrue(Extended(s, Step(s.tb, op), Requests(s.tb, op)), seen, pf, d, today)
  {
    var tb', qs := Step(s.tb, op), Requests(s.tb, op);
    Committed(s, op);
    UnalteredTrue(s, seen, tb', pf, d, today);
    assert pf in s.tb.portfolioFunds && pf in tb'.portfolioFunds;
    if Oracle(Widened(s.tb, tb'), pf, d, today) != Oracle(tb', pf, d, today) {
      AlteredAwaits(s.tb, op, pf, d, today);
    }
    EitherAwaits(tb', s.waiting, qs, pf, d);
  }

  lemma CommitWellFormed(s: State, op: Operation, today: Day)
    requires WellFormed(s) && Effect(s.tb, op).Ok?
    ensures WellFormed(After(s, Commit(op), today))
  {
    StepSound(s.tb, op);
    StepGrows(s.tb, op);
    RequestsFrom(s.tb, op);
    forall k | k in s.cache
      ensures k.pfId in PfIds(Step(s.tb, op).portfolioFunds)
    {
      PfIdsGrow(s.tb.portfolioFunds, Step(s.tb, op).portfolioFunds, k.pfId);
    }
  }

  /**
   An operation committed while regenerations wait or one is between its calculation and its write: what it
   alters awaits its own requests.
   */
  lemma CommitKeeps(s: State, op: Operation, today: Day)
    requires Inv(s, today) && Contained(s.tb, op) && NoEarlierTrace(s.tb, op, today)
    ensures Inv(After(s, Commit(op), today), today)
  {
    if Effect(s.tb, op).Ok? {
      var s' := Extended(s, Step(s.tb, op), Requests(s.tb, op));
      CommitWellFormed(s, op, today);
      forall pf, d | pf in s'.tb.portfolioFunds
        ensures Attended(s', pf, d, today)
      {
        CommitAttended(s, op, pf, d, today);
      }
      if s.running.Some? {
        forall pf, d | pf in s.running.value.seen.portfolioFunds
          ensures StillTrue(s', s.running.value.seen, pf, d, today)
        {
          CommitStillTrue(s, op, s.running.value.seen, pf, d, today);
        }
      }
    }
  }

  // ------------------------------------------------------------- new prices

  lemma PricesSound(tb: Tables, added: seq<FundPrice>)
    requires Sound(tb)
    ensures Sound(WithPrices(tb, added))
  {
    var tb' := WithPrices(tb, added);
    forall id: Id ensures LedgerOk(tb', id) && InboxOk(tb', id) {
      assert LedgerOk(tb, id) && InboxOk(tb, id);
      RecordKept(tb, tb', id);
    }
    PfsKept(tb, tb');
  }

  /** A row is as before, or awaits the request that the new prices make. */
  lemma PricesAwait(s: State, fundId: Id, from: Day, added: seq<FundPrice>, pf: PortfolioFund, d: Day, today: Day)
    requires Sound(s.tb) && PricesFrom(added, fundId, from) && pf in s.tb.portfolioFunds
    ensures var s' := After(s, AddPrices(fundId, from, added), today);
            && (Oracle(s'.tb, pf, d, today) == Oracle(s.tb, pf, d, today) || Awaits(s'.tb, s'.waiting, pf, d))
            && (Awaits(s.tb, s.waiting, pf, d) ==> Awaits(s'.tb, s'.waiting, pf, d))
  {
    var tb', q := WithPrices(s.tb, added), ForFund(from, fundId);
    if d < from || pf.fundId != fundId {
      PriceCausality(s.tb, added, fundId, from, pf, d, today);
    } else {
      FundScopeIs(tb', fundId, pf.portfolioId);
      assert Reaches(tb', q, pf.portfolioId) && q in [q];
      assert Awaits(tb', [q], pf, d);
    }
    if Awaits(s.tb, s.waiting, pf, d) {
      PfIdsDistinct(s.tb);
      AwaitsGrows(s.tb, tb', s.waiting, pf, d);
    }
    EitherAwaits(tb', s.waiting, [q], pf, d);
  }

  lemma PricesKeep(s: State, fundId: Id, from: Day, added: seq<FundPrice>, today: Day)
    requires Inv(s, today) && PricesFrom(added, fundId, from)
    ensures Inv(After(s, AddPrices(fundId, from, added), today), today)
  {
    var s' := After(s, AddPrices(fundId, from, added), today);
    PricesSound(s.tb, added);
    forall pf, d | pf in s'.tb.portfolioFunds
      ensures Attended(s', pf, d, today)
    {
      assert Attended(s, pf, d, today);
      PricesAwait(s, fundId, from, added, pf, d, today);
    }
    if s.running.Some? {
      forall pf, d | pf in s.running.value.seen.portfolioFunds
        ensures StillTrue(s', s.running.value.seen, pf, d, today)
      {
        assert StillTrue(s, s.running.value.seen, pf, d, today) && pf in s.tb.portfolioFunds;
        PricesAwait(s, fundId, from, added, pf, d, today);
      }
    }
  }

  // ------------------------------------------------------------- beginning

  lemma RestMembers(waiting: seq<Regeneration>, i: nat)
    requires i < |waiting|
    ensures forall q :: q in waiting <==> q in Rest(waiting, i) || q == waiting[i]
  {
    assert waiting == waiting[..i] + [waiting[i]] + waiting[i + 1..];
  }

  function Begun(s: State, i: nat): State
    requires i < |s.waiting|
  {
    s.(waiting := Rest(s.waiting, i), running := Some(Running(s.waiting[i], s.tb)))
  }

  lemma BegunAttended(s: State, i: nat, pf: PortfolioFund, d: Day, today: Day)
    requires i < |s.waiting| && s.running.None? && pf in s.tb.portfolioFunds && Attended(s, pf, d, today)
    ensures Attended(Begun(s, i), pf, d, today)
  {
    if Awaits(s.tb, s.waiting, pf, d) {
      var q :| q in s.waiting && q.from <= d && Reaches(s.tb, q, pf.portfolioId);
      RestMembers(s.waiting, i);
      assert q in Rest(s.waiting, i) || q == s.waiting[i];
    }
  }

  /** A regeneration that begins takes over what awaited it. */
  lemma BeginKeeps(s: State, i: nat, today: Day)
    requires Inv(s, today)
    ensures Inv(After(s, Begin(i), today), today)
  {
    if s.running.None? && i < |s.waiting| {
      var s' := Begun(s, i);
      RestMembers(s.waiting, i);
      forall pf, d | pf in s.tb.portfolioFunds
        ensures Attended(s', pf, d, today)
      {
        assert Attended(s, pf, d, today);
        BegunAttended(s, i, pf, d, today);
      }
      assert AllStillTrue(s', today) by {
        forall pf, d | pf in s.tb.portfolioFunds
          ensures StillTrue(s', s.tb, pf, d, today)
        {
        }
      }
      assert s'.waiting == Rest(s.waiting, i);
    }
  }

  // -------------------------------------------------------------- finishing

  /** A cached row of a fund for which there was nothing to recompute awaits another regeneration. */
  ghost predicate ComputedLeaves(s: State, r: Running, pf: PortfolioFund, d: Day, today: Day)
  {
    d >= r.q.from && Reaches(r.seen, r.q, pf.portfolioId) && !Recomputes(r.seen, pf, r.q.from, today) &&
    Cached(s.cache, pf.id, d).Some? ==>
      Awaits(s.tb, s.waiting, pf, d)
  }

  /**
   A refused regeneration leaves a row that is not cached when the portfolio starts after today, and the row
   that was calculated otherwise, or the row awaits another regeneration.
   */
  ghost predicate RefusedLeaves(s: State, r: Running, pf: PortfolioFund, d: Day, today: Day)
  {
    d >= r.q.from && Reaches(r.seen, r.q, pf.portfolioId) ==>
      || Awaits(s.tb, s.waiting, pf, d)
      || (if StartsBy(r.seen, pf.portfolioId, today) then Cached(s.cache, pf.id, d) == Oracle(r.seen, pf, d, today)
          else Cached(s.cache, pf.id, d).None?)
  }

  ghost predicate KeyLeft(s: State, r: Running, pf: PortfolioFund, d: Day, today: Day)
  {
    if Computable(r.seen, r.q, today) then ComputedLeaves(s, r, pf, d, today) else RefusedLeaves(s, r, pf, d, today)
  }

  /** What the regeneration under way leaves in the table for each fund it has read, given the requests that wait. */
  ghost predicate Leaves(s: State, today: Day)
  {
    s.running.Some? ==>
      forall pf, d :: pf in s.running.value.seen.portfolioFunds ==> KeyLeft(s, s.running.value, pf, d, today)
  }

  lemma UnstartedShowsNothing(tb: Tables, pf: PortfolioFund, d: Day, today: Day)
    requires pf in tb.portfolioFunds && !StartsBy(tb, pf.portfolioId, today)
    ensures Oracle(tb, pf, d, today).None?
  {
    FilterMembers(InPortfolio(pf.portfolioId), tb.portfolioFunds);
    if d <= today {
      BlankBeforeOldest(tb, pf.portfolioId, today, pf, d);
    }
  }

  lemma NothingRecomputed(tb: Tables, pf: PortfolioFund, from: Day, d: Day, today: Day)
    requires !Recomputes(tb, pf, from, today) && d >= from
    ensures Oracle(tb, pf, d, today).None?
  {
  }

  lemma WrittenAttended(s: State, cache: Cache, pf: PortfolioFund, d: Day, today: Day)
    ensures Attended(s.(cache := cache, running := None), pf, d, today) <==>
            Cached(cache, pf.id, d) == Oracle(s.tb, pf, d, today) || Awaits(s.tb, s.waiting, pf, d)
  {
  }

  ghost function Written(s: State, r: Running, today: Day): State
  {
    s.(cache := ServeOne(r.seen, s.cache, r.q, today), running := None)
  }

  /** Out of reach, or recomputed: attended to in any case. */
  lemma ServedKey(s: State, r: Running, pf: PortfolioFund, d: Day, today: Day)
    requires s.running == Some(r) && ReadBefore(r, s.tb) && pf in r.seen.portfolioFunds
    requires Attended(s, pf, d, today) && StillTrue(s, r.seen, pf, d, today)
    requires d < r.q.from || !Reaches(r.seen, r.q, pf.portfolioId) || Refreshes(r.seen, r.q, pf, today)
    ensures Attended(Written(s, r, today), pf, d, today)
  {
    PfIdsDistinct(r.seen);
    ServedRow(r.seen, s.cache, r.q, today, pf, d);
    WrittenAttended(s, ServeOne(r.seen, s.cache, r.q, today), pf, d, today);
  }

  /** Reached and left as it was: attended to if it is what was calculated, or awaits another request. */
  lemma LeftKeyIff(s: State, r: Running, pf: PortfolioFund, d: Day, today: Day)
    requires ReadBefore(r, s.tb) && pf in r.seen.portfolioFunds
    requires StillTrue(s, r.seen, pf, d, today) && !Refreshes(r.seen, r.q, pf, today)
    ensures Attended(Written(s, r, today), pf, d, today) <==>
            Cached(s.cache, pf.id, d) == Oracle(r.seen, pf, d, today) || Awaits(s.tb, s.waiting, pf, d)
  {
    PfIdsDistinct(r.seen);
    ServedRow(r.seen, s.cache, r.q, today, pf, d);
    WrittenAttended(s, ServeOne(r.seen, s.cache, r.q, today), pf, d, today);
  }

  lemma ComputedKeyIff(s: State, r: Running, pf: PortfolioFund, d: Day, today: Day)
    requires ReadBefore(r, s.tb) && pf in r.seen.portfolioFunds && StillTrue(s, r.seen, pf, d, today)
    requires d >= r.q.from && Reaches(r.seen, r.q, pf.portfolioId) && !Recomputes(r.seen, pf, r.q.from, today)
    ensures Attended(Written(s, r, today), pf, d, today) <==> ComputedLeaves(s, r, pf, d, today)
  {
    LeftKeyIff(s, r, pf, d, today);
    NothingRecomputed(r.seen, pf, r.q.from, d, today);
  }

  lemma RefusedKeyIff(s: State, r: Running, pf: PortfolioFund, d: Day, today: Day)
    requires ReadBefore(r, s.tb) && pf in r.seen.portfolioFunds && StillTrue(s, r.seen, pf, d, today)
    requires d >= r.q.from && Reaches(r.seen, r.q, pf.portfolioId) && !Computable(r.seen, r.q, today)
    ensures Attended(Written(s, r, today), pf, d, today) <==> RefusedLeaves(s, r, pf, d, today)
  {
    LeftKeyIff(s, r, pf, d, today);
    if !StartsBy(r.seen, pf.portfolioId, today) {
      UnstartedShowsNothing(r.seen, pf, d, today);
    }
  }

  /** The key after the write, for a fund that the regeneration has read. */
  lemma KnownKeyIff(s: State, r: Running, pf: PortfolioFund, d: Day, today: Day)
    requires s.running == Some(r) && ReadBefore(r, s.tb) && pf in r.seen.portfolioFunds
    requires Attended(s, pf, d, today) && StillTrue(s, r.seen, pf, d, today)
    ensures Attended(Written(s, r, today), pf, d, today) <==> KeyLeft(s, r, pf, d, today)
  {
    if d < r.q.from || !Reaches(r.seen, r.q, pf.portfolioId) || Refreshes(r.seen, r.q, pf, today) {
      ServedKey(s, r, pf, d, today);
    } else if Computable(r.seen, r.q, today) {
      ComputedKeyIff(s, r, pf, d, today);
    } else {
      RefusedKeyIff(s, r, pf, d, today);
    }
  }

  lemma UnknownId(seen: Tables, tb: Tables, pf: PortfolioFund)
    requires LedgerTables(tb) && seen.portfolioFunds <= tb.portfolioFunds
    requires pf in tb.portfolioFunds && pf !in seen.portfolioFunds
    ensures pf.id !in PfIds(seen.portfolioFunds)
  {
    PfIdsDistinct(tb);
    forall other | other in seen.portfolioFunds
      ensures other.id != pf.id
    {
      assert other in tb.portfolioFunds;
      if other.id == pf.id {
        SamePf(tb, other, pf);
      }
    }
  }

  /** A fund added since the regeneration began keeps what it had. */
  lemma UnknownKey(s: State, r: Running, pf: PortfolioFund, d: Day, today: Day)
    requires s.running == Some(r) && LedgerTables(s.tb) && r.seen.portfolioFunds <= s.tb.portfolioFunds
    requires pf in s.tb.portfolioFunds && pf !in r.seen.portfolioFunds && Attended(s, pf, d, today)
    ensures Attended(Written(s, r, today), pf, d, today)
  {
    UnknownId(r.seen, s.tb, pf);
    OnlyKnownRows(r.seen, s.cache, r.q, today, Key(pf.id, d));
    WrittenAttended(s, ServeOne(r.seen, s.cache, r.q, today), pf, d, today);
  }

  /** What the fund and day are after the write, whether the regeneration has read the fund or not. */
  lemma WrittenKeyIff(s: State, r: Running, pf: PortfolioFund, d: Day, today: Day)
    requires Inv(s, today) && s.running == Some(r) && pf in s.tb.portfolioFunds
    ensures Attended(Written(s, r, today), pf, d, today) <==>
            (pf in r.seen.portfolioFunds ==> KeyLeft(s, r, pf, d, today))
  {
    assert Attended(s, pf, d, today);
    if pf in r.seen.portfolioFunds {
      assert StillTrue(s, r.seen, pf, d, today);
      KnownKeyIff(s, r, pf, d, today);
    } else {
      UnknownKey(s, r, pf, d, today);
    }
  }

  lemma WrittenAttendedIff(s: State, r: Running, today: Day)
    requires Inv(s, today) && s.running == Some(r)
    ensures AllAttended(Written(s, r, today), today) <==> Leaves(s, today)
  {
    var s' := Written(s, r, today);
    if Leaves(s, today) {
      forall pf, d | pf in s'.tb.portfolioFunds
        ensures Attended(s', pf, d, today)
      {
        WrittenKeyIff(s, r, pf, d, today);
      }
    }
    if AllAttended(s', today) {
      forall pf, d | pf in r.seen.portfolioFunds
        ensures KeyLeft(s, r, pf, d, today)
      {
        assert pf in s'.tb.portfolioFunds;
        assert Attended(s', pf, d, today);
        WrittenKeyIff(s, r, pf, d, today);
      }
    }
  }

  lemma WrittenWellFormed(s: State, r: Running, today: Day)
    requires WellFormed(s) && s.running == Some(r)
    ensures WellFormed(Written(s, r, today)) && AllStillTrue(Written(s, r, today), today)
  {
    ServedOwned(r.seen, s.cache, r.q, today, s.tb);
  }

  lemma WriteKeepsIff(s: State, r: Running, today: Day)
    requires Inv(s, today) && s.running == Some(r)
    ensures Inv(Written(s, r, today), today) <==> Leaves(s, today)
  {
    WrittenWellFormed(s, r, today);
    WrittenAttendedIff(s, r, today);
  }

  lemma FinishIsWrite(s: State, r: Running, today: Day)
    requires s.running == Some(r)
    ensures After(s, Finish, today) == Written(s, r, today)
  {
  }

  /**
   A regeneration writes what it calculated, whatever was committed meanwhile. Afterwards every difference is
   still attended to if and only if, when it was calculated, each cached row from its first day on of a
   fund it reached without recomputing a row awaits another one; and when it was refused, each row it
   should have replaced is what it calculated, or is missing for a portfolio that starts after today, or
   awaits another one.
   */
  lemma FinishKeepsIff(s: State, today: Day)
    requires Inv(s, today)
    ensures Inv(After(s, Finish, today), today) <==> Leaves(s, today)
  {
    if s.running.Some? {
      FinishIsWrite(s, s.running.value, today);
      WriteKeepsIff(s, s.running.value, today);
    }
  }

  /** It is enough that each fund it reached has a recomputed row, or none cached from the first day on. */
  lemma PlainFinish(s: State, r: Running, today: Day)
    requires s.running == Some(r) && Computable(r.seen, r.q, today)
    requires forall pf :: pf in r.seen.portfolioFunds && Reaches(r.seen, r.q, pf.portfolioId) ==>
               Recomputes(r.seen, pf, r.q.from, today) || !CachedFrom(s.cache, pf, r.q.from)
    ensures Leaves(s, today)
  {
  }

  // ------------------------------------------------------------- the runs

  ghost predicate Allowed(s: State, e: Event, today: Day)
  {
    match e
    case Commit(op) => Contained(s.tb, op) && NoEarlierTrace(s.tb, op, today)
    case AddPrices(fundId, from, prices) => PricesFrom(prices, fundId, from)
    case Begin(_) => true
    case Finish => Leaves(s, today)
  }

  ghost predicate AllAllowed(s: State, events: seq<Event>, today: Day)
    decreases |events|
  {
    events == [] || (Allowed(s, events[0], today) && AllAllowed(After(s, events[0], today), events[1..], today))
  }

  ghost function Later(s: State, events: seq<Event>, today: Day): State
    decreases |events|
  {
    if events == [] then s else Later(After(s, events[0], today), events[1..], today)
  }

  lemma EventKeeps(s: State, e: Event, today: Day)
    requires Inv(s, today) && Allowed(s, e, today)
    ensures Inv(After(s, e, today), today)
  {
    match e
    case Commit(op) => CommitKeeps(s, op, today);
    case AddPrices(fundId, from, prices) => PricesKeep(s, fundId, from, prices, today);
    case Begin(i) => BeginKeeps(s, i, today);
    case Finish => FinishKeepsIff(s, today);
  }

  /**
   In every interleaving of commits with the beginnings and the writes of regenerations: each row that
   differs from the on-demand history is in the hands of a regeneration or awaits one, that reaches it from
   a day on or before its own.
   */
  lemma {:induction false} EveryDifferenceAwaits(s: State, events: seq<Event>, today: Day)
    requires Inv(s, today) && AllAllowed(s, events, today)
    ensures Inv(Later(s, events, today), today)
    decreases |events|
  {
    if events != [] {
      EventKeeps(s, events[0], today);
      EveryDifferenceAwaits(After(s, events[0], today), events[1..], today);
    }
  }

  /** Once no regeneration waits or is under way, the table equals the on-demand history at every key. */
  lemma NothingWaitingNothingWrong(s: State, events: seq<Event>, today: Day, pf: PortfolioFund)
    requires Inv(s, today) && AllAllowed(s, events, today) && pf in Later(s, events, today).tb.portfolioFunds
    requires Later(s, events, today).waiting == [] && Later(s, events, today).running.None?
    ensures Agrees(Later(s, events, today).tb, Later(s, events, today).cache, pf, today)
  {
    EveryDifferenceAwaits(s, events, today);
    var s' := Later(s, events, today);
    forall d
      ensures Cached(s'.cache, pf.id, d) == Oracle(s'.tb, pf, d, today)
    {
      assert Attended(s', pf, d, today);
    }
  }

  /** A right table with nothing to regenerate is where such runs may start. */
  lemma QuietStart(tb: Tables, cache: Cache, today: Day)
    requires Sound(tb) && AllRight(tb, cache, today)
    ensures Inv(State(tb, cache, [], None), today)
  {
    forall pf, d | pf in tb.portfolioFunds
      ensures Attended(State(tb, cache, [], None), pf, d, today)
    {
      assert Right(tb, cache, pf, today);
    }
  }
}
