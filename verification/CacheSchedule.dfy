/**
 A concrete interleaving: two purchases are committed before the first regeneration begins, and a third
 between its calculation and its write. Every difference stays attended to, and the table ends right.
 */
module CacheSchedule {
  import opened Collections
  import opened Sorting
  import opened Schema
  import opened Rounding
  import opened Ledger
  import opened FundHistory
  import opened FundHistoryService
  import opened Causality
  import opened MaterializedCache
  import opened CacheAgreement
  import opened CacheRequests
  import opened CacheChanges
  import opened CacheCoverage
  import opened CacheRuns
  import opened CacheInterleavings
  import opened CacheFailures
  import opened Transactions
  import opened Operations

  // ------------------------------------------------------- some purchases

  function Purchases(n: nat): seq<Transaction>
  {
    if n == 0 then [] else Purchases(n - 1) + [Transaction(n + 1, 1, 5, Buy, 1.0, 10.0)]
  }

  /** The fund after n purchases of a share on day 5. */
  function Buys(n: nat): Tables
  {
    Start([]).(transactions := Purchases(n), nextId := n + 2)
  }

  const Request5: Regeneration := ForPf(5, 1)

  lemma {:induction false} BoughtAre(n: nat)
    ensures |Purchases(n)| == n
    ensures forall t :: t in Purchases(n) ==> t.pfId == 1 && t.date == 5 && t.kind.Buy? && t.shares == 1.0
    ensures Sum(SignedShares, Purchases(n)) == n as real && Sum(ReinvestedShares, Purchases(n)) == 0.0
  {
    if n > 0 {
      var t := Transaction(n + 1, 1, 5, Buy, 1.0, 10.0);
      BoughtAre(n - 1);
      SumConcat(SignedShares, Purchases(n - 1), [t]);
      SumConcat(ReinvestedShares, Purchases(n - 1), [t]);
      SumOne(SignedShares, t);
      SumOne(ReinvestedShares, t);
    }
  }

  lemma BuyEntered(n: nat)
    ensures Effect(Buys(n), Create(Purchase)) == Ok(Buys(n + 1))
    ensures Requests(Buys(n), Create(Purchase)) == [Request5]
  {
    OnlyFund(Buys(n));
  }

  lemma {:induction false} BuysSound(n: nat)
    ensures Sound(Buys(n))
  {
    if n == 0 {
      StartSound([]);
    } else {
      BuysSound(n - 1);
      BuyEntered(n - 1);
      StepSound(Buys(n - 1), Create(Purchase));
    }
  }

  lemma OldestOfBuys(n: nat)
    requires n > 0
    ensures Oldest(Buys(n), 0) == Some(5)
  {
    OnlyFund(Buys(n));
    BoughtAre(n);
    FilterAll(OfAny([1]), Purchases(n));
  }

  lemma LoadOfBuys(n: nat)
    ensures var load := Sort(ByDate, Purchases(n));
            && TakeWhile(UpTo(5), load) == load
            && Sum(SignedShares, load) == n as real && Sum(ReinvestedShares, load) == 0.0
  {
    var load := Sort(ByDate, Purchases(n));
    BoughtAre(n);
    SortMembers(ByDate, Purchases(n));
    SortMultiset(ByDate, Purchases(n));
    TakeWhileIs(UpTo(5), load, |load|);
    assert load[..|load|] == load;
    SumPermutation(SignedShares, load, Purchases(n));
    SumPermutation(ReinvestedShares, load, Purchases(n));
  }

  lemma SharesOfBuys(n: nat, data: PortfolioData)
    requires Get(data.transactionsByPf, 1) == Sort(ByDate, Purchases(n)) && Get(data.dividendsByPf, 1) == []
    ensures MetricsAt(data, Holding, 5).shares == n as real
  {
    LoadOfBuys(n);
    assert Due(data, Holding, 5) == Sort(ByDate, Purchases(n));
    MetricsShares(Metrics(0.0, 0.0, 0.0, 0.0), Sort(ByDate, Purchases(n)));
  }

  /** The purchases show on their day. */
  lemma BuysShow(n: nat)
    requires n > 0
    ensures Oracle(Buys(n), Holding, 5, 5).Some?
  {
    var tb, data := Buys(n), Loaded(Buys(n), 0, 5);
    OnlyFund(tb);
    OldestOfBuys(n);
    BoughtAre(n);
    LoadedKeys(tb, 0, 5, Holding);
    FilterAll(TransactionWindow(1, Some(5), 5), Purchases(n));
    SharesOfBuys(n, data);
    RoundError(n as real);
  }

  // ---------------------------------------------------- the steps are allowed

  lemma PurchaseAllowed(n: nat, s: State)
    requires s.tb == Buys(n)
    ensures Allowed(s, Commit(Create(Purchase)), 5)
    ensures After(s, Commit(Create(Purchase)), 5) == s.(tb := Buys(n + 1), waiting := s.waiting + [Request5])
  {
    BuyEntered(n);
    assert Round(0.0) == 0.0;
  }

  lemma BuysComputable(n: nat)
    requires n > 0
    ensures Computable(Buys(n), Request5, 5) && Recomputes(Buys(n), Holding, 5, 5)
  {
    OnlyFund(Buys(n));
    OldestOfBuys(n);
    BoughtAre(n);
    BuysShow(n);
    assert Resolve(Buys(n), Request5.scope) == Ok([0]);
  }

  /** Whatever the table and the requests that wait, the regeneration of these purchases leaves nothing behind. */
  lemma WriteAllowed(n: nat, s: State)
    requires n > 0 && s.running == Some(Running(Request5, Buys(n)))
    ensures Allowed(s, Finish, 5)
    ensures After(s, Finish, 5) == s.(cache := ServeOne(Buys(n), s.cache, Request5, 5), running := None)
  {
    BuysComputable(n);
    PlainFinish(s, Running(Request5, Buys(n)), 5);
  }

  lemma NextAllowed(s: State, e: Event, rest: seq<Event>)
    requires Allowed(s, e, 5) && AllAllowed(After(s, e, 5), rest, 5)
    ensures AllAllowed(s, [e] + rest, 5) && Later(s, [e] + rest, 5) == Later(After(s, e, 5), rest, 5)
  {
    assert ([e] + rest)[1..] == rest;
  }

  /** The first regeneration that waits begins and writes. */
  lemma OneServed(n: nat, s: State) returns (after: State)
    requires n > 0 && s.tb == Buys(n) && s.running.None? && s.waiting != [] && s.waiting[0] == Request5
    ensures var begun := After(s, Begin(0), 5);
            Allowed(s, Begin(0), 5) && Allowed(begun, Finish, 5) && after == After(begun, Finish, 5)
    ensures after.tb == Buys(n) && after.running.None? && after.waiting == s.waiting[1..]
  {
    var begun := After(s, Begin(0), 5);
    assert Rest(s.waiting, 0) == s.waiting[1..];
    WriteAllowed(n, begun);
    after := After(begun, Finish, 5);
  }

  /** The regenerations that wait once all is committed, one after the other. */
  lemma {:induction false} Drained(n: nat, s: State, k: nat) returns (events: seq<Event>)
    requires n > 0 && s.tb == Buys(n) && s.running.None? && |s.waiting| == k
    requires forall q :: q in s.waiting ==> q == Request5
    ensures AllAllowed(s, events, 5)
    ensures var last := Later(s, events, 5); last.tb == Buys(n) && last.waiting == [] && last.running.None?
    decreases k
  {
    events := [];
    if k > 0 {
      assert s.waiting[0] in s.waiting;
      var after := OneServed(n, s);
      assert forall q :: q in after.waiting ==> q in s.waiting;
      events := Drained(n, after, k - 1);
      NextAllowed(After(s, Begin(0), 5), Finish, events);
      NextAllowed(s, Begin(0), [Finish] + events);
      events := [Begin(0)] + ([Finish] + events);
    }
  }

  // ------------------------------------------------------------ the schedule

  const Buying: Event := Commit(Create(Purchase))

  const Quiet: State := State(Start([]), map[], [], None)

  lemma QuietHolds()
    ensures Quiet.tb == Buys(0) && Inv(Quiet, 5)
  {
    StartSound([]);
    NothingCachedYet(Start([]), 5);
    QuietStart(Start([]), map[], 5);
  }

  /** Two purchases are committed, a regeneration begins, a third is committed, and the first one writes. */
  lemma LateWrite() returns (after: State)
    ensures var first := [Buying, Buying, Begin(0), Buying, Finish];
            forall rest :: AllAllowed(after, rest, 5) ==>
              AllAllowed(Quiet, first + rest, 5) && Later(Quiet, first + rest, 5) == Later(after, rest, 5)
    ensures after.tb == Buys(3) && after.running.None? && after.waiting == [Request5, Request5]
  {
    QuietHolds();
    var a := After(Quiet, Buying, 5);
    var b := After(a, Buying, 5);
    var c := After(b, Begin(0), 5);
    var d := After(c, Buying, 5);
    PurchaseAllowed(0, Quiet);
    PurchaseAllowed(1, a);
    assert Rest([Request5, Request5], 0) == [Request5];
    assert c.waiting == [Request5] && c.running == Some(Running(Request5, Buys(2)));
    PurchaseAllowed(2, c);
    WriteAllowed(2, d);
    after := After(d, Finish, 5);
    forall rest | AllAllowed(after, rest, 5)
      ensures var events := [Buying, Buying, Begin(0), Buying, Finish] + rest;
              AllAllowed(Quiet, events, 5) && Later(Quiet, events, 5) == Later(after, rest, 5)
    {
      FiveAllowed(Quiet, a, b, c, d, after, rest);
    }
  }

  lemma FiveAllowed(s: State, a: State, b: State, c: State, d: State, after: State, rest: seq<Event>)
    requires Allowed(s, Buying, 5) && a == After(s, Buying, 5) && Allowed(a, Buying, 5) && b == After(a, Buying, 5)
    requires Allowed(b, Begin(0), 5) && c == After(b, Begin(0), 5) && Allowed(c, Buying, 5) && d == After(c, Buying, 5)
    requires Allowed(d, Finish, 5) && after == After(d, Finish, 5) && AllAllowed(after, rest, 5)
    ensures var events := [Buying, Buying, Begin(0), Buying, Finish] + rest;
            AllAllowed(s, events, 5) && Later(s, events, 5) == Later(after, rest, 5)
  {
    var e5 := [Finish] + rest;
    var e4 := [Buying] + e5;
    var e3 := [Begin(0)] + e4;
    var e2 := [Buying] + e3;
    NextAllowed(d, Finish, rest);
    NextAllowed(c, Buying, e5);
    NextAllowed(b, Begin(0), e4);
    NextAllowed(a, Buying, e3);
    NextAllowed(s, Buying, e2);
    assert [Buying] + e2 == [Buying, Buying, Begin(0), Buying, Finish] + rest;
  }

  /**
   The theorem on interleavings applies: with the regenerations that still wait after that, the whole run is
   allowed, and the table ends right although the first write was calculated without the third purchase.
   */
  lemma LateCommitEndsRight() returns (events: seq<Event>)
    ensures [Buying, Buying, Begin(0), Buying, Finish] <= events
    ensures Inv(Quiet, 5) && AllAllowed(Quiet, events, 5)
    ensures Later(Quiet, events, 5).tb == Buys(3)
    ensures Agrees(Buys(3), Later(Quiet, events, 5).cache, Holding, 5)
  {
    QuietHolds();
    var after := LateWrite();
    var rest := Drained(3, after, 2);
    events := [Buying, Buying, Begin(0), Buying, Finish] + rest;
    NothingWaitingNothingWrong(Quiet, events, 5, Holding);
  }
}
