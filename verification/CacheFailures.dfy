/** Concrete runs in which the materialized table goes wrong, one for each condition of a harmless change. */
module CacheFailures {
  import opened Collections
  import opened Sorting
  import opened Schema
  import opened Rounding
  import opened Ledger
  import opened FundHistory
  import opened FundHistoryService
  import opened Causality
  import opened MaterializedCache
  import opened CacheAgreement
  import opened CacheRequests
  import opened CacheChanges
  import opened CacheCoverage
  import opened CacheRuns
  import opened Transactions
  import Conservation
  import Inbox
  import opened Consistency
  import opened TransactionInvariants
  import opened Operations

  lemma NothingLeftToShow(tb: Tables, pf: PortfolioFund, r: Day, today: Day)
    requires LedgerTables(tb) && pf in tb.portfolioFunds && Oldest(tb, pf.portfolioId).None?
    requires forall v :: v in tb.dividends ==> v.pfId != pf.id
    ensures !Recomputes(tb, pf, r, today)
  {
    AllGainsBacked(tb);
    FilterMembers(InPortfolio(pf.portfolioId), tb.portfolioFunds);
    forall d | r <= d <= today
      ensures Oracle(tb, pf, d, today).None?
    {
      FilterNone(DividendWindow(pf.id, None, d), tb.dividends);
      assert Round(0.0) == 0.0;
      BlankWithoutTransactions(tb, pf.portfolioId, pf, d, today);
    }
  }

  /** A fund that loses all its rows from the change on is not kept right. */
  lemma RowsLost(tb: Tables, tb': Tables, qs: seq<Regeneration>, r: Day, pf: PortfolioFund, today: Day)
    requires AllFrom(qs, r) && Recomputes(tb, pf, r, today) && !Recomputes(tb', pf, r, today)
    ensures !KeptRight(tb, tb', qs, r, pf, today)
  {
    var d :| r <= d <= today && Oracle(tb, pf, d, today).Some?;
    assert Oracle(tb', pf, d, today).None?;
  }

  lemma Emptied(tb: Tables, id: Id, pf: PortfolioFund, r: Day, today: Day)
    requires Consistent(tb) && Deleted(tb, id).Ok? && pf in tb.portfolioFunds
    requires forall t :: t in tb.transactions && t.pfId in PfIds(FundsOf(tb, pf.portfolioId)) ==> t.id == id
    requires forall v :: v in tb.dividends ==> v.pfId != pf.id
    ensures Widened(tb, Deleted(tb, id).value) == tb && !Recomputes(Deleted(tb, id).value, pf, r, today)
  {
    var tb' := Deleted(tb, id).value;
    DeletedShape(tb, id);
    DeletedConsistent(tb, id);
    FilterMembers(NotId(id), tb.transactions);
    FilterNone(OfAny(PfIds(FundsOf(tb, pf.portfolioId))), tb'.transactions);
    NothingLeftToShow(tb', pf, r, today);
  }

  /**
   Deleting the only transaction of a portfolio leaves the rows its fund had in the table, because
   regeneration deletes rows only for funds it recomputes rows for.
   */
  lemma LastDeletionLeavesStaleRows(tb: Tables, cache: Cache, id: Id, pf: PortfolioFund, today: Day)
    requires Sound(tb) && AllRight(tb, cache, today) && Deleted(tb, id).Ok?
    requires pf in tb.portfolioFunds && FindTransaction(tb, id).value.pfId == pf.id
    requires forall t :: t in tb.transactions && t.pfId in PfIds(FundsOf(tb, pf.portfolioId)) ==> t.id == id
    requires forall v :: v in tb.dividends ==> v.pfId != pf.id
    requires Recomputes(tb, pf, FindTransaction(tb, id).value.date, today)
    ensures !AllRight(Step(tb, Delete(id)), Refreshed(tb, cache, Delete(id), today), today)
  {
    var op, r := Delete(id), FindTransaction(tb, id).value.date;
    Emptied(tb, id, pf, r, today);
    RequestsFrom(tb, op);
    RowsLost(tb, Step(tb, op), Requests(tb, op), r, pf, today);
    StepConsistent(tb, op);
    FoundPfIs(Step(tb, op), pf);
    ForPfReached(Step(tb, op), Requests(tb, op), r, pf);
    ChangedAgreesIff(tb, cache, op, today, pf);
  }

  lemma ForPfReached(tb: Tables, qs: seq<Regeneration>, from: Day, pf: PortfolioFund)
    requires FindPf(tb, pf.id) == Some(pf) && ForPf(from, pf.id) in qs
    ensures Reached(tb, qs, pf.portfolioId)
  {
    assert Reaches(tb, ForPf(from, pf.id), pf.portfolioId);
  }

  // ------------------------------------------------------- a portfolio's start

  const Holding: PortfolioFund := Conservation.OnlyPf

  /** One portfolio with one fund and no transactions. */
  function Start(dividends: seq<DividendRow>): Tables
  {
    Conservation.Opening.(dividends := dividends)
  }

  /** One share bought on day 5. */
  const Purchase: CreateRequest := CreateRequest(1, 5, Buy, 1.0, 10.0)

  const Bought: Transaction := Transaction(2, 1, 5, Buy, 1.0, 10.0)

  function OneBuy(dividends: seq<DividendRow>): Tables
  {
    Start(dividends).(transactions := [Bought], nextId := 3)
  }

  /** Three paid on day 2. */
  const Paid: DividendRow := DividendRow(7, 1, 2, 3.0, None)

  lemma StartSound(ds: seq<DividendRow>)
    requires ds == [] || ds == [Paid]
    ensures Sound(Start(ds))
  {
    var tb := Start(ds);
    forall id: Id
      ensures PfOk(tb, id)
    {
      FilterOne(IsPf(id), Holding);
    }
    forall p: Id, f: Id
      ensures PairOk(tb, p, f)
    {
      FilterOne(Inbox.IsPair(p, f), Holding);
    }
    InitialTablesConsistent(tb);
    assert Holding in tb.portfolioFunds;
  }

  lemma PurchaseEntered(ds: seq<DividendRow>)
    requires ds == [] || ds == [Paid]
    ensures Effect(Start(ds), Create(Purchase)) == Ok(OneBuy(ds)) && Sound(OneBuy(ds))
    ensures Requests(Start(ds), Create(Purchase)) == [ForPf(5, 1)]
  {
    FilterOne(IsPf(1), Holding);
    StartSound(ds);
    assert [] + [Bought] == [Bought];
    StepSound(Start(ds), Create(Purchase));
  }

  lemma OnlyFund(tb: Tables)
    requires tb.portfolioFunds == [Holding]
    ensures FundsOf(tb, 0) == [Holding] && PfIds(FundsOf(tb, 0)) == [1] && FindPf(tb, 1) == Some(Holding)
  {
    FilterOne(InPortfolio(0), Holding);
    FilterOne(IsPf(1), Holding);
    assert [Holding][1..] == [] && PfIds([]) == [];
  }

  lemma OldestBuy(ds: seq<DividendRow>)
    ensures Oldest(OneBuy(ds), 0) == Some(5) && Oldest(Start(ds), 0) == None
  {
    OnlyFund(OneBuy(ds));
    OnlyFund(Start(ds));
    FilterOne(OfAny([1]), Bought);
    assert [Bought][1..] == [];
  }

  /** The fund has a row on day 5. */
  lemma ShareShows(ds: seq<DividendRow>)
    requires ds == [] || ds == [Paid]
    ensures Oracle(OneBuy(ds), Holding, 5, 5).Some?
  {
    var tb := OneBuy(ds);
    OldestBuy(ds);
    OnlyFund(tb);
    LoadedKeys(tb, 0, 5, Holding);
    FilterOne(TransactionWindow(1, Some(5), 5), Bought);
    SortOne(Bought);
    FilterNone(DividendWindow(1, Some(5), 5), ds);
    var data := Loaded(tb, 0, 5);
    assert Get(data.transactionsByPf, 1) == [Bought] && Get(data.dividendsByPf, 1) == [];
    DueOne(data);
    RoundError(1.0);
  }

  lemma SortOne(t: Transaction)
    ensures Sort(ByDate, [t]) == [t]
  {
    assert [t][..0] == [];
  }

  lemma DueOne(data: PortfolioData)
    requires Get(data.transactionsByPf, 1) == [Bought] && Get(data.dividendsByPf, 1) == []
    ensures MetricsAt(data, Holding, 5).shares == 1.0
  {
    assert [Bought][1..] == [];
    assert Due(data, Holding, 5) == [Bought];
    assert Fold(MetricsStep, Metrics(1.0, 10.0, 0.0, 0.0), []) == Metrics(1.0, 10.0, 0.0, 0.0);
    assert MetricsOf(0.0, [Bought]) == Metrics(1.0, 10.0, 0.0, 0.0);
  }

  // ------------------------------------------------------------ the purchase

  lemma OneOperation(tb: Tables, op: Operation, today: Day)
    ensures Smooth(tb, [op], today) <==> Contained(tb, op) && Harmless(tb, op, today)
  {
    assert [op][1..] == [];
  }

  lemma TwoOperations(tb: Tables, cache: Cache, a: Operation, b: Operation, today: Day)
    ensures Run(tb, [a, b]) == Step(Step(tb, a), b)
    ensures CacheAfter(tb, cache, [a, b], today) == Refreshed(Step(tb, a), Refreshed(tb, cache, a, today), b, today)
  {
    var ops, last := [a, b], [b];
    assert ops[0] == a && ops[1..] == last && last[0] == b && last[1..] == [];
    assert Fold(Step, Step(tb, a), last) == Fold(Step, Step(Step(tb, a), b), []);
    var cache' := Refreshed(tb, cache, a, today);
    assert CacheAfter(Step(tb, a), cache', last, today) == Refreshed(Step(tb, a), cache', b, today);
  }

  lemma PurchaseHarmless()
    ensures Harmless(Start([]), Create(Purchase), 5)
  {
    PurchaseEntered([]);
    PurchaseKept();
    var tb, tb', op := Start([]), OneBuy([]), Create(Purchase);
    forall pf | pf in tb'.portfolioFunds && Reached(tb', Requests(tb, op), pf.portfolioId)
      ensures KeptRight(Widened(tb, tb'), tb', Requests(tb, op), 5, pf, 5)
    {
    }
  }

  /** Entering the purchase is harmless for a portfolio without dividends: the run theorem applies. */
  lemma PurchaseIsSmooth()
    ensures Sound(Start([])) && AllRight(Start([]), map[], 5) && Smooth(Start([]), [Create(Purchase)], 5)
    ensures AllRight(OneBuy([]), Refreshed(Start([]), map[], Create(Purchase), 5), 5)
  {
    StartSound([]);
    NothingCachedYet(Start([]), 5);
    PurchaseEntered([]);
    PurchaseHarmless();
    OneOperation(Start([]), Create(Purchase), 5);
    RefreshedAgreesIff(Start([]), map[], Create(Purchase), 5);
  }

  lemma PurchaseReadable(ds: seq<DividendRow>)
    ensures Readable(OneBuy(ds), 0, 5) && Readable(Start(ds), 0, 5)
  {
  }

  lemma PurchaseComputable()
    ensures Reaches(OneBuy([]), ForPf(5, 1), 0) && Computable(OneBuy([]), ForPf(5, 1), 5)
  {
    PurchaseReadable([]);
    OldestBuy([]);
    FilterOne(IsPf(1), Holding);
    assert Resolve(OneBuy([]), ForPf(5, 1).scope) == Ok([0]);
  }

  lemma PurchaseRefreshes()
    ensures SomeRefreshes(OneBuy([]), [ForPf(5, 1)], Holding, 5)
  {
    PurchaseComputable();
    ShareShows([]);
    assert Recomputes(OneBuy([]), Holding, 5, 5);
    assert ForPf(5, 1) in [ForPf(5, 1)];
  }

  lemma NothingPaid(d: Day)
    ensures Round(PaidUpTo(Widened(Start([]), OneBuy([])), Holding, d)) == 0.0
  {
    assert Round(0.0) == 0.0;
  }

  lemma PurchaseKept()
    ensures KeptRight(Widened(Start([]), OneBuy([])), OneBuy([]), [ForPf(5, 1)], 5, Holding, 5)
  {
    PurchaseReadable([]);
    PurchaseRefreshes();
    assert EarlierDaysKept(Widened(Start([]), OneBuy([])), OneBuy([]), Holding, 5, 5) by {
      forall d
        ensures Round(PaidUpTo(Widened(Start([]), OneBuy([])), Holding, d)) == 0.0
      {
        NothingPaid(d);
      }
    }
  }

  /** A purchase and its deletion leave a wrong table behind. */
  lemma PurchaseAndDeletionGoWrong()
    ensures Sound(Start([])) && AllRight(Start([]), map[], 5)
    ensures var ops := [Create(Purchase), Delete(2)];
            !AllRight(Run(Start([]), ops), CacheAfter(Start([]), map[], ops, 5), 5)
  {
    var cache := Refreshed(Start([]), map[], Create(Purchase), 5);
    PurchaseIsSmooth();
    PurchaseEntered([]);
    DeletionGoesWrong(cache);
    TwoOperations(Start([]), map[], Create(Purchase), Delete(2), 5);
  }

  lemma DeletionGoesWrong(cache: Cache)
    requires Sound(OneBuy([])) && AllRight(OneBuy([]), cache, 5)
    ensures !AllRight(Step(OneBuy([]), Delete(2)), Refreshed(OneBuy([]), cache, Delete(2), 5), 5)
  {
    FoundBuy([]);
    ShareShows([]);
    LastDeletionLeavesStaleRows(OneBuy([]), cache, 2, Holding, 5);
  }

  lemma FoundBuy(ds: seq<DividendRow>)
    requires ds == [] || ds == [Paid]
    ensures FindTransaction(OneBuy(ds), 2) == Some(Bought) && Deleted(OneBuy(ds), 2).Ok?
  {
    FilterOne(HasId(2), Bought);
  }

  const Moved: UpdateRequest := UpdateRequest(None, Some(9), None, None, None)

  /** Moving the purchase past today: the regeneration is refused and the old row stays. */
  lemma PurchaseMovedPastTodayGoesWrong()
    ensures var ops := [Create(Purchase), Update(2, Moved)];
            && Effect(OneBuy([]), ops[1]).Ok? && !Computable(Step(OneBuy([]), ops[1]), ForPf(5, 1), 5)
            && !AllRight(Run(Start([]), ops), CacheAfter(Start([]), map[], ops, 5), 5)
  {
    var cache := Refreshed(Start([]), map[], Create(Purchase), 5);
    PurchaseIsSmooth();
    PurchaseEntered([]);
    MovedAway();
    MoveGoesWrong(cache);
    TwoOperations(Start([]), map[], Create(Purchase), Update(2, Moved), 5);
  }

  lemma MoveGoesWrong(cache: Cache)
    requires Sound(OneBuy([])) && AllRight(OneBuy([]), cache, 5)
    ensures !AllRight(Step(OneBuy([]), Update(2, Moved)), Refreshed(OneBuy([]), cache, Update(2, Moved), 5), 5)
  {
    var tb, op := OneBuy([]), Update(2, Moved);
    MovedAway();
    ShareShows([]);
    RequestsFrom(tb, op);
    OnlyFund(Step(tb, op));
    RowsLost(tb, Step(tb, op), Requests(tb, op), 5, Holding, 5);
    ForPfReached(Step(tb, op), Requests(tb, op), 5, Holding);
    ChangedAgreesIff(tb, cache, op, 5, Holding);
  }

  lemma MovedAway()
    ensures var tb' := Step(OneBuy([]), Update(2, Moved));
            && Effect(OneBuy([]), Update(2, Moved)).Ok? && Requests(OneBuy([]), Update(2, Moved)) == [ForPf(5, 1)]
            && tb' == OneBuy([]).(transactions := [Bought.(date := 9)])
            && Oldest(tb', 0) == Some(9) && !Recomputes(tb', Holding, 5, 5) && !Computable(tb', ForPf(5, 1), 5)
  {
    var tb' := Step(OneBuy([]), Update(2, Moved));
    FoundBuy([]);
    assert Replaced([Bought], Bought.(date := 9)) == [Bought.(date := 9)];
    OnlyFund(tb');
    FilterOne(OfAny([1]), Bought.(date := 9));
    assert [Bought.(date := 9)][1..] == [];
    assert Oldest(tb', 0) == Some(9);
    BlankBeforeOldest(tb', 0, 5, Holding, 5);
    assert Resolve(tb', ForPf(5, 1).scope) == Ok([0]);
    assert 0 in [0];
  }

  /** A dividend paid before the portfolio's first transaction shows until that is entered, and stays cached. */
  lemma FirstPurchaseHidesDividend() returns (cache: Cache)
    ensures Sound(Start([Paid])) && AllRight(Start([Paid]), cache, 5)
    ensures !AllRight(OneBuy([Paid]), Refreshed(Start([Paid]), cache, Create(Purchase), 5), 5)
  {
    var tb, tb', op := Start([Paid]), OneBuy([Paid]), Create(Purchase);
    cache := StartCached();
    PurchaseEntered([Paid]);
    OnlyFund(tb');
    OldestBuy([Paid]);
    PaidBy(2);
    assert !EarlierDaysKept(Widened(tb, tb'), tb', Holding, 5, 5) by {
      assert Oldest(Widened(tb, tb'), 0) == Oldest(tb, 0);
      assert PaidUpTo(Widened(tb, tb'), Holding, 2) == PaidUpTo(tb, Holding, 2);
      assert !SameEmptiness(Widened(tb, tb'), tb', 0);
    }
    ForPfReached(tb', [ForPf(5, 1)], 5, Holding);
    ChangedAgreesIff(tb, cache, op, 5, Holding);
  }

  lemma PaidBy(d: Day)
    ensures var paid := PaidUpTo(Start([Paid]), Holding, d);
            paid == (if d >= 2 then 3.0 else 0.0) && (Round(paid) == 0.0 <==> d < 2)
  {
    FilterOne(DividendWindow(1, None, d), Paid);
    SumOne(TotalAmount, Paid);
    RoundError(3.0);
    assert Round(0.0) == 0.0;
  }

  lemma DividendShows(d: Day)
    ensures Oracle(Start([Paid]), Holding, d, 5).Some? <==> 2 <= d <= 5
  {
    var tb := Start([Paid]);
    StartSound([Paid]);
    AllGainsBacked(tb);
    OnlyFund(tb);
    OldestBuy([Paid]);
    PaidBy(d);
    if d <= 5 {
      BlankWithoutTransactions(tb, 0, Holding, d, 5);
    }
  }

  /** The table a regeneration makes of the dividend alone. */
  lemma StartCached() returns (cache: Cache)
    ensures Sound(Start([Paid])) && AllRight(Start([Paid]), cache, 5)
  {
    var tb, q := Start([Paid]), ForPf(2, 1);
    cache := ServeOne(tb, map[], q, 5);
    StartSound([Paid]);
    PfIdsDistinct(tb);
    DividendRefreshes();
    ServedOwned(tb, map[], q, 5, tb);
    PurchaseReadable([Paid]);
    forall d
      ensures Cached(cache, 1, d) == Oracle(tb, Holding, d, 5)
    {
      DividendShows(d);
      ServedRow(tb, map[], q, 5, Holding, d);
    }
  }

  lemma DividendRefreshes()
    ensures Refreshes(Start([Paid]), ForPf(2, 1), Holding, 5)
  {
    var tb := Start([Paid]);
    OnlyFund(tb);
    OldestBuy([Paid]);
    PurchaseReadable([Paid]);
    DividendShows(2);
    assert Resolve(tb, ForPf(2, 1).scope) == Ok([0]);
  }
}
