/**
 validation/ibkr.go and the rounding of an allocation: how far the booked parts of an imported trade
 can be from the trade itself.
 */
module AllocationSplit {
  import opened Collections
  import opened Schema
  import opened Rounding
  import opened Transactions
  import opened Inbox

  // ------------------------------------------------------------- validation

  datatype RequestedAllocation = RequestedAllocation(portfolioId: string, percentage: real)

  const Requested: RequestedAllocation -> real := (a: RequestedAllocation) => a.percentage

  /** One entry the endpoint accepts, given which strings parse as identifiers. */
  predicate ValidEntry(isUuid: string -> bool, a: RequestedAllocation)
  {
    a.portfolioId != "" && isUuid(a.portfolioId) && a.percentage > 0.0
  }

  /** What the endpoint accepts: some entries, all valid, whose percentages add up to 100 within 0.01. */
  ghost predicate ValidRequest(isUuid: string -> bool, allocations: seq<RequestedAllocation>)
  {
    && allocations != []
    && (forall a :: a in allocations ==> ValidEntry(isUuid, a))
    && Abs(Sum(Requested, allocations) - 100.0) <= 0.01
  }

  method ValidateAllocateTransaction(isUuid: string -> bool, allocations: seq<RequestedAllocation>)
    returns (ok: bool)
    ensures ok <==> ValidRequest(isUuid, allocations)
  {
    if |allocations| == 0 {
      return false;
    }
    var total := 0.0;
    var errors := 0;
    var i := 0;
    while i < |allocations|
      invariant 0 <= i <= |allocations|
      invariant total == Sum(Requested, allocations[..i])
      invariant 0 <= errors && (errors == 0 <==> forall k :: 0 <= k < i ==> ValidEntry(isUuid, allocations[k]))
    {
      SumNext(Requested, allocations, i);
      if allocations[i].portfolioId == "" {
        errors := errors + 1;
      } else if !isUuid(allocations[i].portfolioId) {
        errors := errors + 1;
      }
      if allocations[i].percentage <= 0.0 {
        errors := errors + 1;
      }
      total := total + allocations[i].percentage;
      i := i + 1;
    }
    assert allocations[..i] == allocations;
    if errors == 0 && Abs(total - 100.0) > 0.01 {
      errors := errors + 1;
    }
    ok := errors == 0;
  }

  const PercentageOf: AllocationEntry -> real := (e: AllocationEntry) => e.percentage

  /** Percentages the validation lets through. */
  ghost predicate ValidSplit(entries: seq<AllocationEntry>)
  {
    entries != [] && Abs(Sum(PercentageOf, entries) - 100.0) <= 0.01
  }

  /** Validated requests are splits to which the bounds below apply. */
  lemma {:induction false} AcceptedTotals(allocations: seq<RequestedAllocation>, entries: seq<AllocationEntry>)
    requires |entries| == |allocations|
    requires forall i :: 0 <= i < |entries| ==> entries[i].percentage == allocations[i].percentage
    ensures Sum(PercentageOf, entries) == Sum(Requested, allocations)
  {
    if entries != [] {
      AcceptedTotals(allocations[1..], entries[1..]);
    }
  }

  /** What the endpoint accepts is a split into named portfolios of positive parts, of 100 within 0.01. */
  lemma AcceptedIsValid(
    isUuid: string -> bool, allocations: seq<RequestedAllocation>, entries: seq<AllocationEntry>)
    requires |entries| == |allocations|
    requires forall i :: 0 <= i < |entries| ==> entries[i].percentage == allocations[i].percentage
    ensures ValidRequest(isUuid, allocations) <==>
            && ValidSplit(entries)
            && forall i :: 0 <= i < |entries| ==>
                 |allocations[i].portfolioId| > 0 && isUuid(allocations[i].portfolioId) && entries[i].percentage > 0.0
  {
    AcceptedTotals(allocations, entries);
    assert forall i :: 0 <= i < |allocations| ==> allocations[i] in allocations;
  }

  // ----------------------------------------------------- what gets appended

  /** The tables have only grown: by portfolio funds, and by transactions each with its own new link. */
  ghost predicate Extends(
    tb: Tables, after: Tables, ibId: Id,
    pfs: seq<PortfolioFund>, txs: seq<Transaction>, links: seq<Allocation>)
  {
    && after == tb.(portfolioFunds := tb.portfolioFunds + pfs, transactions := tb.transactions + txs,
                    allocations := tb.allocations + links, nextId := after.nextId)
    && LinkedOneToOne(tb.nextId, after.nextId, ibId, txs, links)
  }

  /** Fresh transactions, each with its own link to the imported trade. */
  ghost predicate LinkedOneToOne(from: Id, next: Id, ibId: Id, txs: seq<Transaction>, links: seq<Allocation>)
  {
    && from <= next
    && |links| == |txs|
    && (forall i :: 0 <= i < |txs| ==> links[i].transactionId == txs[i].id && links[i].ibkrTransactionId == ibId)
    && (forall i :: 0 <= i < |txs| ==> from <= txs[i].id < next)
    && (forall i, j :: 0 <= i < j < |txs| ==> txs[i].id != txs[j].id)
  }

  /** The transactions carry the date, each on a fund of the portfolio its link names. */
  ghost predicate PlacedRight(
    pfs: seq<PortfolioFund>, date: Day, txs: seq<Transaction>, links: seq<Allocation>)
  {
    && |links| == |txs|
    && forall i :: 0 <= i < |txs| ==> txs[i].date == date && OnPortfolio(pfs, txs[i].pfId, links[i].portfolioId)
  }

  ghost predicate OnPortfolio(pfs: seq<PortfolioFund>, pfId: Id, portfolioId: Id)
  {
    exists pf :: pf in pfs && pf.id == pfId && pf.portfolioId == portfolioId
  }

  const SharesIn: Transaction -> real := (t: Transaction) => t.shares
  const FeesIn: Transaction -> real := (t: Transaction) => if t.kind.Fee? then t.costPerShare else 0.0
  const AmountIn: Allocation -> real := (a: Allocation) => a.amount

  datatype Totals = Totals(shares: real, fees: real, amount: real)

  function Booked(txs: seq<Transaction>, links: seq<Allocation>): Totals
  {
    Totals(Sum(SharesIn, txs), Sum(FeesIn, txs), Sum(AmountIn, links))
  }

  function Plus(a: Totals, b: Totals): Totals
  {
    Totals(a.shares + b.shares, a.fees + b.fees, a.amount + b.amount)
  }

  lemma BookedTwice(txs: seq<Transaction>, links: seq<Allocation>, txs': seq<Transaction>, links': seq<Allocation>)
    ensures Booked(txs + txs', links + links') == Plus(Booked(txs, links), Booked(txs', links'))
  {
    SumConcat(SharesIn, txs, txs');
    SumConcat(FeesIn, txs, txs');
    SumConcat(AmountIn, links, links');
  }

  lemma LinksTwice(
    tb: Tables, mid: Tables, after: Tables, ibId: Id,
    txs: seq<Transaction>, links: seq<Allocation>, txs': seq<Transaction>, links': seq<Allocation>)
    requires LinkedOneToOne(tb.nextId, mid.nextId, ibId, txs, links)
    requires LinkedOneToOne(mid.nextId, after.nextId, ibId, txs', links')
    ensures LinkedOneToOne(tb.nextId, after.nextId, ibId, txs + txs', links + links')
  {
  }

  lemma ExtendsTwice(
    tb: Tables, mid: Tables, after: Tables, ibId: Id,
    pfs: seq<PortfolioFund>, txs: seq<Transaction>, links: seq<Allocation>,
    pfs': seq<PortfolioFund>, txs': seq<Transaction>, links': seq<Allocation>)
    requires Extends(tb, mid, ibId, pfs, txs, links) && Extends(mid, after, ibId, pfs', txs', links')
    ensures Extends(tb, after, ibId, pfs + pfs', txs + txs', links + links')
    ensures Booked(txs + txs', links + links') == Plus(Booked(txs, links), Booked(txs', links'))
  {
    BookedTwice(txs, links, txs', links');
    LinksTwice(tb, mid, after, ibId, txs, links, txs', links');
    assert tb.portfolioFunds + pfs + pfs' == tb.portfolioFunds + (pfs + pfs');
    assert tb.transactions + txs + txs' == tb.transactions + (txs + txs');
    assert tb.allocations + links + links' == tb.allocations + (links + links');
  }

  lemma LinkedExtends(tb: Tables, ib: IbkrTransaction, e: AllocationEntry, t: Transaction, amount: real)
    returns (links: seq<Allocation>)
    requires t.id == tb.nextId
    ensures Extends(tb, Linked(tb, ib, e, t, amount), ib.id, [], [t], links)
    ensures Booked([t], links) == Totals(t.shares, if t.kind.Fee? then t.costPerShare else 0.0, amount)
    ensures forall a :: a in links ==> a.portfolioId == e.portfolioId
  {
    links := [Allocation(tb.nextId + 1, ib.id, e.portfolioId, e.percentage, amount, t.shares, t.id)];
    assert tb.portfolioFunds + [] == tb.portfolioFunds;
    SumOne(SharesIn, t);
    SumOne(FeesIn, t);
    SumOne(AmountIn, links[0]);
  }

  /** What one portfolio's part of the trade adds up to. */
  function PartOf(ib: IbkrTransaction, e: AllocationEntry): Totals
  {
    var fees := Portion(ib.fees, e.percentage);
    Totals(Portion(ib.quantity, e.percentage), fees, Portion(ib.totalAmount, e.percentage) + fees)
  }

  lemma PlacedExtends(tb: Tables, ib: IbkrTransaction, e: AllocationEntry, pfId: Id)
    returns (txs: seq<Transaction>, links: seq<Allocation>)
    ensures Extends(tb, Placed(tb, ib, e, pfId), ib.id, [], txs, links) && txs != []
    ensures !ib.kind.Fee? ==> Booked(txs, links) == PartOf(ib, e)
    ensures forall t :: t in txs ==> t.date == ib.date && t.pfId == pfId
    ensures forall a :: a in links ==> a.portfolioId == e.portfolioId
  {
    var trade := Transaction(tb.nextId, pfId, ib.date, ib.kind, Portion(ib.quantity, e.percentage), ib.price);
    var amount := Portion(ib.totalAmount, e.percentage);
    var traded := Linked(tb, ib, e, trade, amount);
    links := LinkedExtends(tb, ib, e, trade, amount);
    txs := [trade];
    var fees := Portion(ib.fees, e.percentage);
    if fees > 0.0 {
      var fee := Transaction(traded.nextId, pfId, ib.date, Fee, 0.0, fees);
      var more := LinkedExtends(traded, ib, e, fee, fees);
      assert Placed(tb, ib, e, pfId) == Linked(traded, ib, e, fee, fees);
      ExtendsTwice(tb, traded, Linked(traded, ib, e, fee, fees), ib.id, [], [trade], links, [], [fee], more);
      txs, links := [trade] + [fee], links + more;
      var none: seq<PortfolioFund> := [];
      assert none + none == none;
    }
  }

  lemma PairExtends(tb: Tables, portfolioId: Id, fundId: Id, ibId: Id) returns (pfs: seq<PortfolioFund>)
    requires WithPair(tb, portfolioId, fundId).Ok?
    ensures Extends(tb, WithPair(tb, portfolioId, fundId).value, ibId, pfs, [], [])
  {
    pfs := [];
    if FindPair(tb, portfolioId, fundId).None? {
      pfs := [PortfolioFund(tb.nextId, portfolioId, fundId)];
    }
    assert tb.portfolioFunds + [] == tb.portfolioFunds;
    assert tb.transactions + [] == tb.transactions && tb.allocations + [] == tb.allocations;
  }

  lemma OneExtends(tb: Tables, ib: IbkrTransaction, fund: FundRow, e: AllocationEntry)
    returns (pfs: seq<PortfolioFund>, txs: seq<Transaction>, links: seq<Allocation>)
    requires AllocateOne(tb, ib, fund, e).Ok?
    ensures Extends(tb, AllocateOne(tb, ib, fund, e).value, ib.id, pfs, txs, links) && txs != []
    ensures !ib.kind.Fee? ==> Booked(txs, links) == PartOf(ib, e)
    ensures PlacedRight(AllocateOne(tb, ib, fund, e).value.portfolioFunds, ib.date, txs, links)
  {
    var paired := WithPair(tb, e.portfolioId, fund.id).value;
    var pfId := FindPair(paired, e.portfolioId, fund.id).value.id;
    FilterMembers(IsPair(e.portfolioId, fund.id), paired.portfolioFunds);
    var pairs := Filter(IsPair(e.portfolioId, fund.id), paired.portfolioFunds);
    assert FindPair(paired, e.portfolioId, fund.id).value in pairs;
    assert OnPortfolio(paired.portfolioFunds, pfId, e.portfolioId);
    pfs := PairExtends(tb, e.portfolioId, fund.id, ib.id);
    txs, links := PlacedExtends(paired, ib, e, pfId);
    ExtendsTwice(tb, paired, Placed(paired, ib, e, pfId), ib.id, pfs, [], [], [], txs, links);
    assert pfs + [] == pfs && [] + txs == txs && [] + links == links;
  }

  lemma PlacedTwice(
    pfs: seq<PortfolioFund>, more: seq<PortfolioFund>, date: Day,
    txs: seq<Transaction>, links: seq<Allocation>, txs': seq<Transaction>, links': seq<Allocation>)
    requires PlacedRight(pfs, date, txs, links) && PlacedRight(more, date, txs', links')
    requires forall pf :: pf in pfs ==> pf in more
    ensures PlacedRight(more, date, txs + txs', links + links')
  {
    forall i | 0 <= i < |txs|
      ensures OnPortfolio(more, txs[i].pfId, links[i].portfolioId)
    {
      assert OnPortfolio(pfs, txs[i].pfId, links[i].portfolioId);
    }
  }

  function PortionIn(total: Shares): AllocationEntry -> real
  {
    (e: AllocationEntry) => Portion(total, e.percentage)
  }

  /** What the parts of all portfolios add up to. */
  function PartsOf(ib: IbkrTransaction, entries: seq<AllocationEntry>): Totals
  {
    var fees := Sum(PortionIn(ib.fees), entries);
    Totals(Sum(PortionIn(ib.quantity), entries), fees, Sum(PortionIn(ib.totalAmount), entries) + fees)
  }

  lemma NextParts(ib: IbkrTransaction, entries: seq<AllocationEntry>, e: AllocationEntry)
    ensures PartsOf(ib, entries + [e]) == Plus(PartsOf(ib, entries), PartOf(ib, e))
  {
    SumConcat(PortionIn(ib.quantity), entries, [e]);
    SumConcat(PortionIn(ib.fees), entries, [e]);
    SumConcat(PortionIn(ib.totalAmount), entries, [e]);
    SumOne(PortionIn(ib.quantity), e);
    SumOne(PortionIn(ib.fees), e);
    SumOne(PortionIn(ib.totalAmount), e);
  }

  /** An allocation only appends, one transaction for every link it makes. */
  lemma {:induction false} AllocateAllExtends(
    tb: Tables, ib: IbkrTransaction, fund: FundRow, entries: seq<AllocationEntry>)
    returns (pfs: seq<PortfolioFund>, txs: seq<Transaction>, links: seq<Allocation>)
    requires AllocateAll(tb, ib, fund, entries).Ok?
    ensures Extends(tb, AllocateAll(tb, ib, fund, entries).value, ib.id, pfs, txs, links)
    ensures entries != [] ==> txs != []
    ensures !ib.kind.Fee? ==> Booked(txs, links) == PartsOf(ib, entries)
    ensures PlacedRight(AllocateAll(tb, ib, fund, entries).value.portfolioFunds, ib.date, txs, links)
  {
    if entries == [] {
      pfs, txs, links := [], [], [];
      assert tb.portfolioFunds + [] == tb.portfolioFunds;
      assert tb.transactions + [] == tb.transactions && tb.allocations + [] == tb.allocations;
    } else {
      var n := |entries| - 1;
      var mid := AllocateAll(tb, ib, fund, entries[..n]).value;
      pfs, txs, links := AllocateAllExtends(tb, ib, fund, entries[..n]);
      var pfs', txs', links' := OneExtends(mid, ib, fund, entries[n]);
      var after := AllocateOne(mid, ib, fund, entries[n]).value;
      ExtendsTwice(tb, mid, after, ib.id, pfs, txs, links, pfs', txs', links');
      PlacedTwice(mid.portfolioFunds, after.portfolioFunds, ib.date, txs, links, txs', links');
      pfs, txs, links := pfs + pfs', txs + txs', links + links';
      assert entries == entries[..n] + [entries[n]];
      NextParts(ib, entries[..n], entries[n]);
    }
  }

  // -------------------------------------------------------- the error bound

  /** Within n half units of a percentage of the whole. */
  ghost predicate Near(parts: real, total: Shares, percentage: real, n: nat)
  {
    Abs(parts - total * (percentage / 100.0)) <= n as real * HalfUnit
  }

  lemma OneMorePart(parts: real, part: real, total: Shares, p: real, q: real, n: nat)
    requires Near(parts, total, p, n) && Near(part, total, q, 1)
    ensures Near(parts + part, total, p + q, n + 1)
  {
    assert total * ((p + q) / 100.0) == total * (p / 100.0) + total * (q / 100.0);
  }

  lemma NoParts(total: Shares)
    ensures Near(0.0, total, 0.0, 0)
  {
  }

  /** The sum of the rounded parts is near the same percentage of the whole. */
  lemma {:induction false} PortionsNear(total: Shares, entries: seq<AllocationEntry>)
    ensures Near(Sum(PortionIn(total), entries), total, Sum(PercentageOf, entries), |entries|)
  {
    if entries == [] {
      NoParts(total);
    } else {
      var e, rest := entries[0], entries[1..];
      PortionsNear(total, rest);
      var part, parts := Portion(total, e.percentage), Sum(PortionIn(total), rest);
      var p, q := Sum(PercentageOf, rest), e.percentage;
      OneMorePart(parts, part, total, p, q, |rest|);
      assert Sum(PortionIn(total), entries) == parts + part && Sum(PercentageOf, entries) == p + q;
    }
  }

  ghost predicate WithinBound(booked: real, whole: Shares, n: nat)
  {
    Abs(booked - whole) <= n as real * HalfUnit + whole * 0.0001
  }

  lemma Scaled(total: Shares, off: real)
    requires -0.0001 <= off <= 0.0001
    ensures Abs(total * off) <= total * 0.0001
  {
    assert total * (0.0001 - off) >= 0.0 && total * (off + 0.0001) >= 0.0;
  }

  lemma NearWhole(booked: real, total: Shares, p: real, n: nat)
    requires Near(booked, total, p, n) && Abs(p - 100.0) <= 0.01
    ensures WithinBound(booked, total, n)
  {
    var off := p / 100.0 - 1.0;
    var whole, slack := total * (p / 100.0), n as real * HalfUnit;
    assert Abs(booked - whole) <= slack;
    assert whole == total + total * off;
    Scaled(total, off);
    assert Abs(whole - total) <= total * 0.0001;
  }

  lemma PortionsWithinBound(total: Shares, entries: seq<AllocationEntry>)
    requires ValidSplit(entries)
    ensures WithinBound(Sum(PortionIn(total), entries), total, |entries|)
  {
    PortionsNear(total, entries);
    NearWhole(Sum(PortionIn(total), entries), total, Sum(PercentageOf, entries), |entries|);
  }

  /**
   Splitting a trade over n validated percentages books shares, fees and amounts that differ from the
   trade's by at most n half units of the sixth decimal plus a ten-thousandth of the trade.
   */
  lemma AllocationErrorBound(tb: Tables, ib: IbkrTransaction, fund: FundRow, entries: seq<AllocationEntry>)
    returns (pfs: seq<PortfolioFund>, txs: seq<Transaction>, links: seq<Allocation>)
    requires AllocateAll(tb, ib, fund, entries).Ok? && ValidSplit(entries) && !ib.kind.Fee?
    ensures Extends(tb, AllocateAll(tb, ib, fund, entries).value, ib.id, pfs, txs, links)
    ensures WithinBound(Sum(SharesIn, txs), ib.quantity, |entries|)
    ensures WithinBound(Sum(FeesIn, txs), ib.fees, |entries|)
    ensures WithinBound(Sum(AmountIn, links) - Sum(FeesIn, txs), ib.totalAmount, |entries|)
  {
    pfs, txs, links := AllocateAllExtends(tb, ib, fund, entries);
    PortionsWithinBound(ib.quantity, entries);
    PortionsWithinBound(ib.fees, entries);
    PortionsWithinBound(ib.totalAmount, entries);
  }
}
