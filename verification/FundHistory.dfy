/**
 portfolio_data_loader.go and materialized_helpers.go: the on-demand fund history of one portfolio.
 The functions say what is computed; the methods below them compute it the way the service does.
 */
module FundHistory {
  import opened Collections
  import opened Sorting
  import opened Schema
  import opened Rounding
  import opened Ledger

  // --------------------------------------------------------------- loading

  function InPortfolio(portfolioId: Id): PortfolioFund -> bool
  {
    (pf: PortfolioFund) => pf.portfolioId == portfolioId
  }

  function HoldsFund(fundId: Id): PortfolioFund -> bool
  {
    (pf: PortfolioFund) => pf.fundId == fundId
  }

  function FundsOf(tb: Tables, portfolioId: Id): seq<PortfolioFund>
  {
    Filter(InPortfolio(portfolioId), tb.portfolioFunds)
  }

  function PfIds(funds: seq<PortfolioFund>): (ids: seq<Id>)
    ensures forall pf :: pf in funds ==> pf.id in ids
    ensures forall id :: id in ids ==> exists pf :: pf in funds && pf.id == id
  {
    if funds == [] then [] else
      assert funds == [funds[0]] + funds[1..];
      [funds[0].id] + PfIds(funds[1..])
  }

  function OfAny(ids: seq<Id>): Transaction -> bool
  {
    (t: Transaction) => t.pfId in ids
  }

  /** SELECT MIN(date). */
  function MinDate(ts: seq<Transaction>): (d: Option<Day>)
    ensures d.None? <==> ts == []
    ensures d.Some? ==> forall t :: t in ts ==> d.value <= t.date
    ensures d.Some? ==> exists t :: t in ts && t.date == d.value
  {
    if ts == [] then None
    else
      assert ts == [ts[0]] + ts[1..];
      match MinDate(ts[1..])
      case None => Some(ts[0].date)
      case Some(d) => Some(if ts[0].date <= d then ts[0].date else d)
  }

  function Oldest(tb: Tables, portfolioId: Id): Option<Day>
  {
    MinDate(Filter(OfAny(PfIds(FundsOf(tb, portfolioId))), tb.transactions))
  }

  predicate Within(lo: Option<Day>, hi: Day, date: Day)
  {
    (lo.Some? ==> lo.value <= date) && date <= hi
  }

  function TransactionWindow(pfId: Id, lo: Option<Day>, hi: Day): Transaction -> bool
  {
    (t: Transaction) => t.pfId == pfId && Within(lo, hi, t.date)
  }

  function DividendWindow(pfId: Id, lo: Option<Day>, hi: Day): DividendRow -> bool
  {
    (d: DividendRow) => d.pfId == pfId && Within(lo, hi, d.exDate)
  }

  function PriceWindow(fundId: Id, lo: Option<Day>, hi: Day): FundPrice -> bool
  {
    (p: FundPrice) => p.fundId == fundId && Within(lo, hi, p.date)
  }

  function GainWindow(portfolioId: Id, lo: Option<Day>, hi: Day): RealizedGain -> bool
  {
    (g: RealizedGain) => g.portfolioId == portfolioId && Within(lo, hi, g.date)
  }

  const ByExDate: (DividendRow, DividendRow) -> bool := (a: DividendRow, b: DividendRow) => a.exDate <= b.exDate

  const ByPriceDate: (FundPrice, FundPrice) -> bool := (a: FundPrice, b: FundPrice) => a.date <= b.date

  datatype PortfolioData = PortfolioData(
    funds: seq<PortfolioFund>,
    oldest: Option<Day>,
    transactionsByPf: map<Id, seq<Transaction>>,
    dividendsByPf: map<Id, seq<DividendRow>>,
    pricesByFund: map<Id, seq<FundPrice>>,
    gains: seq<RealizedGain>)

  function Get<T>(m: map<Id, seq<T>>, key: Id): seq<T>
  {
    if key in m then m[key] else []
  }

  /** Everything dated from the portfolio's oldest transaction up to today. */
  function Loaded(tb: Tables, portfolioId: Id, today: Day): PortfolioData
  {
    var funds := FundsOf(tb, portfolioId);
    var lo := Oldest(tb, portfolioId);
    PortfolioData(
      funds,
      lo,
      map id | id in PfIds(funds) :: Sort(ByDate, Filter(TransactionWindow(id, lo, today), tb.transactions)),
      map id | id in PfIds(funds) :: Sort(ByExDate, Filter(DividendWindow(id, lo, today), tb.dividends)),
      map id | id in FundIds(funds) :: Sort(ByPriceDate, Filter(PriceWindow(id, lo, today), tb.prices)),
      Filter(GainWindow(portfolioId, lo, today), tb.gains))
  }

  function FundIds(funds: seq<PortfolioFund>): (ids: seq<Id>)
    ensures forall pf :: pf in funds ==> pf.fundId in ids
  {
    if funds == [] then [] else
      assert funds == [funds[0]] + funds[1..];
      [funds[0].fundId] + FundIds(funds[1..])
  }

  /** Loading fails for an unknown portfolio, and when its oldest transaction lies in the future. */
  function LoadForPortfolio(tb: Tables, portfolioId: Id, today: Day): (r: Result<PortfolioData, Error>)
    ensures r.Ok? ==> r.value == Loaded(tb, portfolioId, today)
  {
    if portfolioId !in tb.portfolios then Err(NotFound)
    else
      var data := Loaded(tb, portfolioId, today);
      if data.funds != [] && data.oldest.Some? && data.oldest.value > today then Err(StartAfterEnd)
      else Ok(data)
  }

  // ----------------------------------------------------------- one entry

  datatype FundHistoryEntry = FundHistoryEntry(
    pfId: Id, fundId: Id, shares: real, price: real, value: real, cost: real,
    realizedGain: real, unrealizedGain: real, totalGainLoss: real, dividends: real,
    fees: real, saleProceeds: real, originalCost: real)

  datatype CacheRow = CacheRow(date: Day, entry: FundHistoryEntry)

  function ExUpTo(date: Day): DividendRow -> bool
  {
    (d: DividendRow) => d.exDate <= date
  }

  function GainUpTo(date: Day): RealizedGain -> bool
  {
    (g: RealizedGain) => g.date <= date
  }

  function OfFund(fundId: Id): RealizedGain -> bool
  {
    (g: RealizedGain) => g.fundId == fundId
  }

  /** The shares of the first transaction with the id, whatever its date. */
  function LookupShares(ts: seq<Transaction>, id: Id): real
  {
    if ts == [] then 0.0 else if ts[0].id == id then ts[0].shares else LookupShares(ts[1..], id)
  }

  function SharesReinvestedIn(ts: seq<Transaction>): DividendRow -> real
  {
    (d: DividendRow) => match d.reinvestment
      case None => 0.0
      case Some(id) => LookupShares(ts, id)
  }

  function DividendShares(ds: seq<DividendRow>, ts: seq<Transaction>, date: Day): real
  {
    Sum(SharesReinvestedIn(ts), TakeWhile(ExUpTo(date), ds))
  }

  const TotalAmount: DividendRow -> real := (d: DividendRow) => d.totalAmount

  function DividendAmount(ds: seq<DividendRow>, date: Day): real
  {
    Sum(TotalAmount, TakeWhile(ExUpTo(date), ds))
  }

  const GainOf: RealizedGain -> real := (g: RealizedGain) => g.gain
  const ProceedsOf: RealizedGain -> real := (g: RealizedGain) => g.saleProceeds
  const BasisOf: RealizedGain -> real := (g: RealizedGain) => g.costBasis

  datatype Realized = Realized(gain: real, proceeds: real, basis: real)

  function RealizedUpTo(gains: seq<RealizedGain>, date: Day): Realized
  {
    var due := Filter(GainUpTo(date), gains);
    Realized(Sum(GainOf, due), Sum(ProceedsOf, due), Sum(BasisOf, due))
  }

  function Rounded(pf: PortfolioFund, m: FundMetrics, dividends: real, realized: Realized): FundHistoryEntry
  {
    FundHistoryEntry(
      pf.id, pf.fundId, Round(m.shares), Round(m.price), Round(m.value), Round(m.cost),
      Round(realized.gain), Round(m.unrealizedGain), Round(m.unrealizedGain + realized.gain),
      Round(dividends), Round(m.fees), Round(realized.proceeds), Round(realized.basis))
  }

  /** The transactions of a fund that count on a date. */
  function Due(data: PortfolioData, pf: PortfolioFund, date: Day): seq<Transaction>
  {
    TakeWhile(UpTo(date), Get(data.transactionsByPf, pf.id))
  }

  function MetricsAt(data: PortfolioData, pf: PortfolioFund, date: Day): FundMetrics
  {
    var reinvested := DividendShares(Get(data.dividendsByPf, pf.id), Get(data.transactionsByPf, pf.id), date);
    var price := LastPrice(TakeWhile(PriceUpTo(date), Get(data.pricesByFund, pf.fundId)));
    Valued(MetricsOf(reinvested, Due(data, pf, date)), price)
  }

  function RealizedAt(data: PortfolioData, pf: PortfolioFund, date: Day): Realized
  {
    RealizedUpTo(Filter(OfFund(pf.fundId), data.gains), date)
  }

  function EntryFor(data: PortfolioData, pf: PortfolioFund, date: Day): FundHistoryEntry
  {
    Rounded(pf, MetricsAt(data, pf, date), DividendAmount(Get(data.dividendsByPf, pf.id), date),
            RealizedAt(data, pf, date))
  }

  /** Entries without shares or financial activity are left out of the history. */
  predicate Blank(e: FundHistoryEntry)
  {
    && e.shares == 0.0 && e.realizedGain == 0.0 && e.dividends == 0.0
    && e.saleProceeds == 0.0 && e.originalCost == 0.0 && e.fees == 0.0
  }

  // ---------------------------------------------------------- the history

  function RowFor(data: PortfolioData, date: Day, pf: PortfolioFund): (rows: seq<CacheRow>)
    ensures |rows| <= 1
    ensures forall r :: r in rows ==> r.date == date && r.entry.pfId == pf.id
  {
    var entry := EntryFor(data, pf, date);
    if Blank(entry) then [] else [CacheRow(date, entry)]
  }

  function RowsOn(data: PortfolioData, date: Day, funds: seq<PortfolioFund>): seq<CacheRow>
  {
    if funds == [] then []
    else RowsOn(data, date, funds[..|funds| - 1]) + RowFor(data, date, funds[|funds| - 1])
  }

  function RowsBetween(data: PortfolioData, from: Day, last: Day): seq<CacheRow>
    decreases last - from + 1
  {
    if last < from then [] else RowsBetween(data, from, last - 1) + RowsOn(data, last, data.funds)
  }

  /** Some day of the range reads a transaction of an unsupported type. */
  ghost predicate Unreadable(data: PortfolioData, from: Day, last: Day)
  {
    from <= last && exists pf :: pf in data.funds && Unsupported(Due(data, pf, last))
  }

  /** The first day iterated: not before the oldest transaction. */
  function Clamped(oldest: Option<Day>, from: Day): Day
  {
    if oldest.Some? && from < oldest.value then oldest.value else from
  }

  /** What the on-demand calculation returns for a range of days ending today. */
  ghost function HistoryOnFly(tb: Tables, portfolioId: Id, from: Day, today: Day): Result<seq<CacheRow>, Error>
  {
    var data :- LoadForPortfolio(tb, portfolioId, today);
    if data.funds == [] then Ok([])
    else if Unreadable(data, Clamped(data.oldest, from), today) then Err(UnsupportedKind)
    else Ok(RowsBetween(data, Clamped(data.oldest, from), today))
  }
}
