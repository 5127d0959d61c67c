/**
 Rows of the tables (internal/database/migrations/162_base.sql) and the errors the services return.
 Identifiers are natural numbers drawn from a counter that never repeats; dates are day numbers.
 */
module Schema {
  import opened Collections

  type Id = nat
  type Day = int

  datatype Kind = Buy | Sell | Dividend | Fee | Other(name: string)

  /** Every writer of the transaction table rejects negative share counts; imports store absolute values. */
  type Shares = x: real | x >= 0.0

  datatype Transaction = Transaction(
    id: Id, pfId: Id, date: Day, kind: Kind, shares: Shares, costPerShare: real)

  datatype PortfolioFund = PortfolioFund(id: Id, portfolioId: Id, fundId: Id)

  datatype DividendRow = DividendRow(
    id: Id, pfId: Id, exDate: Day, totalAmount: real, reinvestment: Option<Id>)

  datatype FundPrice = FundPrice(fundId: Id, date: Day, price: real)

  datatype RealizedGain = RealizedGain(
    id: Id, portfolioId: Id, fundId: Id, transactionId: Id, date: Day,
    sharesSold: real, costBasis: real, saleProceeds: real, gain: real)

  datatype FundRow = FundRow(id: Id, isin: string, symbol: string)

  datatype Status = Pending | Processed | Ignored

  datatype IbkrTransaction = IbkrTransaction(
    id: Id, ibkrId: string, date: Day, isin: string, symbol: string, kind: Kind,
    quantity: Shares, price: real, totalAmount: Shares, fees: Shares, status: Status, processedAt: Option<int>)

  datatype Allocation = Allocation(
    id: Id, ibkrTransactionId: Id, portfolioId: Id, percentage: real,
    amount: real, shares: real, transactionId: Id)

  /** A share of an imported trade; validated requests have positive percentages. */
  datatype AllocationEntry = AllocationEntry(portfolioId: Id, percentage: Shares)

  datatype Tables = Tables(
    portfolios: set<Id>,
    funds: seq<FundRow>,
    portfolioFunds: seq<PortfolioFund>,
    transactions: seq<Transaction>,
    dividends: seq<DividendRow>,
    prices: seq<FundPrice>,
    gains: seq<RealizedGain>,
    inbox: seq<IbkrTransaction>,
    allocations: seq<Allocation>,
    defaultAllocations: seq<AllocationEntry>,
    nextId: Id)

  datatype Error =
    | NotFound
    | PortfolioFundNotFound
    | UnsupportedKind
    | InsufficientShares
    | StartAfterEnd
    | NoScope
    | UniqueViolated
    | ForeignKeyViolated
    | AlreadyProcessed
    | InvalidAllocations
    | FundNotMatched
    | LookupKeyMissing

  /** Table order on equal dates: the database returns them in insertion order. */
  const ByDate: (Transaction, Transaction) -> bool := (a: Transaction, b: Transaction) => a.date <= b.date

  function UpTo(date: Day): Transaction -> bool
  {
    (t: Transaction) => t.date <= date
  }

  function NotId(id: Id): Transaction -> bool
  {
    (t: Transaction) => t.id != id
  }

  function HasId(id: Id): Transaction -> bool
  {
    (t: Transaction) => t.id == id
  }

  function NotOf(id: Id): RealizedGain -> bool
  {
    (g: RealizedGain) => g.transactionId != id
  }

  function RowNotIn(ids: seq<Id>): Transaction -> bool
  {
    (t: Transaction) => t.id !in ids
  }

  function GainNotIn(ids: seq<Id>): RealizedGain -> bool
  {
    (g: RealizedGain) => g.transactionId !in ids
  }

  function IsPf(pfId: Id): PortfolioFund -> bool
  {
    (pf: PortfolioFund) => pf.id == pfId
  }

  /** The database handle the services share; a service commits by assigning the tables. */
  class Database {
    var tables: Tables

    constructor (tb: Tables)
      ensures tables == tb
    {
      tables := tb;
    }
  }

  predicate Unsupported(ts: seq<Transaction>)
  {
    exists t :: t in ts && t.kind.Other?
  }
}
