/** The tables the services work on. A table is the sequence of its rows in insertion order and a row's
    id is its position. Money columns are integer cents. */
module Schema {

  datatype Option<+T> = None | Some(value: T)

  datatype Result<+T> = Ok(value: T) | Err(error: Error)

  /** One name per way a service call can be refused. */
  datatype Error =
    // not found
    | NoAccount | NoEntry | NoPeriodRow | NoFiscalYear | NoReconciliation | NoItem
    | NoInvoice | NoPayment | NoRequest | NoProfile | NoPayrollRun
    | NoTenant
    // conflict
    | CodeExists | NameExists | PeriodNameExists
    // bad request
    | ParentInvalid | ParentType | AccountInvalid | SummaryAccount
    | NoPeriod | PeriodClosed | DatesOutOfOrder | YearClosed | PeriodsOpen | UnsupportedMethod
    | NotApprovable | NoControlAccount | InvoiceNotApproved | OverAllocated | AlreadyDecided
    | CurrencyMissing
    | PayrollSettled | ContractMismatch
    | InsufficientStock | NotANumber
    | AlreadyReconciled | BalanceMismatch
    | NumberExists
    | TooFewLines | NegativeAmount | TwoSidedLine | OutOfBalance | AlreadyReversed

  // ---- chart of accounts and calendar ----

  datatype AccountType = Asset | Liability | Equity | Revenue | Expense

  datatype Account = Account(tenant: nat, code: string, ty: AccountType, parent: Option<nat>, active: bool)

  datatype PeriodStatus = Open | Closed | Adjusting

  datatype FiscalYear = FiscalYear(tenant: nat, name: string, start: int, end: int, closed: bool)

  datatype Period = Period(tenant: nat, year: nat, name: string, start: int, end: int, status: PeriodStatus)

  // ---- ledger ----

  datatype Entry = Entry(tenant: nat, number: string, date: int, reversal: Option<nat>)

  datatype Line = Line(tenant: nat, entry: nat, account: nat, debit: int, credit: int,
                       createdAt: int, reconciliation: Option<nat>)

  /** The tables the ledger services share. */
  datatype Books = Books(accounts: seq<Account>, periods: seq<Period>, entries: seq<Entry>, lines: seq<Line>)

  // ---- bank reconciliation ----

  datatype Transaction = Transaction(date: int, amount: int)

  /** A reconciliation together with the statement it was uploaded with. */
  datatype Reconciliation = Reconciliation(tenant: nat, account: nat, opening: int, closing: int,
                                           transactions: seq<Transaction>, reconciled: bool)

  // ---- fixed assets ----

  datatype DepreciationMethod = StraightLine | DecliningBalance | UnitsOfProduction

  datatype FixedAsset = FixedAsset(tenant: nat, code: string, depreciationAccount: nat, expenseAccount: nat,
                                   purchased: int, price: int, salvage: int, life: int)

  datatype Schedule = Schedule(asset: nat, date: int, amount: int, accumulated: int, entry: Option<nat>)
  {
    /** The `posted` flag and the link to the entry are always set together. */
    predicate Posted() { entry.Some? }
  }

  // ---- stock: quantities in ten-thousandths, unit costs of movements in ten-thousandths of a cent ----

  datatype Item = Item(tenant: nat, average: int, cogsAccount: Option<nat>, inventoryAccount: Option<nat>)

  datatype Balance = Balance(item: nat, warehouse: nat, quantity: int)

  datatype MovementKind = Purchase | Sale | Transfer

  datatype Movement = Movement(kind: MovementKind, item: nat, warehouse: nat, quantity: int, unitCost: int)

  datatype Stock = Stock(items: seq<Item>, balances: seq<Balance>, movements: seq<Movement>)

  // ---- business documents: quantities in hundredths, exchange rates in millionths ----

  datatype Contact = Contact(receivable: Option<nat>, payable: Option<nat>)

  datatype InvoiceType = SalesInvoice | PurchaseInvoice | CreditNote | DebitNote

  datatype DocumentStatus = Draft | PendingApproval | Approved | Paid

  datatype Location = Location(item: nat, warehouse: nat)

  datatype InvoiceLine = InvoiceLine(quantity: int, total: int, account: nat, location: Option<Location>)

  datatype Invoice = Invoice(tenant: nat, contact: nat, ty: InvoiceType, status: DocumentStatus, date: int,
                             rate: Option<int>, total: int, amountPaid: int, lines: seq<InvoiceLine>,
                             entry: Option<nat>)

  datatype PaymentType = Incoming | Outgoing

  datatype Allocation = Allocation(invoice: nat, amount: int)

  datatype Payment = Payment(tenant: nat, contact: nat, ty: PaymentType, status: DocumentStatus, date: int,
                             amount: int, account: nat, rate: Option<int>, whtAmount: int, whtAccount: Option<nat>,
                             allocations: seq<Allocation>, entry: Option<nat>)

  datatype EntityType = PaymentEntity | PurchaseOrderEntity | PayrollRunEntity

  datatype Decision = Pending | Accepted | Rejected

  datatype ApprovalRequest = ApprovalRequest(tenant: nat, ty: EntityType, entity: nat, status: Decision)

  // ---- payroll ----

  datatype Profile = Profile(tenant: nat, basic: int, housing: int, transport: int, contract: int, hired: Option<int>)

  /** A run's stored totals. */
  datatype PayrollRun = PayrollRun(tenant: nat, period: string, status: DocumentStatus, gross: int, net: int,
                                   deductions: int, gosi: int, other: int, entry: Option<nat>)

  // ---- consolidation: rates in millionths ----

  datatype Tenant = Tenant(currency: string, children: seq<nat>)

  datatype Currency = Currency(tenant: nat, code: string)

  datatype PeriodRate = PeriodRate(tenant: nat, currency: nat, period: nat, rate: int)

  datatype Group = Group(tenants: seq<Tenant>, currencies: seq<Currency>, rates: seq<PeriodRate>)

  /** The ledger tables together with the fixed-asset register. */
  datatype AssetBooks = AssetBooks(books: Books, assets: seq<FixedAsset>, schedules: seq<Schedule>)

  class Database {
    var accounts: seq<Account>
    var fiscalYears: seq<FiscalYear>
    var periods: seq<Period>
    var entries: seq<Entry>
    var lines: seq<Line>
    var contacts: seq<Contact>
    var invoices: seq<Invoice>
    var payments: seq<Payment>
    var requests: seq<ApprovalRequest>
    var tenants: seq<Tenant>
    var currencies: seq<Currency>
    var periodRates: seq<PeriodRate>
    var profiles: seq<Profile>
    var payrollRuns: seq<Option<PayrollRun>>  // a deleted run leaves a gap
    var reconciliations: seq<Reconciliation>
    var items: seq<Item>
    var balances: seq<Balance>
    var movements: seq<Movement>
    var assets: seq<FixedAsset>
    var schedules: seq<Schedule>

    constructor ()
      ensures fiscalYears == [] && Ledger() == Books([], [], [], [])
      ensures contacts == [] && invoices == [] && payments == [] && requests == []
      ensures Companies() == Group([], [], [])
      ensures profiles == [] && payrollRuns == []
      ensures Inventory() == Stock([], [], [])
      ensures assets == [] && schedules == [] && reconciliations == []
    {
      accounts, fiscalYears, periods, entries, lines := [], [], [], [], [];
      items, balances, movements := [], [], [];
      contacts, invoices, payments, requests := [], [], [], [];
      profiles, payrollRuns := [], [];
      tenants, currencies, periodRates := [], [], [];
      assets, schedules, reconciliations := [], [], [];
    }

    function Ledger(): Books
      reads this
    {
      Books(accounts, periods, entries, lines)
    }

    function Companies(): Group
      reads this
    {
      Group(tenants, currencies, periodRates)
    }

    function Inventory(): Stock
      reads this
    {
      Stock(items, balances, movements)
    }

    function Register(): AssetBooks
      reads this
    {
      AssetBooks(Ledger(), assets, schedules)
    }
  }
}
