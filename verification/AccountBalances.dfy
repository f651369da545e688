/** Any account in any window after any run of the services: the sum of what each call put on it, told from the
    documents. */
module AccountBalances {
  import opened Schema
  import opened Money
  import opened JournalEntries
  import opened GeneralLedger
  import opened LedgerBooks
  import opened ServiceRuns
  import LedgerRuns
  import AssetRegister
  import FixedAssets
  import ChartOfAccounts
  import Invoices
  import Payments
  import Payroll
  import Eosb

  // ---- what a call puts on an account ----

  /** A posted request, the opposite of a reversed entry, or the instalments of a depreciation run. */
  function DirectShare(s: AssetBooks, e: LedgerRuns.Event, tenant: nat, w: Window, account: nat): int {
    match e
    case Post(owner, date, ls, _) =>
      if owner != tenant || !Within(w, date) || CreateError(s.books, owner, date, ls).Some? then 0
      else Moved(ls, account)
    case Reverse(owner, original, date, _) =>
      if owner != tenant || !Within(w, date) || ReversalError(s.books, owner, original, date).Some? then 0
      else -TenantNet(LinesOf(s.books.lines, original), tenant, account)
    case Depreciate(owner, asOf, now) =>
      if owner != tenant then 0
      else
        var after := FixedAssets.RunTo(s, owner, asOf, now, |s.schedules|).register.schedules;
        AssetRegister.Charged(s, after, w, account, |s.schedules|)
    case _ => 0
  }

  /** An accepted invoice: its total against the contact's receivable or payable account, and its lines. */
  function InvoiceShare(o: Invoices.Office, owner: nat, id: nat, now: int, tenant: nat, w: Window, account: nat): int {
    if owner != tenant || Invoices.ApprovedOffice(o, owner, id, now).Err? || !Within(w, o.invoices[id].date) then 0
    else
      var inv := o.invoices[id];
      var contact := o.contacts[inv.contact];
      var control := if inv.ty in [SalesInvoice, DebitNote] then contact.receivable else contact.payable;
      (if control == Some(account) then Invoices.ControlMove(inv) else 0)
      + Invoices.LinesMove(o.stock, inv, account, |inv.lines|)
  }

  /** An accepted payment: its share against the contact's receivable or payable account. */
  function PaymentShare(d: Payments.Desk, owner: nat, id: nat, now: int, tenant: nat, w: Window, account: nat): int {
    if owner != tenant || Payments.Approval(d, owner, id, now).Err? || !Within(w, d.payments[id].date) then 0
    else
      var p := d.payments[id];
      var contact := d.contacts[p.contact];
      Payments.Share(p, if p.ty == Incoming then contact.receivable else contact.payable, account)
  }

  /** Gross pay, and what is withheld and paid out of it. */
  function PayrollShare(b: Books, run: PayrollRun, owner: nat, now: int, tenant: nat, w: Window, account: nat): int {
    if owner != tenant || !Within(w, now) || Payroll.EntryError(b, run, owner, now).Some? then 0
    else
      var chart := Payroll.PayrollChart(b.accounts, owner);
      (if ChartOfAccounts.FindCode(chart, owner, "5110") == Some(account) then run.gross else 0)
      - (if ChartOfAccounts.FindCode(chart, owner, "2140") == Some(account) && run.gosi > 0 then run.gosi else 0)
      - (if ChartOfAccounts.FindCode(chart, owner, "2150") == Some(account) && run.other > 0 then run.other else 0)
      - (if ChartOfAccounts.FindCode(chart, owner, "2130") == Some(account) then run.net else 0)
  }

  function AccrualShare(b: Books, profiles: seq<Profile>, owner: nat, now: int, tenant: nat, w: Window,
                        account: nat): int {
    if owner != tenant || !Within(w, now) || Eosb.AccrualError(b, profiles, owner, now).Some? then 0
    else
      var chart, accrued := Eosb.AccrualChart(b.accounts, owner), Round(Eosb.TotalAccrual(profiles, owner, now));
      (if ChartOfAccounts.FindCode(chart, owner, "5120") == Some(account) then accrued else 0)
      - (if ChartOfAccounts.FindCode(chart, owner, "2150") == Some(account) then accrued else 0)
  }

  function Share(s: AssetBooks, c: Call, tenant: nat, w: Window, account: nat): int {
    match c
    case Direct(event) => DirectShare(s, event, tenant, w, account)
    case ApproveInvoice(stock, contacts, invoices, owner, id, now) =>
      InvoiceShare(Invoices.Office(s.books, stock, contacts, invoices), owner, id, now, tenant, w, account)
    case ApprovePayment(desk, owner, id, now) =>
      PaymentShare(desk.(books := s.books), owner, id, now, tenant, w, account)
    case ApproveRequest(desk, owner, r, now) =>
      if Payments.RequestError(desk, owner, r).Some? || desk.requests[r].ty != PaymentEntity then 0
      else
        var decided := Payments.Decided(desk.(books := s.books), r, Accepted);
        PaymentShare(decided, owner, desk.requests[r].entity, now, tenant, w, account)
    case ApprovePayroll(runs, owner, id, now) =>
      if Payroll.ApproveError(runs, owner, id).Some? then 0
      else PayrollShare(s.books, runs[id].value, owner, now, tenant, w, account)
    case BookAccrual(profiles, owner, now) => AccrualShare(s.books, profiles, owner, now, tenant, w, account)
  }

  function Shares(calls: seq<Call>, tenant: nat, w: Window, account: nat): int {
    if calls == [] then 0
    else
      var init := calls[..|calls| - 1];
      Shares(init, tenant, w, account) + Share(RunCalls(init), calls[|calls| - 1], tenant, w, account)
  }

  // ---- each call ----

  function Balance(b: Books, tenant: nat, w: Window, account: nat): int {
    AccountNet(b.entries, b.lines, tenant, w, account)
  }

  /** What runs keep and the steps need. */
  ghost predicate Ready(s: AssetBooks) {
    Linked(s.books) && forall i :: 0 <= i < |s.schedules| ==> s.schedules[i].asset < |s.assets|
  }

  lemma DirectMoves(s: AssetBooks, e: LedgerRuns.Event, tenant: nat, w: Window, account: nat)
    requires Ready(s)
    ensures Balance(LedgerRuns.Next(s, e).books, tenant, w, account)
            == Balance(s.books, tenant, w, account) + DirectShare(s, e, tenant, w, account)
  {
    hide AccountNet, CreateError, ReversalError, Posted, Reversed, Moved, TenantNet, Within, Linked, FixedAssets.RunTo,
         AssetRegister.Charged;
    match e
    case Post(owner, date, ls, now) =>
      if CreateError(s.books, owner, date, ls).None? { PostMoves(s.books, owner, date, ls, now, tenant, w, account); }
    case Reverse(owner, original, date, now) =>
      if ReversalError(s.books, owner, original, date).None? {
        ReversalMoves(s.books, owner, original, date, now, tenant, w, account);
      }
    case Depreciate(owner, asOf, now) =>
      AssetRegister.DepreciationMoves(s, owner, asOf, now, |s.schedules|, tenant, w, account);
    case _ =>
  }

  lemma InvoiceMoves(o: Invoices.Office, owner: nat, id: nat, now: int, tenant: nat, w: Window, account: nat)
    requires Linked(o.books)
    ensures var r := Invoices.ApprovedOffice(o, owner, id, now);
            Balance(if r.Ok? then r.value.books else o.books, tenant, w, account)
            == Balance(o.books, tenant, w, account) + InvoiceShare(o, owner, id, now, tenant, w, account)
  {
    hide Invoices.ApprovedOffice, Invoices.LinesMove, Invoices.ControlMove, AccountNet, Within, Linked;
    if Invoices.ApprovedOffice(o, owner, id, now).Ok? {
      Invoices.ApprovalMoves(o, owner, id, now, tenant, w, account);
    }
  }

  lemma PaymentMoves(d: Payments.Desk, owner: nat, id: nat, now: int, tenant: nat, w: Window, account: nat)
    requires Linked(d.books)
    ensures var r := Payments.Approval(d, owner, id, now);
            Balance(if r.Ok? then r.value.books else d.books, tenant, w, account)
            == Balance(d.books, tenant, w, account) + PaymentShare(d, owner, id, now, tenant, w, account)
  {
    hide Payments.Approval, Payments.Share, AccountNet, Within, Linked;
    if Payments.Approval(d, owner, id, now).Ok? { Payments.ApprovalMoves(d, owner, id, now, tenant, w, account); }
  }

  lemma PayrollMoves(b: Books, run: PayrollRun, owner: nat, now: int, tenant: nat, w: Window, account: nat)
    requires Linked(b)
    ensures Balance(Payroll.RunPosted(b, run, owner, now), tenant, w, account)
            == Balance(b, tenant, w, account) + PayrollShare(b, run, owner, now, tenant, w, account)
  {
    hide Payroll.PayrollChart, Payroll.EntryLines, ChartOfAccounts.FindCode, CreateError, Posted, Moved, AccountNet,
         Within;
    var books := b.(accounts := Payroll.PayrollChart(b.accounts, owner));
    Payroll.EntryMoves(b.accounts, run, owner, account);
    PostMoves(books, owner, now, Payroll.EntryLines(books.accounts, run, owner), now, tenant, w, account);
  }

  lemma AccrualMoves(b: Books, profiles: seq<Profile>, owner: nat, now: int, tenant: nat, w: Window, account: nat)
    requires Linked(b)
    ensures Balance(Eosb.Accrued(b, profiles, owner, now), tenant, w, account)
            == Balance(b, tenant, w, account) + AccrualShare(b, profiles, owner, now, tenant, w, account)
  {
    hide Eosb.AccrualChart, Eosb.AccrualEntry, Eosb.TotalAccrual, ChartOfAccounts.FindCode, CreateError, Posted, Moved,
         AccountNet, Within, Round;
    var books := b.(accounts := Eosb.AccrualChart(b.accounts, owner));
    Eosb.EntryMoves(b.accounts, profiles, owner, now, account);
    PostMoves(books, owner, now, Eosb.AccrualEntry(b.accounts, profiles, owner, now), now, tenant, w, account);
  }

  lemma CallMoves(s: AssetBooks, c: Call, tenant: nat, w: Window, account: nat)
    requires Ready(s)
    ensures Balance(After(s, c).books, tenant, w, account)
            == Balance(s.books, tenant, w, account) + Share(s, c, tenant, w, account)
  {
    hide Balance, LedgerRuns.Next, DirectShare, InvoiceShare, PaymentShare, PayrollShare, AccrualShare, Linked,
         Payments.Approval, Invoices.ApprovedOffice, Payroll.RunPosted, Eosb.Accrued;
    match c
    case Direct(event) => DirectMoves(s, event, tenant, w, account);
    case ApproveInvoice(stock, contacts, invoices, owner, id, now) =>
      InvoiceMoves(Invoices.Office(s.books, stock, contacts, invoices), owner, id, now, tenant, w, account);
    case ApprovePayment(desk, owner, id, now) =>
      PaymentMoves(desk.(books := s.books), owner, id, now, tenant, w, account);
    case ApproveRequest(desk, owner, r, now) =>
      if Payments.RequestError(desk, owner, r).None? && desk.requests[r].ty == PaymentEntity {
        var decided := Payments.Decided(desk.(books := s.books), r, Accepted);
        PaymentMoves(decided, owner, desk.requests[r].entity, now, tenant, w, account);
      }
    case ApprovePayroll(runs, owner, id, now) =>
      if Payroll.ApproveError(runs, owner, id).None? {
        PayrollMoves(s.books, runs[id].value, owner, now, tenant, w, account);
      }
    case BookAccrual(profiles, owner, now) => AccrualMoves(s.books, profiles, owner, now, tenant, w, account);
  }

  // ---- whole runs ----

  lemma {:induction false} RunReady(calls: seq<Call>)
    ensures Ready(RunCalls(calls))
  {
    hide RunCalls, Trace, LedgerRuns.Run;
    CallsAreLedgerRuns(calls);
    LedgerRuns.RunKeeps(Trace(calls), false);
    AssetRegister.AssetsExist(LedgerRuns.Run(Trace(calls)));
  }

  /** After any run of the services, a tenant's balance on any account, in any window, is the sum of what the
      accepted calls put on it. */
  lemma {:induction false} BalanceOfServices(calls: seq<Call>, tenant: nat, w: Window, account: nat)
    ensures var b := RunCalls(calls).books;
            AccountNet(b.entries, b.lines, tenant, w, account) == Shares(calls, tenant, w, account)
  {
    hide After, Share, Ready;
    if calls == [] {
      NothingYet(tenant, w, account);
    } else {
      var init := calls[..|calls| - 1];
      BalanceOfServices(init, tenant, w, account);
      RunReady(init);
      CallMoves(RunCalls(init), calls[|calls| - 1], tenant, w, account);
    }
  }

  lemma NothingYet(tenant: nat, w: Window, account: nat)
    ensures LedgerRuns.Run([]).books == Books([], [], [], []) && AccountNet([], [], tenant, w, account) == 0
  {
  }

  // ---- an account used as control account only ----

  /** An accepted invoice whose contact has the account on its side: its whole total. */
  function InvoiceControl(o: Invoices.Office, owner: nat, id: nat, now: int, tenant: nat, w: Window,
                          account: nat): int {
    if owner != tenant || Invoices.ApprovedOffice(o, owner, id, now).Err? || !Within(w, o.invoices[id].date) then 0
    else
      var inv := o.invoices[id];
      var contact := o.contacts[inv.contact];
      if inv.ty in [SalesInvoice, DebitNote]
      then (if contact.receivable == Some(account) then Invoices.Cents(inv, inv.total) else 0)
      else (if contact.payable == Some(account) then -Invoices.Cents(inv, inv.total) else 0)
  }

  /** An accepted payment whose contact has the account on its side: its whole amount. */
  function PaymentControl(d: Payments.Desk, owner: nat, id: nat, now: int, tenant: nat, w: Window, account: nat): int {
    if owner != tenant || Payments.Approval(d, owner, id, now).Err? || !Within(w, d.payments[id].date) then 0
    else
      var p := d.payments[id];
      var contact, settled := d.contacts[p.contact], Round(Payments.Converted(p, p.amount));
      if p.ty == Incoming then (if contact.receivable == Some(account) then -settled else 0)
      else (if contact.payable == Some(account) then settled else 0)
  }

  function ControlShare(s: AssetBooks, c: Call, tenant: nat, w: Window, account: nat): int {
    match c
    case ApproveInvoice(stock, contacts, invoices, owner, id, now) =>
      InvoiceControl(Invoices.Office(s.books, stock, contacts, invoices), owner, id, now, tenant, w, account)
    case ApprovePayment(desk, owner, id, now) =>
      PaymentControl(desk.(books := s.books), owner, id, now, tenant, w, account)
    case ApproveRequest(desk, owner, r, now) =>
      if Payments.RequestError(desk, owner, r).Some? || desk.requests[r].ty != PaymentEntity then 0
      else
        var decided := Payments.Decided(desk.(books := s.books), r, Accepted);
        PaymentControl(decided, owner, desk.requests[r].entity, now, tenant, w, account)
    case _ => 0
  }

  function ControlShares(calls: seq<Call>, tenant: nat, w: Window, account: nat): int {
    if calls == [] then 0
    else
      var init := calls[..|calls| - 1];
      ControlShares(init, tenant, w, account) + ControlShare(RunCalls(init), calls[|calls| - 1], tenant, w, account)
  }

  /** The payment's bank and tax accounts are others. */
  ghost predicate PaymentSpares(payments: seq<Payment>, id: nat, account: nat) {
    id < |payments| ==> payments[id].account != account && payments[id].whtAccount != Some(account)
  }

  /** A call uses the account as control account at most; one that is no approval puts nothing on it. */
  ghost predicate OnlyControl(s: AssetBooks, c: Call, tenant: nat, w: Window, account: nat) {
    match c
    case ApproveInvoice(stock, _, invoices, _, id, _) =>
      id < |invoices| ==> Invoices.OtherAccounts(stock, invoices[id], account)
    case ApprovePayment(desk, _, id, _) => PaymentSpares(desk.payments, id, account)
    case ApproveRequest(desk, _, r, _) =>
      r < |desk.requests| ==> PaymentSpares(desk.payments, desk.requests[r].entity, account)
    case _ => Share(s, c, tenant, w, account) == 0
  }

  ghost predicate AllOnlyControl(calls: seq<Call>, tenant: nat, w: Window, account: nat) {
    calls != [] ==>
      var init := calls[..|calls| - 1];
      AllOnlyControl(init, tenant, w, account) && OnlyControl(RunCalls(init), calls[|calls| - 1], tenant, w, account)
  }

  lemma PurePayment(d: Payments.Desk, owner: nat, id: nat, now: int, tenant: nat, w: Window, account: nat)
    requires PaymentSpares(d.payments, id, account)
    ensures PaymentShare(d, owner, id, now, tenant, w, account) == PaymentControl(d, owner, id, now, tenant, w, account)
  {
    hide Round, Payments.Converted, CreateError, Posted, Within, Payments.EntryLines, Payments.Allocated;
  }

  lemma PureInvoice(o: Invoices.Office, owner: nat, id: nat, now: int, tenant: nat, w: Window, account: nat)
    requires id < |o.invoices| ==> Invoices.OtherAccounts(o.stock, o.invoices[id], account)
    ensures InvoiceShare(o, owner, id, now, tenant, w, account) == InvoiceControl(o, owner, id, now, tenant, w, account)
  {
    hide Within, Invoices.Built, Invoices.Cents, CreateError, Posted;
    if Invoices.ApprovedOffice(o, owner, id, now).Ok? {
      Invoices.OthersStay(o.stock, o.invoices[id], account, |o.invoices[id].lines|);
    }
  }

  lemma PureCall(s: AssetBooks, c: Call, tenant: nat, w: Window, account: nat)
    requires OnlyControl(s, c, tenant, w, account)
    ensures Share(s, c, tenant, w, account) == ControlShare(s, c, tenant, w, account)
  {
    hide InvoiceShare, InvoiceControl, PaymentShare, PaymentControl, PaymentSpares, Invoices.OtherAccounts;
    match c
    case ApproveInvoice(stock, contacts, invoices, owner, id, now) =>
      PureInvoice(Invoices.Office(s.books, stock, contacts, invoices), owner, id, now, tenant, w, account);
    case ApprovePayment(desk, owner, id, now) =>
      PurePayment(desk.(books := s.books), owner, id, now, tenant, w, account);
    case ApproveRequest(desk, owner, r, now) =>
      if Payments.RequestError(desk, owner, r).None? && desk.requests[r].ty == PaymentEntity {
        var decided := Payments.Decided(desk.(books := s.books), r, Accepted);
        PurePayment(decided, owner, desk.requests[r].entity, now, tenant, w, account);
      }
    case _ =>
  }

  lemma {:induction false} PureShares(calls: seq<Call>, tenant: nat, w: Window, account: nat)
    requires AllOnlyControl(calls, tenant, w, account)
    ensures Shares(calls, tenant, w, account) == ControlShares(calls, tenant, w, account)
  {
    hide Share, ControlShare, OnlyControl, RunCalls;
    if calls != [] {
      var init := calls[..|calls| - 1];
      PureShares(init, tenant, w, account);
      PureCall(RunCalls(init), calls[|calls| - 1], tenant, w, account);
    }
  }

  /** In any window, an account that a run used as control account only holds the converted totals of the invoices
      approved against it less those of the payments posted against it, each rounded once: receivables are debited by
      sales invoices and debit notes and credited by incoming payments, payables the other way round. */
  lemma {:induction false} ControlBalance(calls: seq<Call>, tenant: nat, w: Window, account: nat)
    requires AllOnlyControl(calls, tenant, w, account)
    ensures var b := RunCalls(calls).books;
            AccountNet(b.entries, b.lines, tenant, w, account) == ControlShares(calls, tenant, w, account)
  {
    hide RunCalls, Shares, ControlShares, AllOnlyControl;
    BalanceOfServices(calls, tenant, w, account);
    PureShares(calls, tenant, w, account);
  }
}
