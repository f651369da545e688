/** Runs of all the services that post: whatever documents they find, a call amounts to a few ledger events, so
    what holds of every ledger run holds of every run of the services. */
module ServiceRuns {
  import opened Schema
  import opened JournalEntries
  import opened GeneralLedger
  import opened LedgerBooks
  import opened LedgerRuns
  import opened FixedAssets
  import opened AssetRegister
  import ChartOfAccounts
  import Invoices
  import Payments
  import Payroll
  import Eosb

  /** A call and the documents it finds: they may be any. */
  datatype Call =
    | Direct(event: Event)
    | ApproveInvoice(stock: Stock, contacts: seq<Contact>, invoices: seq<Invoice>, tenant: nat, id: nat, now: int)
    | ApprovePayment(desk: Payments.Desk, tenant: nat, id: nat, now: int)
    | ApproveRequest(desk: Payments.Desk, tenant: nat, id: nat, now: int)
    | ApprovePayroll(runs: seq<Option<PayrollRun>>, tenant: nat, id: nat, now: int)
    | BookAccrual(profiles: seq<Profile>, tenant: nat, now: int)

  /** The ledger after a call on documents; the service's own function says what it does to the books. */
  function BooksAfter(b: Books, c: Call): Books
    requires !c.Direct?
  {
    match c
    case ApproveInvoice(stock, contacts, invoices, tenant, id, now) =>
      var r := Invoices.ApprovedOffice(Invoices.Office(b, stock, contacts, invoices), tenant, id, now);
      if r.Ok? then r.value.books else b
    case ApprovePayment(desk, tenant, id, now) =>
      var r := Payments.Approval(desk.(books := b), tenant, id, now);
      if r.Ok? then r.value.books else b
    case ApproveRequest(desk, tenant, id, now) =>
      if Payments.RequestError(desk, tenant, id).Some? then b
      else Payments.RequestApproved(desk.(books := b), tenant, id, now).books
    case ApprovePayroll(runs, tenant, id, now) =>
      if Payroll.ApproveError(runs, tenant, id).Some? then b
      else Payroll.RunPosted(b, runs[id].value, tenant, now)
    case BookAccrual(profiles, tenant, now) => Eosb.Accrued(b, profiles, tenant, now)
  }

  function After(s: AssetBooks, c: Call): AssetBooks {
    if c.Direct? then Next(s, c.event) else s.(books := BooksAfter(s.books, c))
  }

  function RunCalls(calls: seq<Call>): AssetBooks {
    if calls == [] then Run([]) else After(RunCalls(calls[..|calls| - 1]), calls[|calls| - 1])
  }

  // ---- the ledger events of a call ----

  function PaymentPost(d: Payments.Desk, tenant: nat, id: nat, now: int): seq<Event> {
    if Payments.Approval(d, tenant, id, now).Err? then []
    else
      var p := d.payments[id];
      var control := Payments.ControlAccount(p, d.contacts[p.contact]).value;
      [Post(tenant, p.date, Payments.EntryLines(p, control), now)]
  }

  /** Accounts opened on the way and the entry posted, if any. */
  function Steps(b: Books, c: Call): seq<Event> {
    match c
    case Direct(event) => [event]
    case ApproveInvoice(stock, contacts, invoices, tenant, id, now) =>
      if Invoices.ApprovedOffice(Invoices.Office(b, stock, contacts, invoices), tenant, id, now).Err? then []
      else
        var inv := invoices[id];
        var control := Invoices.ControlAccount(inv, contacts[inv.contact]).value;
        [Post(tenant, inv.date, Invoices.Built(stock, inv, control, |inv.lines|).value.ls, now)]
    case ApprovePayment(desk, tenant, id, now) => PaymentPost(desk.(books := b), tenant, id, now)
    case ApproveRequest(desk, tenant, id, now) =>
      if Payments.RequestError(desk, tenant, id).Some? || desk.requests[id].ty != PaymentEntity then []
      else PaymentPost(Payments.Decided(desk.(books := b), id, Accepted), tenant, desk.requests[id].entity, now)
    case ApprovePayroll(runs, tenant, id, now) =>
      if Payroll.ApproveError(runs, tenant, id).Some? then []
      else
        var chart := Payroll.PayrollChart(b.accounts, tenant);
        [OpenAccounts(chart[|b.accounts|..]), Post(tenant, now, Payroll.EntryLines(chart, runs[id].value, tenant), now)]
    case BookAccrual(profiles, tenant, now) =>
      [OpenAccounts(Eosb.AccrualChart(b.accounts, tenant)[|b.accounts|..]),
       Post(tenant, now, Eosb.AccrualEntry(b.accounts, profiles, tenant, now), now)]
  }

  /** The ledger events of a run of calls. */
  function Trace(calls: seq<Call>): seq<Event> {
    if calls == [] then []
    else
      var init := calls[..|calls| - 1];
      Trace(init) + Steps(RunCalls(init).books, calls[|calls| - 1])
  }

  function Play(s: AssetBooks, events: seq<Event>): AssetBooks {
    if events == [] then s else Next(Play(s, events[..|events| - 1]), events[|events| - 1])
  }

  lemma {:induction false} RunMore(events: seq<Event>, more: seq<Event>)
    ensures Run(events + more) == Play(Run(events), more)
  {
    hide Next;
    if more == [] {
      assert events + more == events;
    } else {
      RunMore(events, more[..|more| - 1]);
      assert (events + more)[..|events + more| - 1] == events + more[..|more| - 1];
    }
  }

  lemma {:induction false} PlayFew(s: AssetBooks, e: Event, f: Event)
    ensures Play(s, []) == s && Play(s, [e]) == Next(s, e) && Play(s, [e, f]) == Next(Next(s, e), f)
  {
    hide Next;
    assert [e][..0] == [] && [e, f][..1] == [e];
  }

  /** Accounts are only ever added. */
  lemma ChartsGrow(accounts: seq<Account>, tenant: nat)
    ensures accounts <= Payroll.PayrollChart(accounts, tenant)
    ensures accounts <= Eosb.AccrualChart(accounts, tenant)
  {
    hide ChartOfAccounts.FindCode;
  }

  lemma {:induction false} PaymentSteps(s: AssetBooks, d: Payments.Desk, tenant: nat, id: nat, now: int)
    requires d.books == s.books
    ensures var r := Payments.Approval(d, tenant, id, now);
            Play(s, PaymentPost(d, tenant, id, now)) == if r.Ok? then s.(books := r.value.books) else s
  {
    hide Play, CreateError, Posted, Payments.EntryLines, Payments.Allocated;
    var steps := PaymentPost(d, tenant, id, now);
    if steps == [] { PlayFew(s, OpenAccounts([]), OpenAccounts([])); } else { PlayFew(s, steps[0], steps[0]); }
  }

  lemma {:induction false} InvoiceSteps(s: AssetBooks, c: Call)
    requires c.ApproveInvoice?
    ensures Play(s, Steps(s.books, c)) == After(s, c)
  {
    hide Play, CreateError, Posted, Invoices.Built;
    var steps := Steps(s.books, c);
    if steps == [] { PlayFew(s, OpenAccounts([]), OpenAccounts([])); } else { PlayFew(s, steps[0], steps[0]); }
  }

  lemma {:induction false} PayrollSteps(s: AssetBooks, run: PayrollRun, tenant: nat, now: int)
    ensures var chart := Payroll.PayrollChart(s.books.accounts, tenant);
            s.(books := Payroll.RunPosted(s.books, run, tenant, now))
            == Play(s, [OpenAccounts(chart[|s.books.accounts|..]),
                        Post(tenant, now, Payroll.EntryLines(chart, run, tenant), now)])
  {
    hide Play, CreateError, Posted, Payroll.PayrollChart, Payroll.EntryLines;
    var chart := Payroll.PayrollChart(s.books.accounts, tenant);
    ChartsGrow(s.books.accounts, tenant);
    assert s.books.accounts + chart[|s.books.accounts|..] == chart;
    PlayFew(s, OpenAccounts(chart[|s.books.accounts|..]),
            Post(tenant, now, Payroll.EntryLines(chart, run, tenant), now));
  }

  lemma {:induction false} AccrualSteps(s: AssetBooks, profiles: seq<Profile>, tenant: nat, now: int)
    ensures var chart := Eosb.AccrualChart(s.books.accounts, tenant);
            s.(books := Eosb.Accrued(s.books, profiles, tenant, now))
            == Play(s, [OpenAccounts(chart[|s.books.accounts|..]),
                        Post(tenant, now, Eosb.AccrualEntry(s.books.accounts, profiles, tenant, now), now)])
  {
    hide Play, CreateError, Posted, Eosb.AccrualChart, Eosb.AccrualEntry, ChartOfAccounts.FindCode;
    var chart := Eosb.AccrualChart(s.books.accounts, tenant);
    ChartsGrow(s.books.accounts, tenant);
    assert s.books.accounts + chart[|s.books.accounts|..] == chart;
    PlayFew(s, OpenAccounts(chart[|s.books.accounts|..]),
            Post(tenant, now, Eosb.AccrualEntry(s.books.accounts, profiles, tenant, now), now));
  }

  /** A call does to the ledger what its events do one after the other. */
  lemma {:induction false} StepsPlay(s: AssetBooks, c: Call)
    ensures Play(s, Steps(s.books, c)) == After(s, c)
  {
    hide Play, Next, Payments.Approval, PaymentPost, Invoices.ApprovedOffice, Invoices.Built, Payroll.RunPosted,
         Payroll.PayrollChart, Payroll.EntryLines, Eosb.Accrued, Eosb.AccrualEntry, Eosb.AccrualChart;
    match c
    case Direct(event) => PlayFew(s, event, event);
    case ApproveInvoice(_, _, _, _, _, _) => InvoiceSteps(s, c);
    case ApprovePayment(desk, tenant, id, now) => PaymentSteps(s, desk.(books := s.books), tenant, id, now);
    case ApproveRequest(desk, tenant, id, now) =>
      PlayFew(s, OpenAccounts([]), OpenAccounts([]));
      if Payments.RequestError(desk, tenant, id).None? && desk.requests[id].ty == PaymentEntity {
        PaymentSteps(s, Payments.Decided(desk.(books := s.books), id, Accepted), tenant, desk.requests[id].entity, now);
      }
    case ApprovePayroll(runs, tenant, id, now) =>
      PlayFew(s, OpenAccounts([]), OpenAccounts([]));
      if Payroll.ApproveError(runs, tenant, id).None? { PayrollSteps(s, runs[id].value, tenant, now); }
    case BookAccrual(profiles, tenant, now) => AccrualSteps(s, profiles, tenant, now);
  }

  /** A run of the services leaves the ledger and the asset register as the run of its ledger events does. */
  lemma {:induction false} CallsAreLedgerRuns(calls: seq<Call>)
    ensures RunCalls(calls) == Run(Trace(calls))
  {
    hide Run, Steps, After, Play;
    if calls != [] {
      var init := calls[..|calls| - 1];
      CallsAreLedgerRuns(init);
      StepsPlay(RunCalls(init), calls[|calls| - 1]);
      RunMore(Trace(init), Steps(RunCalls(init).books, calls[|calls| - 1]));
    }
  }

  // ---- when balanced requests are stored balanced ----

  /** Tax withheld from a payment and the rest of it are rounded to what the total is rounded to. */
  ghost predicate PlainPayment(d: Payments.Desk, id: nat) {
    id < |d.payments| ==> Payments.RoundsTogether(d.payments[id])
  }

  ghost predicate Plain(c: Call) {
    match c
    case Direct(event) => event.Post? ==> KeepsBalance(event.ls)
    case ApproveInvoice(_, _, invoices, _, id, _) => id < |invoices| ==> Invoices.RoundsTogether(invoices[id])
    case ApprovePayment(desk, _, id, _) => PlainPayment(desk, id)
    case ApproveRequest(desk, _, id, _) => id < |desk.requests| ==> PlainPayment(desk, desk.requests[id].entity)
    case ApprovePayroll(_, _, _, _) => true
    case BookAccrual(_, _, _) => true
  }

  lemma PaymentPlain(d: Payments.Desk, tenant: nat, id: nat, now: int)
    requires PlainPayment(d, id)
    ensures ExactPosts(PaymentPost(d, tenant, id, now))
  {
    hide Payments.EntryLines, KeepsBalance, CreateError, Posted, Payments.Allocated, Payments.RoundsTogether;
    if Payments.Approval(d, tenant, id, now).Ok? {
      var p := d.payments[id];
      Payments.EntryStoredBalanced(p, Payments.ControlAccount(p, d.contacts[p.contact]).value);
    }
  }

  lemma StepsExact(b: Books, c: Call)
    requires Plain(c)
    ensures ExactPosts(Steps(b, c))
  {
    hide KeepsBalance, CreateError, Posted, PaymentPost, Payments.RoundsTogether, Invoices.RoundsTogether,
         Invoices.Built, Payroll.PayrollChart, Eosb.AccrualChart, Eosb.AccrualEntry, Payroll.EntryLines,
         Payments.Approval;
    match c
    case Direct(_) =>
    case ApproveInvoice(stock, contacts, invoices, tenant, id, now) =>
      if Invoices.ApprovedOffice(Invoices.Office(b, stock, contacts, invoices), tenant, id, now).Ok? {
        var inv := invoices[id];
        Invoices.EntryStoredBalanced(stock, inv, Invoices.ControlAccount(inv, contacts[inv.contact]).value);
      }
    case ApprovePayment(desk, tenant, id, now) => PaymentPlain(desk.(books := b), tenant, id, now);
    case ApproveRequest(desk, tenant, id, now) =>
      if Payments.RequestError(desk, tenant, id).None? && desk.requests[id].ty == PaymentEntity {
        PaymentPlain(Payments.Decided(desk.(books := b), id, Accepted), tenant, desk.requests[id].entity, now);
      }
    case ApprovePayroll(runs, tenant, id, _) =>
      if Payroll.ApproveError(runs, tenant, id).None? {
        PayrollExact(Payroll.PayrollChart(b.accounts, tenant), runs[id].value, tenant);
      }
    case BookAccrual(profiles, tenant, now) => AccrualExact(b.accounts, profiles, tenant, now);
  }

  lemma {:induction false} PayrollExact(chart: seq<Account>, run: PayrollRun, tenant: nat)
    requires forall code :: code in ["5110", "2140", "2150", "2130"] ==>
               ChartOfAccounts.FindCode(chart, tenant, code).Some?
    ensures KeepsBalance(Payroll.EntryLines(chart, run, tenant))
  {
    hide KeepsBalance, ChartOfAccounts.FindCode;
    WholeLinesStoredExactly(Payroll.EntryLines(chart, run, tenant));
  }

  lemma AccrualExact(accounts: seq<Account>, profiles: seq<Profile>, tenant: nat, now: int)
    ensures KeepsBalance(Eosb.AccrualEntry(accounts, profiles, tenant, now))
  {
    hide KeepsBalance, Eosb.TotalAccrual, Eosb.AccrualChart;
    TwoLinesKeepBalance(Eosb.AccrualEntry(accounts, profiles, tenant, now));
  }

  lemma {:induction false} TraceExact(calls: seq<Call>)
    requires forall i :: 0 <= i < |calls| ==> Plain(calls[i])
    ensures ExactPosts(Trace(calls))
  {
    hide Steps, Plain, KeepsBalance;
    if calls != [] {
      var init := calls[..|calls| - 1];
      TraceExact(init);
      StepsExact(RunCalls(init).books, calls[|calls| - 1]);
    }
  }

  // ---- whose accounts assets are bought on ----

  ghost predicate OwnBuys(calls: seq<Call>) {
    calls != [] ==>
      var init, c := calls[..|calls| - 1], calls[|calls| - 1];
      OwnBuys(init) && (c.Direct? ==> OwnBuy(RunCalls(init).books.accounts, c.event))
  }

  lemma {:induction false} StepsOwn(events: seq<Event>, c: Call)
    requires OwnAssetAccounts(events) && (c.Direct? ==> OwnBuy(Run(events).books.accounts, c.event))
    ensures OwnAssetAccounts(events + Steps(Run(events).books, c))
  {
    hide Run, CreateError, Posted, Payments.Approval, Payments.EntryLines, Invoices.Built, Payroll.PayrollChart,
         Eosb.AccrualChart, Eosb.AccrualEntry, Payroll.EntryLines, OwnAssetAccounts, Own;
    var steps := Steps(Run(events).books, c);
    if |steps| == 0 { assert events + steps == events; }
    if |steps| == 1 {
      OwnAppend(events, steps[0]);
      assert steps == [steps[0]];
    }
    if |steps| == 2 {
      OwnAppend(events, steps[0]);
      OwnAppend(events + [steps[0]], steps[1]);
      assert events + [steps[0]] + [steps[1]] == events + steps;
    }
  }

  lemma {:induction false} OwnAppend(events: seq<Event>, e: Event)
    requires OwnAssetAccounts(events) && OwnBuy(Run(events).books.accounts, e)
    ensures OwnAssetAccounts(events + [e])
  {
    hide Run, OwnBuy;
    assert (events + [e])[..|events|] == events;
  }

  lemma {:induction false} TraceOwn(calls: seq<Call>)
    requires OwnBuys(calls)
    ensures OwnAssetAccounts(Trace(calls))
  {
    hide Run, Steps, OwnBuy, RunCalls;
    if calls != [] {
      var init := calls[..|calls| - 1];
      TraceOwn(init);
      CallsAreLedgerRuns(init);
      StepsOwn(Trace(init), calls[|calls| - 1]);
    }
  }

  // ---- what holds after any run of the services ----

  /** In every window the trial balance is off by at most the rounding slack of the entries it covers, and it
      balances as long as balanced direct requests are stored balanced, the converted lines of an invoice round
      together, and so does the tax withheld from a payment with the rest. */
  lemma {:induction false} TrialBalanceOfServices(calls: seq<Call>, tenant: nat, w: Window)
    requires OwnBuys(calls)
    ensures var b := RunCalls(calls).books;
            var tb := GetTrialBalance(b, tenant, w);
            && -SumSlack(b, tenant, w, |b.entries|) <= tb.debit - tb.credit <= SumSlack(b, tenant, w, |b.entries|)
            && ((forall i :: 0 <= i < |calls| ==> Plain(calls[i])) ==> tb.isBalanced)
  {
    hide Trace, RunCalls, Run, GetTrialBalance, SumSlack, Plain, ExactPosts;
    CallsAreLedgerRuns(calls);
    TraceOwn(calls);
    TrialBalanceOfRun(Trace(calls), tenant, w);
    if forall i :: 0 <= i < |calls| ==> Plain(calls[i]) { TraceExact(calls); }
  }

  /** No two entries of a tenant get the same number, and none that a posting would get is taken, whichever services
      posted before. */
  lemma {:induction false} NumbersUniqueInServices(calls: seq<Call>, tenant: nat, date: int)
    ensures var entries := RunCalls(calls).books.entries;
            UniqueNumbers(entries) && !NumberTaken(entries, tenant, NextNumber("JE", entries, tenant, date))
  {
    hide Trace, RunCalls, Run, UniqueNumbers, NumberTaken, NextNumber;
    CallsAreLedgerRuns(calls);
    NumbersUniqueInRun(Trace(calls), tenant, date);
  }
}
