/** Payments, their allocations to invoices and their approval requests (payments.service.ts and
    approvals.service.ts). */
module Payments {
  import opened Schema
  import opened Money
  import opened JournalEntries
  import ChartOfAccounts
  import AccountingPeriods
  import GeneralLedger
  import LedgerBooks

  /** The tables payments work on. */
  datatype Desk = Desk(books: Books, contacts: seq<Contact>, invoices: seq<Invoice>, payments: seq<Payment>,
                       requests: seq<ApprovalRequest>)

  function DeskOf(db: Database): Desk
    reads db
  {
    Desk(db.Ledger(), db.contacts, db.invoices, db.payments, db.requests)
  }

  // ---- creation ----

  datatype AllocationRequest = AllocationRequest(invoice: nat, amount: real)

  datatype PaymentRequest = PaymentRequest(ty: PaymentType, contact: nat, date: int, amount: real, account: nat,
                                           rate: Option<real>, whtAmount: real, whtAccount: Option<nat>,
                                           allocations: seq<AllocationRequest>)

  const APPROVAL_LIMIT := 1000000.0  // 10,000 in cents

  function Requested(ls: seq<AllocationRequest>): real {
    if ls == [] then 0.0 else Requested(ls[..|ls| - 1]) + ls[|ls| - 1].amount
  }

  function StoredAllocations(ls: seq<AllocationRequest>): (rows: seq<Allocation>)
    ensures |rows| == |ls|
  {
    if ls == [] then []
    else StoredAllocations(ls[..|ls| - 1]) + [Allocation(ls[|ls| - 1].invoice, Round(ls[|ls| - 1].amount))]
  }

  function StoredPayment(tenant: nat, dto: PaymentRequest): Payment {
    Payment(tenant, dto.contact, dto.ty, if dto.amount > APPROVAL_LIMIT then PendingApproval else Draft, dto.date,
            Round(dto.amount), dto.account,
            if dto.rate.None? || dto.rate.value == 0.0 then None else Some(Round(dto.rate.value * 1000000.0)),
            Round(dto.whtAmount), dto.whtAccount, StoredAllocations(dto.allocations), None)
  }

  function Created(d: Desk, tenant: nat, dto: PaymentRequest): Desk {
    var p := StoredPayment(tenant, dto);
    d.(payments := d.payments + [p],
       requests := d.requests
                   + if p.status == PendingApproval
                     then [ApprovalRequest(tenant, PaymentEntity, |d.payments|, Pending)] else [])
  }

  method Create(db: Database, tenant: nat, dto: PaymentRequest) returns (r: Result<nat>)
    modifies db`payments, db`requests
    ensures if Requested(dto.allocations) > dto.amount && dto.allocations != []
            then r == Err(OverAllocated) && DeskOf(db) == old(DeskOf(db))
            else r == Ok(|old(db.payments)|) && DeskOf(db) == Created(old(DeskOf(db)), tenant, dto)
  {
    if |dto.allocations| > 0 {
      var allocatedTotal := 0.0;
      for i := 0 to |dto.allocations|
        invariant allocatedTotal == Requested(dto.allocations[..i])
      {
        assert dto.allocations[..i + 1][..i] == dto.allocations[..i];
        allocatedTotal := allocatedTotal + dto.allocations[i].amount;
      }
      assert dto.allocations[..|dto.allocations|] == dto.allocations;
      if allocatedTotal > dto.amount {
        return Err(OverAllocated);
      }
    }
    var payment := StoredPayment(tenant, dto);
    var id := |db.payments|;
    if dto.amount > APPROVAL_LIMIT {
      db.requests := db.requests + [ApprovalRequest(tenant, PaymentEntity, id, Pending)];
    }
    db.payments := db.payments + [payment];
    r := Ok(id);
  }

  // ---- approval ----

  function ControlAccount(p: Payment, contact: Contact): Option<nat> {
    if p.ty == Incoming then contact.receivable else contact.payable
  }

  function ApproveError(d: Desk, tenant: nat, id: nat): (e: Option<Error>)
    ensures e.None? ==> id < |d.payments| && d.payments[id].contact < |d.contacts|
                        && ControlAccount(d.payments[id], d.contacts[d.payments[id].contact]).Some?
  {
    if id >= |d.payments| || d.payments[id].tenant != tenant || d.payments[id].contact >= |d.contacts|
    then Some(NoPayment)
    else if d.payments[id].status !in [Draft, PendingApproval] then Some(NotApprovable)
    else if ControlAccount(d.payments[id], d.contacts[d.payments[id].contact]).None? then Some(NoControlAccount)
    else None
  }

  /** An invoice after an allocation, computed from the invoice as it was when the payment was read. */
  function Settled(inv: Invoice, amount: int): Invoice {
    var paid := inv.amountPaid + amount;
    inv.(amountPaid := paid, status := if paid >= inv.total then Paid else inv.status)
  }

  /** The invoices after the first n allocations; each write starts from the snapshot read before. */
  function Allocated(invoices: seq<Invoice>, ls: seq<Allocation>, n: nat): (r: Result<seq<Invoice>>)
    requires n <= |ls|
    ensures r.Ok? ==> |r.value| == |invoices|
  {
    if n == 0 then Ok(invoices)
    else
      var l := ls[n - 1];
      match Allocated(invoices, ls, n - 1)
      case Err(e) => Err(e)
      case Ok(now) =>
        if l.invoice >= |invoices| || invoices[l.invoice].status !in [Approved, Paid] then Err(InvoiceNotApproved)
        else Ok(now[l.invoice := Settled(invoices[l.invoice], l.amount)])
  }

  function Base(p: Payment, amount: int): real {
    amount as real * if p.rate.Some? then p.rate.value as real / 1000000.0 else 1.0
  }

  /** Tax is withheld when there is any, in base currency, and an account for it. */
  predicate Withholds(p: Payment) {
    Base(p, p.whtAmount) > 0.0 && p.whtAccount.Some?
  }

  /** A line on the bank's side of the payment: a debit when money comes in. */
  function BankSide(p: Payment, account: nat, amount: real): LineInput {
    if p.ty == Incoming then LineInput(account, amount, 0.0) else LineInput(account, 0.0, amount)
  }

  function ControlSide(p: Payment, account: nat, amount: real): LineInput {
    if p.ty == Incoming then LineInput(account, 0.0, amount) else LineInput(account, amount, 0.0)
  }

  /** Bank against control account; withheld tax takes its share of the bank line. */
  function EntryLines(p: Payment, control: nat): seq<LineInput> {
    var total, wht := Base(p, p.amount), Base(p, p.whtAmount);
    if Withholds(p)
    then [BankSide(p, p.account, total - wht), ControlSide(p, control, total), BankSide(p, p.whtAccount.value, wht)]
    else [BankSide(p, p.account, total), ControlSide(p, control, total)]
  }

  function Approval(d: Desk, tenant: nat, id: nat, now: int): Result<Desk> {
    var error := ApproveError(d, tenant, id);
    if error.Some? then Err(error.value)
    else
      var p := d.payments[id];
      match Allocated(d.invoices, p.allocations, |p.allocations|)
      case Err(e) => Err(e)
      case Ok(invoices) =>
        var ls := EntryLines(p, ControlAccount(p, d.contacts[p.contact]).value);
        var refused := CreateError(d.books, tenant, p.date, ls);
        if refused.Some? then Err(refused.value)
        else Ok(d.(books := Posted(d.books, tenant, p.date, ls, now), invoices := invoices,
                   payments := d.payments[id := p.(status := Approved, entry := Some(|d.books.entries|))]))
  }

  /** The approval transaction; a refusal at any point leaves nothing behind. */
  method Approve(db: Database, tenant: nat, id: nat, now: int) returns (r: Result<()>)
    modifies db`entries, db`lines, db`invoices, db`payments
    ensures match Approval(old(DeskOf(db)), tenant, id, now)
            case Err(e) => r == Err(e) && DeskOf(db) == old(DeskOf(db))
            case Ok(d) => r == Ok(()) && DeskOf(db) == d
  {
    hide CreateError, Posted, ApproveError;
    ghost var before := DeskOf(db);
    var error := ApproveError(DeskOf(db), tenant, id);
    if error.Some? {
      return Err(error.value);
    }
    var payment := db.payments[id];
    var isIncoming := payment.ty == Incoming;
    var contact := db.contacts[payment.contact];
    var control := if isIncoming then contact.receivable.value else contact.payable.value;
    var snapshot := db.invoices;
    for i := 0 to |payment.allocations|
      invariant Allocated(snapshot, payment.allocations, i) == Ok(db.invoices)
      invariant DeskOf(db) == before.(invoices := db.invoices)
    {
      var allocation := payment.allocations[i];
      if allocation.invoice >= |snapshot| || snapshot[allocation.invoice].status !in [Approved, Paid] {
        AllocationFails(snapshot, payment.allocations, i + 1);
        db.invoices := snapshot;
        return Err(InvoiceNotApproved);
      }
      db.invoices := db.invoices[allocation.invoice := Settled(snapshot[allocation.invoice], allocation.amount)];
    }
    var jeLines := BuildLines(payment, control);
    var entry := JournalEntries.Create(db, tenant, payment.date, jeLines, now);
    if entry.Err? {
      db.invoices := snapshot;
      return Err(entry.error);
    }
    db.payments := db.payments[id := payment.(status := Approved, entry := Some(entry.value))];
    r := Ok(());
  }

  /** `jeLines`: two lines pushed, then the first rewritten and a third pushed when tax is withheld. */
  method BuildLines(p: Payment, control: nat) returns (jeLines: seq<LineInput>)
    ensures jeLines == EntryLines(p, control)
  {
    hide Base;
    var totalBase, whtAmountBase := Base(p, p.amount), Base(p, p.whtAmount);
    var isIncoming := p.ty == Incoming;
    jeLines := [LineInput(p.account, if isIncoming then totalBase else 0.0, if isIncoming then 0.0 else totalBase)];
    jeLines := jeLines
      + [LineInput(control, if isIncoming then 0.0 else totalBase, if isIncoming then totalBase else 0.0)];
    if whtAmountBase > 0.0 && p.whtAccount.Some? {
      if !isIncoming {
        jeLines := jeLines[0 := jeLines[0].(credit := jeLines[0].credit - whtAmountBase)];
        jeLines := jeLines + [LineInput(p.whtAccount.value, 0.0, whtAmountBase)];
      } else {
        jeLines := jeLines[0 := jeLines[0].(debit := jeLines[0].debit - whtAmountBase)];
        jeLines := jeLines + [LineInput(p.whtAccount.value, whtAmountBase, 0.0)];
      }
    }
  }

  lemma {:induction false} AllocationFails(invoices: seq<Invoice>, ls: seq<Allocation>, n: nat)
    requires n <= |ls| && Allocated(invoices, ls, n).Err?
    ensures Allocated(invoices, ls, |ls|) == Allocated(invoices, ls, n)
    decreases |ls| - n
  {
    if n < |ls| { AllocationFails(invoices, ls, n + 1); }
  }

  // ---- approval requests ----

  function RequestError(d: Desk, tenant: nat, r: nat): (e: Option<Error>)
    ensures e.None? ==> r < |d.requests|
  {
    if r >= |d.requests| || d.requests[r].tenant != tenant then Some(NoRequest)
    else if d.requests[r].status != Pending then Some(AlreadyDecided)
    else None
  }

  function Decided(d: Desk, r: nat, status: Decision): Desk
    requires r < |d.requests|
  {
    d.(requests := d.requests[r := d.requests[r].(status := status)])
  }

  /** The decision stands even if the approval it triggers is refused: the event's handler fails alone. */
  function RequestApproved(d: Desk, tenant: nat, r: nat, now: int): Desk
    requires RequestError(d, tenant, r) == None
  {
    var decided := Decided(d, r, Accepted);
    if d.requests[r].ty != PaymentEntity then decided
    else
      var approval := Approval(decided, tenant, d.requests[r].entity, now);
      if approval.Ok? then approval.value else decided
  }

  method ApproveRequest(db: Database, tenant: nat, r: nat, now: int) returns (res: Result<()>)
    modifies db`entries, db`lines, db`invoices, db`payments, db`requests
    ensures var before := old(DeskOf(db));
            match RequestError(before, tenant, r)
            case Some(e) => res == Err(e) && DeskOf(db) == before
            case None => res == Ok(()) && DeskOf(db) == RequestApproved(before, tenant, r, now)
  {
    hide Approval;
    if r >= |db.requests| || db.requests[r].tenant != tenant {
      return Err(NoRequest);
    }
    var request := db.requests[r];
    if request.status != Pending {
      return Err(AlreadyDecided);
    }
    db.requests := db.requests[r := request.(status := Accepted)];
    if request.ty == PaymentEntity {
      var ignored := Approve(db, tenant, request.entity, now);
    }
    res := Ok(());
  }

  /** The rejection handler puts the payment back to draft whatever its status. */
  function RequestRejected(d: Desk, r: nat): Desk
    requires r < |d.requests|
  {
    var decided, id := Decided(d, r, Rejected), d.requests[r].entity;
    if d.requests[r].ty != PaymentEntity || id >= |d.payments| then decided
    else decided.(payments := d.payments[id := d.payments[id].(status := Draft)])
  }

  method RejectRequest(db: Database, tenant: nat, r: nat) returns (res: Result<()>)
    modifies db`payments, db`requests
    ensures var before := old(DeskOf(db));
            match RequestError(before, tenant, r)
            case Some(e) => res == Err(e) && DeskOf(db) == before
            case None => res == Ok(()) && DeskOf(db) == RequestRejected(before, r)
  {
    if r >= |db.requests| || db.requests[r].tenant != tenant {
      return Err(NoRequest);
    }
    var request := db.requests[r];
    if request.status != Pending {
      return Err(AlreadyDecided);
    }
    db.requests := db.requests[r := request.(status := Rejected)];
    if request.ty == PaymentEntity && request.entity < |db.payments| {
      db.payments := db.payments[request.entity := db.payments[request.entity].(status := Draft)];
    }
    res := Ok(());
  }

  // ---- the entry of a payment ----

  /** The entry always balances, and is one-sided exactly when no more tax is withheld than is paid. */
  lemma EntryBalances(p: Payment, control: nat)
    requires 0.0 <= Base(p, p.amount)
    ensures var ls := EntryLines(p, control);
            && Debits(ls) == Credits(ls) && 2 <= |ls| <= 3
            && (OneSided(ls) <==> Withholds(p) ==> Base(p, p.whtAmount) <= Base(p, p.amount))
  {
    hide Base, Debits, Credits;
    var ls := EntryLines(p, control);
    SumsOfNone();
    SumsAppend([], ls[0]);
    SumsAppend([ls[0]], ls[1]);
    assert [] + [ls[0]] == [ls[0]] && [ls[0]] + [ls[1]] == [ls[0], ls[1]];
    if Withholds(p) {
      SumsAppend([ls[0], ls[1]], ls[2]);
      assert ls == [ls[0], ls[1]] + [ls[2]];
      assert ls[0] == BankSide(p, p.account, Base(p, p.amount) - Base(p, p.whtAmount));
    } else {
      assert ls == [ls[0], ls[1]];
    }
  }

  /** The bank gives or takes what is not withheld, the withheld tax goes to its own account, and the control
      account is settled in full, each rounded to cents; any other account stays as it is, and an account in
      two of these roles moves by both. */
  lemma {:induction false} EntryMoves(p: Payment, control: nat, account: nat)
    ensures var total, wht := Base(p, p.amount), if Withholds(p) then Base(p, p.whtAmount) else 0.0;
            var sign := if p.ty == Incoming then 1 else -1;
            LedgerBooks.Moved(EntryLines(p, control), account)
            == (if account == p.account then sign * Round(total - wht) else 0)
               + (if account == control then -sign * Round(total) else 0)
               + (if Withholds(p) && account == p.whtAccount.value then sign * Round(wht) else 0)
  {
    hide Base, Round, LedgerBooks.Moved;
    var ls := EntryLines(p, control);
    RoundWhole(0);
    LedgerBooks.NothingMoved(account);
    LedgerBooks.MovedAppend([], ls[0], account);
    LedgerBooks.MovedAppend([ls[0]], ls[1], account);
    assert [] + [ls[0]] == [ls[0]] && [ls[0]] + [ls[1]] == [ls[0], ls[1]];
    if Withholds(p) {
      LedgerBooks.MovedAppend([ls[0], ls[1]], ls[2], account);
      assert ls == [ls[0], ls[1]] + [ls[2]];
    } else {
      assert ls == [ls[0], ls[1]];
    }
  }

  /** An amount at the payment's rate, which counts millionths. */
  function Converted(p: Payment, amount: int): real {
    if p.rate.None? then amount as real else amount as real * (p.rate.value as real / 1000000.0)
  }

  /** What a payment puts on an account: the bank takes in (or gives out) the converted amount less the tax withheld,
      the tax goes to its own account, and the control account is settled in full. Nothing is withheld without an
      account for it. */
  function Share(p: Payment, control: Option<nat>, account: nat): int {
    var total, wht := Converted(p, p.amount), Converted(p, p.whtAmount);
    var withheld := if p.whtAccount.Some? && wht > 0.0 then wht else 0.0;
    var share := (if account == p.account then Round(total - withheld) else 0)
                 - (if control == Some(account) then Round(total) else 0)
                 + (if withheld > 0.0 && p.whtAccount == Some(account) then Round(withheld) else 0);
    if p.ty == Incoming then share else -share
  }

  lemma {:induction false} ShareIs(p: Payment, control: nat, account: nat)
    ensures LedgerBooks.Moved(EntryLines(p, control), account) == Share(p, Some(control), account)
  {
    hide EntryLines, Round, LedgerBooks.Moved, Base, Converted;
    EntryMoves(p, control, account);
    BaseIs(p, p.amount);
    BaseIs(p, p.whtAmount);
  }

  lemma BaseIs(p: Payment, amount: int)
    ensures Base(p, amount) == Converted(p, amount)
  {
  }

  /** An approved payment is posted against the receivable account of its contact if money comes in and against the
      payable account if it goes out, which the contact then has; every account moves by its share, in exactly the
      windows that cover the payment's date. */
  lemma ApprovalMoves(d: Desk, tenant: nat, id: nat, now: int, reader: nat, w: GeneralLedger.Window, account: nat)
    requires LedgerBooks.Linked(d.books) && Approval(d, tenant, id, now).Ok?
    ensures id < |d.payments| && d.payments[id].contact < |d.contacts|
    ensures var p := d.payments[id];
            var contact := d.contacts[p.contact];
            var field := if p.ty == Incoming then contact.receivable else contact.payable;
            var b, t := d.books, Approval(d, tenant, id, now).value.books;
            && field.Some?
            && GeneralLedger.AccountNet(t.entries, t.lines, reader, w, account)
               == GeneralLedger.AccountNet(b.entries, b.lines, reader, w, account)
                  + if reader == tenant && GeneralLedger.Within(w, p.date) then Share(p, field, account) else 0
  {
    hide CreateError, Posted, Allocated, EntryLines, Round, LedgerBooks.Linked, LedgerBooks.Moved, GeneralLedger.Within,
         GeneralLedger.AccountNet, Share;
    var p := d.payments[id];
    var control := ControlAccount(p, d.contacts[p.contact]).value;
    ShareIs(p, control, account);
    LedgerBooks.PostMoves(d.books, tenant, p.date, EntryLines(p, control), now, reader, w, account);
  }

  /** An approval is refused for want of a control account exactly when the payment is there to be approved and its
      contact lacks the account of its side. */
  lemma NoControlAccountExactly(d: Desk, tenant: nat, id: nat, now: int)
    ensures Approval(d, tenant, id, now) == Err(NoControlAccount)
            <==> && id < |d.payments| && d.payments[id].tenant == tenant && d.payments[id].contact < |d.contacts|
                 && d.payments[id].status in [Draft, PendingApproval]
                 && (if d.payments[id].ty == Incoming then d.contacts[d.payments[id].contact].receivable.None?
                     else d.contacts[d.payments[id].contact].payable.None?)
  {
    hide Posted, EntryLines, CreateError, Allocated;
    if ApproveError(d, tenant, id) == None {
      var p := d.payments[id];
      AllocationErrors(d.invoices, p.allocations, |p.allocations|);
      PostingErrors(d.books, tenant, p.date, EntryLines(p, ControlAccount(p, d.contacts[p.contact]).value));
    }
  }

  lemma {:induction false} AllocationErrors(invoices: seq<Invoice>, ls: seq<Allocation>, n: nat)
    requires n <= |ls|
    ensures Allocated(invoices, ls, n) != Err(NoControlAccount)
  {
    hide Settled;
    if n > 0 { AllocationErrors(invoices, ls, n - 1); }
  }

  /** No tax is withheld, or it and the rest, in base currency, are rounded to what the total is rounded to. A
      payment without a rate always qualifies. */
  predicate RoundsTogether(p: Payment) {
    var total, wht := Base(p, p.amount), Base(p, p.whtAmount);
    Withholds(p) && wht <= total ==> AddUp(total - wht, wht)
  }

  /** The entry, if balanced as submitted, is stored balanced exactly then. */
  lemma EntryStoredBalanced(p: Payment, control: nat)
    ensures KeepsBalance(EntryLines(p, control)) <==> RoundsTogether(p)
  {
    hide Round, Base, AddUp, Debits, Credits;
    var ls := EntryLines(p, control);
    var total, wht := Base(p, p.amount), Base(p, p.whtAmount);
    if Withholds(p) {
      RoundWhole(0);
      NothingStored();
      StoredAppend([], ls[0]);
      StoredAppend([ls[0]], ls[1]);
      StoredAppend([ls[0], ls[1]], ls[2]);
      assert [] + [ls[0]] == [ls[0]] && [ls[0]] + [ls[1]] == [ls[0], ls[1]] && ls == [ls[0], ls[1]] + [ls[2]];
      if wht <= total {
        EntryBalances(p, control);
        RoundSum(total - wht, wht);
      } else {
        assert ls[0] == BankSide(p, p.account, total - wht);
      }
    } else {
      TwoLinesKeepBalance(ls);
    }
  }

  lemma PlainRoundsTogether(p: Payment)
    requires p.rate.None? || !Withholds(p)
    ensures RoundsTogether(p)
  {
    if Withholds(p) {
      assert Base(p, p.amount) - Base(p, p.whtAmount) == (p.amount - p.whtAmount) as real;
    }
  }

  /** With a rate and withheld tax it need not be: three cents in base currency, half of them withheld. */
  lemma WithholdingCanOpenACent(tenant: nat, control: nat, now: int)
    ensures var p := Payment(tenant, 0, Incoming, Draft, now, 2, 1, Some(1500000), 1, Some(2), [], None);
            !KeepsBalance(EntryLines(p, control))
  {
    hide AddUp, KeepsBalance, EntryLines;
    var p := Payment(tenant, 0, Incoming, Draft, now, 2, 1, Some(1500000), 1, Some(2), [], None);
    EntryStoredBalanced(p, control);
    assert Base(p, 2) == 3.0 && Base(p, 1) == 1.5;
    HalvesDoNotAddUp();
  }

  lemma HalvesDoNotAddUp()
    ensures !AddUp(1.5, 1.5)
  {
    assert (1.5).Floor == 1;
  }

  // ---- runs ----

  datatype Event =
    | NewInvoice(invoice: Invoice)
    | ApproveInvoice(id: nat)
    | OtherBooks(books: Books)  // whatever else is posted meanwhile
    | Create(tenant: nat, dto: PaymentRequest)
    | Approve(tenant: nat, id: nat, now: int)
    | ApproveRequest(tenant: nat, r: nat, now: int)
    | RejectRequest(tenant: nat, r: nat)

  function Next(d: Desk, e: Event): Desk {
    match e
    case NewInvoice(inv) => d.(invoices := d.invoices + [inv.(status := Draft, amountPaid := 0)])
    case ApproveInvoice(id) =>
      if id < |d.invoices| && d.invoices[id].status in [Draft, PendingApproval]
      then d.(invoices := d.invoices[id := d.invoices[id].(status := Approved)])
      else d
    case OtherBooks(books) => d.(books := books)
    case Create(tenant, dto) =>
      if Requested(dto.allocations) > dto.amount && dto.allocations != [] then d else Created(d, tenant, dto)
    case Approve(tenant, id, now) =>
      var approval := Approval(d, tenant, id, now);
      if approval.Ok? then approval.value else d
    case ApproveRequest(tenant, r, now) =>
      if RequestError(d, tenant, r).Some? then d else RequestApproved(d, tenant, r, now)
    case RejectRequest(tenant, r) =>
      if RequestError(d, tenant, r).Some? then d else RequestRejected(d, r)
  }

  /** Runs start from a desk without documents. */
  function Start(contacts: seq<Contact>): Desk {
    Desk(Books([], [], [], []), contacts, [], [], [])
  }

  function Run(contacts: seq<Contact>, events: seq<Event>): Desk {
    if events == [] then Start(contacts)
    else Next(Run(contacts, events[..|events| - 1]), events[|events| - 1])
  }

  ghost predicate HasPending(d: Desk, id: nat) {
    exists r :: 0 <= r < |d.requests| && IsPendingFor(d.requests[r], id)
  }

  ghost predicate IsPendingFor(request: ApprovalRequest, id: nat) {
    request.ty == PaymentEntity && request.entity == id && request.status == Pending
  }

  /** A cent at least, on the payment and on each allocation, as the request's limits demand. */
  ghost predicate Cents(dto: PaymentRequest) {
    1.0 <= dto.amount && forall i :: 0 <= i < |dto.allocations| ==> 1.0 <= dto.allocations[i].amount
  }

  ghost predicate AllCents(events: seq<Event>) {
    forall i :: 0 <= i < |events| && events[i].Create? ==> Cents(events[i].dto)
  }

  ghost predicate WholeCents(dto: PaymentRequest) {
    && dto.amount == dto.amount.Floor as real
    && forall i :: 0 <= i < |dto.allocations| ==>
         dto.allocations[i].amount == dto.allocations[i].amount.Floor as real
  }

  // ---- postings ----

  predicate IsApproved(d: Desk, id: nat) {
    id < |d.payments| && d.payments[id].status == Approved
  }

  /** The payment that an event posts, if it posts one. */
  function PostedId(d: Desk, e: Event): (id: Option<nat>)
    ensures id.Some? ==> id.value < |d.payments|
  {
    match e
    case Approve(tenant, id, now) => if Approval(d, tenant, id, now).Ok? then Some(id) else None
    case ApproveRequest(tenant, r, now) =>
      if RequestError(d, tenant, r).Some? || d.requests[r].ty != PaymentEntity then None
      else if Approval(Decided(d, r, Accepted), tenant, d.requests[r].entity, now).Ok? then Some(d.requests[r].entity)
      else None
    case _ => None
  }

  predicate Posts(d: Desk, e: Event, id: nat) {
    PostedId(d, e) == Some(id)
  }

  /** The approved payment that an event puts back to draft: the rejection of a request decided too late. */
  function ResetId(d: Desk, e: Event): (id: Option<nat>)
    ensures id.Some? ==> IsApproved(d, id.value)
  {
    if !e.RejectRequest? || RequestError(d, e.tenant, e.r).Some? || d.requests[e.r].ty != PaymentEntity then None
    else if IsApproved(d, d.requests[e.r].entity) then Some(d.requests[e.r].entity)
    else None
  }

  predicate Resets(d: Desk, e: Event, id: nat) {
    ResetId(d, e) == Some(id)
  }

  /** What never changes about a payment. */
  datatype Terms = Terms(amount: int, allocations: seq<Allocation>)

  function TermsOf(p: Payment): Terms {
    Terms(p.amount, p.allocations)
  }

  function TermsAt(d: Desk, id: Option<nat>): seq<Terms>
    requires id.Some? ==> id.value < |d.payments|
  {
    if id.None? then [] else [TermsOf(d.payments[id.value])]
  }

  /** The payments posted over a run, in order, one as often as it is posted. */
  function Postings(contacts: seq<Contact>, events: seq<Event>): seq<Terms> {
    if events == [] then []
    else
      var init := events[..|events| - 1];
      var d := Run(contacts, init);
      Postings(contacts, init) + TermsAt(d, PostedId(d, events[|events| - 1]))
  }

  /** The payments put back after approval. */
  function LateRejections(contacts: seq<Contact>, events: seq<Event>): seq<Terms> {
    if events == [] then []
    else
      var init := events[..|events| - 1];
      var d := Run(contacts, init);
      LateRejections(contacts, init) + TermsAt(d, ResetId(d, events[|events| - 1]))
  }

  function SumOver(f: Terms -> int, log: seq<Terms>): int {
    if log == [] then 0 else SumOver(f, log[..|log| - 1]) + f(log[|log| - 1])
  }

  function SumApproved(f: Terms -> int, payments: seq<Payment>): int {
    if payments == [] then 0
    else
      var p := payments[|payments| - 1];
      SumApproved(f, payments[..|payments| - 1]) + if p.status == Approved then f(TermsOf(p)) else 0
  }

  lemma {:induction false} SumOverAppend(f: Terms -> int, log: seq<Terms>, t: Terms)
    ensures SumOver(f, log + [t]) == SumOver(f, log) + f(t)
  {
    assert (log + [t])[..|log|] == log;
  }

  lemma {:induction false} SumChanged(f: Terms -> int, payments: seq<Payment>, id: nat, p: Payment)
    requires id < |payments| && TermsOf(p) == TermsOf(payments[id])
    ensures SumApproved(f, payments[id := p])
            == SumApproved(f, payments) + (if p.status == Approved then f(TermsOf(p)) else 0)
               - (if payments[id].status == Approved then f(TermsOf(p)) else 0)
  {
    var n := |payments| - 1;
    if id < n {
      SumChanged(f, payments[..n], id, p);
      assert payments[id := p][..n] == payments[..n][id := p];
    } else {
      assert payments[id := p][..n] == payments[..n];
    }
  }

  lemma {:induction false} SumAppended(f: Terms -> int, payments: seq<Payment>, p: Payment)
    requires p.status != Approved
    ensures SumApproved(f, payments + [p]) == SumApproved(f, payments)
  {
    assert (payments + [p])[..|payments|] == payments;
  }

  lemma ApprovalMarks(d: Desk, tenant: nat, id: nat, now: int)
    ensures Approval(d, tenant, id, now).Ok? ==>
              var t := Approval(d, tenant, id, now).value;
              && id < |d.payments| && d.payments[id].status in [Draft, PendingApproval] && t.requests == d.requests
              && t.payments == d.payments[id := d.payments[id].(status := Approved, entry := Some(|d.books.entries|))]
  {
    hide CreateError, Posted, EntryLines, Allocated;
  }

  /** Any step adds what it posts to the approved payments and takes from them what it rejects late. */
  lemma StepSums(d: Desk, e: Event, f: Terms -> int)
    ensures SumApproved(f, Next(d, e).payments)
            == SumApproved(f, d.payments) + SumOver(f, TermsAt(d, PostedId(d, e)))
               - SumOver(f, TermsAt(d, ResetId(d, e)))
  {
    hide Approval, Round, Requested, SumApproved, SumOver, StoredAllocations;
    NothingSummed(f);
    match e
    case NewInvoice(_) =>
    case ApproveInvoice(_) =>
    case OtherBooks(_) =>
    case Create(tenant, dto) => SumAppended(f, d.payments, StoredPayment(tenant, dto));
    case Approve(tenant, id, now) => ApprovalSums(d, tenant, id, now, f);
    case ApproveRequest(tenant, r, now) =>
      if RequestError(d, tenant, r).None? {
        ApprovalSums(Decided(d, r, Accepted), tenant, d.requests[r].entity, now, f);
      }
    case RejectRequest(tenant, r) =>
      if RequestError(d, tenant, r).None? && d.requests[r].ty == PaymentEntity && d.requests[r].entity < |d.payments| {
        var id := d.requests[r].entity;
        SumChanged(f, d.payments, id, d.payments[id].(status := Draft));
        SumOfOne(f, TermsOf(d.payments[id]));
      }
  }

  lemma NothingSummed(f: Terms -> int)
    ensures SumOver(f, []) == 0
  {
  }

  lemma {:induction false} SumOfOne(f: Terms -> int, t: Terms)
    ensures SumOver(f, [t]) == f(t)
  {
    assert [t][..0] == [];
  }

  lemma ApprovalSums(d: Desk, tenant: nat, id: nat, now: int, f: Terms -> int)
    ensures Approval(d, tenant, id, now).Ok? ==>
              && id < |d.payments|
              && SumApproved(f, Approval(d, tenant, id, now).value.payments)
                 == SumApproved(f, d.payments) + SumOver(f, [TermsOf(d.payments[id])])
  {
    hide Approval, SumApproved, SumOver;
    ApprovalMarks(d, tenant, id, now);
    if Approval(d, tenant, id, now).Ok? {
      SumChanged(f, d.payments, id, d.payments[id].(status := Approved, entry := Some(|d.books.entries|)));
      SumOfOne(f, TermsOf(d.payments[id]));
    }
  }

  lemma {:induction false} SumOverConcat(f: Terms -> int, log: seq<Terms>, more: seq<Terms>)
    requires |more| <= 1
    ensures SumOver(f, log + more) == SumOver(f, log) + SumOver(f, more)
  {
    if more == [] {
      assert log + more == log;
    } else {
      SumOverAppend(f, log, more[0]);
      SumOfOne(f, more[0]);
      assert more == [more[0]];
    }
  }

  /** Over any run, whatever is summed over the payments posted is the sum over those approved in the end and those
      rejected late. */
  lemma {:induction false} PostingsAre(contacts: seq<Contact>, events: seq<Event>, f: Terms -> int)
    ensures SumOver(f, Postings(contacts, events))
            == SumApproved(f, Run(contacts, events).payments) + SumOver(f, LateRejections(contacts, events))
  {
    hide Next, PostedId, ResetId, SumOver;
    NothingSummed(f);
    if events != [] {
      var init, e := events[..|events| - 1], events[|events| - 1];
      var d := Run(contacts, init);
      PostingsAre(contacts, init, f);
      StepSums(d, e, f);
      SumOverConcat(f, Postings(contacts, init), TermsAt(d, PostedId(d, e)));
      SumOverConcat(f, LateRejections(contacts, init), TermsAt(d, ResetId(d, e)));
    }
  }

  // ---- what invoices have been paid ----

  /** What a payment's allocations give an invoice. */
  function AllocatedTo(ls: seq<Allocation>, x: nat): int {
    if ls == [] then 0
    else AllocatedTo(ls[..|ls| - 1], x) + if ls[|ls| - 1].invoice == x then ls[|ls| - 1].amount else 0
  }

  function AllocationTotal(ls: seq<Allocation>): int {
    if ls == [] then 0 else AllocationTotal(ls[..|ls| - 1]) + ls[|ls| - 1].amount
  }

  function GivenTo(x: nat): Terms -> int {
    (t: Terms) => LastTo(t.allocations, x)
  }

  ghost predicate Within(ls: seq<Allocation>, n: nat) {
    forall k :: 0 <= k < |ls| ==> ls[k].invoice < n
  }

  ghost predicate Lists(ls: seq<Allocation>, x: nat) {
    exists k :: 0 <= k < |ls| && ls[k].invoice == x
  }

  ghost predicate Positive(ls: seq<Allocation>) {
    forall k :: 0 <= k < |ls| ==> 1 <= ls[k].amount
  }

  ghost predicate AllPositive(log: seq<Terms>) {
    forall i :: 0 <= i < |log| ==> Positive(log[i].allocations)
  }

  /** Allocations are positive; an invoice counts as paid exactly when it has been paid its total, and before its
      approval it has been paid nothing. */
  ghost predicate Inv(d: Desk) {
    && (forall i :: 0 <= i < |d.payments| ==> Positive(d.payments[i].allocations))
    && forall x :: 0 <= x < |d.invoices| ==> InvoiceInv(d.invoices[x])
  }

  ghost predicate InvoiceInv(inv: Invoice) {
    && (inv.total > 0 ==> (inv.status == Paid <==> inv.amountPaid >= inv.total))
    && (inv.status in [Draft, PendingApproval] ==> inv.amountPaid == 0)
  }

  /** An invoice that is listed is paid the amount it is listed with last; any other stays as it is. */
  lemma {:induction false} AllocatedLast(invoices: seq<Invoice>, ls: seq<Allocation>, n: nat, x: nat)
    requires n <= |ls| && Allocated(invoices, ls, n).Ok? && x < |invoices|
    ensures var after := Allocated(invoices, ls, n).value;
            after[x] == if Lists(ls[..n], x) then Settled(invoices[x], LastTo(ls[..n], x)) else invoices[x]
  {
    hide Settled;
    if n > 0 {
      var init, l := ls[..n - 1], ls[n - 1];
      AllocatedLast(invoices, ls, n - 1, x);
      assert ls[..n][..n - 1] == init && ls[..n] == init + [l];
      assert Lists(ls[..n], x) <==> Lists(init, x) || l.invoice == x by {
        assert (init + [l])[n - 1] == l;
        assert forall k :: 0 <= k < n - 1 ==> (init + [l])[k] == init[k];
      }
    }
  }

  lemma {:induction false} LastOfListed(ls: seq<Allocation>, x: nat)
    requires Positive(ls)
    ensures if Lists(ls, x) then 1 <= LastTo(ls, x) else LastTo(ls, x) == 0
  {
    if ls != [] {
      var n := |ls| - 1;
      LastOfListed(ls[..n], x);
      if Lists(ls[..n], x) {
        var k :| 0 <= k < n && ls[..n][k].invoice == x;
        assert ls[k].invoice == x;
      }
    }
  }

  lemma SettledInv(inv: Invoice, amount: int)
    requires inv.status in [Approved, Paid] && 1 <= amount && InvoiceInv(inv)
    ensures InvoiceInv(Settled(inv, amount)) && Settled(inv, amount).amountPaid == inv.amountPaid + amount
  {
  }

  /** What an event pays an invoice. */
  function Paying(d: Desk, e: Event, x: nat): int {
    SumOver(GivenTo(x), TermsAt(d, PostedId(d, e)))
  }

  lemma ApprovalPays(d: Desk, tenant: nat, id: nat, now: int)
    requires Inv(d) && Approval(d, tenant, id, now).Ok?
    ensures id < |d.payments| && Inv(Approval(d, tenant, id, now).value)
    ensures var t := Approval(d, tenant, id, now).value;
            && |t.invoices| == |d.invoices|
            && (forall x :: 0 <= x < |d.invoices| ==>
                  t.invoices[x].amountPaid == d.invoices[x].amountPaid + LastTo(d.payments[id].allocations, x))
            && Within(d.payments[id].allocations, |d.invoices|)
  {
    hide CreateError, Posted, EntryLines, Settled, LastTo, Allocated, InvoiceInv, Positive;
    var t, ls := Approval(d, tenant, id, now).value, d.payments[id].allocations;
    AllocatedStatuses(d.invoices, ls, |ls|);
    assert ls[..|ls|] == ls;
    forall x | 0 <= x < |d.invoices|
      ensures t.invoices[x].amountPaid == d.invoices[x].amountPaid + LastTo(ls, x) && InvoiceInv(t.invoices[x])
    {
      AllocatedLast(d.invoices, ls, |ls|, x);
      LastOfListed(ls, x);
      if Lists(ls, x) { SettledInv(d.invoices[x], LastTo(ls, x)); }
    }
  }

  lemma {:induction false} NothingOutside(ls: seq<Allocation>, n: nat, x: nat)
    requires Within(ls, n) && n <= x
    ensures LastTo(ls, x) == 0
  {
    if ls != [] { NothingOutside(ls[..|ls| - 1], n, x); }
  }

  lemma {:induction false} StoredAmounts(ls: seq<AllocationRequest>)
    requires forall i :: 0 <= i < |ls| ==> 1.0 <= ls[i].amount
    ensures Positive(StoredAllocations(ls))
  {
    if ls != [] {
      StoredAmounts(ls[..|ls| - 1]);
      RoundWhole(1);
      RoundMonotone(1.0, ls[|ls| - 1].amount);
    }
  }

  /** Any step pays the invoices what it posts gives them, and keeps their status in line. */
  lemma StepKeeps(d: Desk, e: Event)
    requires Inv(d) && (e.Create? ==> Cents(e.dto))
    ensures Inv(Next(d, e)) && |d.invoices| <= |Next(d, e).invoices|
    ensures forall x :: 0 <= x < |Next(d, e).invoices| ==>
              Next(d, e).invoices[x].amountPaid
              == (if x < |d.invoices| then d.invoices[x].amountPaid else 0) + Paying(d, e, x)
    ensures forall x: nat :: |d.invoices| <= x ==> Paying(d, e, x) == 0
  {
    hide Approval, Positive, Round, Requested, StoredAllocations, LastTo, SumOver;
    forall x: nat
      ensures SumOver(GivenTo(x), []) == 0
    {
      NothingSummed(GivenTo(x));
    }
    match e
    case NewInvoice(_) =>
    case ApproveInvoice(_) =>
    case OtherBooks(_) =>
    case Create(_, dto) => StoredAmounts(dto.allocations);
    case Approve(tenant, id, now) =>
      if Approval(d, tenant, id, now).Ok? {
        ApprovalPays(d, tenant, id, now);
        PayingIs(d, e, id);
      }
    case ApproveRequest(tenant, r, now) =>
      if RequestError(d, tenant, r).None? && d.requests[r].ty == PaymentEntity {
        var decided := Decided(d, r, Accepted);
        if Approval(decided, tenant, d.requests[r].entity, now).Ok? {
          ApprovalPays(decided, tenant, d.requests[r].entity, now);
          PayingIs(d, e, d.requests[r].entity);
        }
      }
    case RejectRequest(_, _) =>
  }

  lemma PayingIs(d: Desk, e: Event, id: nat)
    requires PostedId(d, e) == Some(id) && Within(d.payments[id].allocations, |d.invoices|)
    ensures forall x: nat :: Paying(d, e, x) == LastTo(d.payments[id].allocations, x)
    ensures forall x: nat :: |d.invoices| <= x ==> Paying(d, e, x) == 0
  {
    hide PostedId, LastTo, SumOver;
    forall x: nat
      ensures Paying(d, e, x) == LastTo(d.payments[id].allocations, x)
      ensures |d.invoices| <= x ==> Paying(d, e, x) == 0
    {
      SumOfOne(GivenTo(x), TermsOf(d.payments[id]));
      if |d.invoices| <= x { NothingOutside(d.payments[id].allocations, |d.invoices|, x); }
    }
  }

  /** Over any run at all, an invoice has been paid exactly what the postings list it with last. */
  lemma {:induction false} RunKeeps(contacts: seq<Contact>, events: seq<Event>)
    requires AllCents(events)
    ensures var d, log := Run(contacts, events), Postings(contacts, events);
            && Inv(d)
            && (forall x :: 0 <= x < |d.invoices| ==> d.invoices[x].amountPaid == SumOver(GivenTo(x), log))
            && (forall x: nat :: |d.invoices| <= x ==> SumOver(GivenTo(x), log) == 0)
            && AllPositive(log)
  {
    hide InvoiceInv, Positive, Next, PostedId, Cents, SumOver, GivenTo;
    if events == [] {
      forall x: nat
        ensures SumOver(GivenTo(x), []) == 0
      {
        NothingSummed(GivenTo(x));
      }
    } else {
      var init, e := events[..|events| - 1], events[|events| - 1];
      var d := Run(contacts, init);
      RunKeeps(contacts, init);
      StepKeeps(d, e);
      assert PostedId(d, e).Some? ==> Positive(d.payments[PostedId(d, e).value].allocations);
      forall x: nat
        ensures SumOver(GivenTo(x), Postings(contacts, events))
                == SumOver(GivenTo(x), Postings(contacts, init)) + Paying(d, e, x)
      {
        SumOverConcat(GivenTo(x), Postings(contacts, init), TermsAt(d, PostedId(d, e)));
      }
    }
  }

  /** That is what the approved payments list it with last, and those rejected late. */
  lemma {:induction false} PaidByApproved(contacts: seq<Contact>, events: seq<Event>, x: nat)
    requires AllCents(events) && x < |Run(contacts, events).invoices|
    ensures var d := Run(contacts, events);
            d.invoices[x].amountPaid
            == SumApproved(GivenTo(x), d.payments) + SumOver(GivenTo(x), LateRejections(contacts, events))
  {
    hide Inv, Run, Postings, LateRejections, SumApproved, SumOver;
    RunKeeps(contacts, events);
    PostingsAre(contacts, events, GivenTo(x));
  }

  function AllTo(x: nat): Terms -> int {
    (t: Terms) => AllocatedTo(t.allocations, x)
  }

  /** It is all that the postings allocate to the invoice exactly when none of them lists it twice. */
  lemma {:induction false} PaidAsAllocated(contacts: seq<Contact>, events: seq<Event>, x: nat)
    requires AllCents(events) && x < |Run(contacts, events).invoices|
    ensures var d, log := Run(contacts, events), Postings(contacts, events);
            d.invoices[x].amountPaid == SumOver(AllTo(x), log)
            <==> forall i :: 0 <= i < |log| ==> !ListedTwice(log[i].allocations, x)
  {
    hide Inv, Run, Postings, SumOver, AllPositive, ListedTwice;
    RunKeeps(contacts, events);
    LastOrAll(Postings(contacts, events), x);
  }

  lemma {:induction false} LastOrAll(log: seq<Terms>, x: nat)
    requires AllPositive(log)
    ensures SumOver(GivenTo(x), log) <= SumOver(AllTo(x), log)
    ensures SumOver(GivenTo(x), log) == SumOver(AllTo(x), log)
            <==> forall i :: 0 <= i < |log| ==> !ListedTwice(log[i].allocations, x)
  {
    hide LastTo, AllocatedTo, ListedTwice;
    if log != [] {
      var n := |log| - 1;
      LastOrAll(log[..n], x);
      LastIsAll(log[n].allocations, x);
      assert (forall i :: 0 <= i < |log| ==> !ListedTwice(log[i].allocations, x))
        <==> (forall i :: 0 <= i < n ==> !ListedTwice(log[..n][i].allocations, x))
             && !ListedTwice(log[n].allocations, x);
    }
  }

  // ---- posted at most once ----

  function PostCount(contacts: seq<Contact>, events: seq<Event>, id: nat): nat {
    if events == [] then 0
    else
      var init, e := events[..|events| - 1], events[|events| - 1];
      PostCount(contacts, init, id) + if Posts(Run(contacts, init), e, id) then 1 else 0
  }

  function ResetCount(contacts: seq<Contact>, events: seq<Event>, id: nat): nat {
    if events == [] then 0
    else
      var init, e := events[..|events| - 1], events[|events| - 1];
      ResetCount(contacts, init, id) + if Resets(Run(contacts, init), e, id) then 1 else 0
  }

  /** Any step approves a payment by posting it, which it does only to one that is not approved, and takes the
      approval back only by a late rejection. */
  lemma StepPosts(d: Desk, e: Event, id: nat)
    ensures Posts(d, e, id) ==> !IsApproved(d, id)
    ensures Resets(d, e, id) ==> IsApproved(d, id)
    ensures IsApproved(Next(d, e), id) <==> Posts(d, e, id) || (IsApproved(d, id) && !Resets(d, e, id))
  {
    hide Approval, Round, Requested;
    match e
    case NewInvoice(_) =>
    case ApproveInvoice(_) =>
    case OtherBooks(_) =>
    case Create(_, dto) =>
    case Approve(tenant, i, now) => ApprovalMarks(d, tenant, i, now);
    case ApproveRequest(tenant, r, now) =>
      if RequestError(d, tenant, r).None? { ApprovalMarks(Decided(d, r, Accepted), tenant, d.requests[r].entity, now); }
    case RejectRequest(tenant, r) =>
  }

  /** Over any run a payment's entry is posted once for every late rejection, and once more if the payment ends
      up approved. */
  lemma {:induction false} PostedExactly(contacts: seq<Contact>, events: seq<Event>, id: nat)
    ensures PostCount(contacts, events, id)
            == ResetCount(contacts, events, id) + if IsApproved(Run(contacts, events), id) then 1 else 0
  {
    hide Next, Posts, Resets;
    if events != [] {
      var init := events[..|events| - 1];
      PostedExactly(contacts, init, id);
      StepPosts(Run(contacts, init), events[|events| - 1], id);
    }
  }

  /** Runs in which a payment with a pending request is approved only through it. */
  ghost predicate ThroughRequests(contacts: seq<Contact>, events: seq<Event>) {
    events != [] ==>
      var init, e := events[..|events| - 1], events[|events| - 1];
      ThroughRequests(contacts, init) && (e.Approve? ==> !HasPending(Run(contacts, init), e.id))
  }

  /** A payment is approved exactly when it has been posted, it has at most one request, and while that is pending
      it waits for approval. */
  ghost predicate RequestsInv(d: Desk) {
    && (forall i :: 0 <= i < |d.payments| ==> Marked(d.payments[i]))
    && (forall r :: 0 <= r < |d.requests| && d.requests[r].ty == PaymentEntity ==> d.requests[r].entity < |d.payments|)
    && (forall r :: 0 <= r < |d.requests| && d.requests[r].ty == PaymentEntity && d.requests[r].status == Pending ==>
          d.payments[d.requests[r].entity].status == PendingApproval)
    && (forall r, q :: 0 <= r < q < |d.requests| && d.requests[r].ty == PaymentEntity == d.requests[q].ty ==>
          d.requests[r].entity != d.requests[q].entity)
  }

  ghost predicate Marked(p: Payment) {
    p.status == Approved <==> p.entry.Some?
  }

  /** Deciding a request clears the way for its payment. */
  lemma DecidedKeeps(d: Desk, tenant: nat, r: nat, status: Decision)
    requires RequestsInv(d) && RequestError(d, tenant, r) == None && status != Pending
    ensures RequestsInv(Decided(d, r, status))
    ensures d.requests[r].ty == PaymentEntity ==>
              && !HasPending(Decided(d, r, status), d.requests[r].entity)
              && d.payments[d.requests[r].entity].status == PendingApproval
  {
  }

  lemma ApprovedKeeps(d: Desk, tenant: nat, id: nat, now: int)
    requires RequestsInv(d) && !HasPending(d, id) && Approval(d, tenant, id, now).Ok?
    ensures RequestsInv(Approval(d, tenant, id, now).value)
  {
    hide Approval;
    ApprovalMarks(d, tenant, id, now);
    assert forall r :: 0 <= r < |d.requests| ==> !IsPendingFor(d.requests[r], id);
  }

  lemma OthersKeep(d: Desk, t: Desk)
    requires RequestsInv(d) && t.payments == d.payments && t.requests == d.requests
    ensures RequestsInv(t)
  {
  }

  lemma CreatedKeeps(d: Desk, tenant: nat, dto: PaymentRequest)
    requires RequestsInv(d)
    ensures RequestsInv(Created(d, tenant, dto))
  {
    hide Round, StoredAllocations;
  }

  lemma RejectedKeeps(d: Desk, tenant: nat, r: nat)
    requires RequestsInv(d) && RequestError(d, tenant, r) == None
    ensures RequestsInv(RequestRejected(d, r)) && ResetId(d, Event.RejectRequest(tenant, r)) == None
  {
    DecidedKeeps(d, tenant, r, Rejected);
  }

  lemma StepRequests(d: Desk, e: Event)
    requires RequestsInv(d) && (e.Approve? ==> !HasPending(d, e.id))
    ensures RequestsInv(Next(d, e))
    ensures ResetId(d, e) == None
  {
    hide Approval, HasPending, RequestsInv, StoredPayment, Requested;
    match e
    case NewInvoice(_) => OthersKeep(d, Next(d, e));
    case ApproveInvoice(_) => OthersKeep(d, Next(d, e));
    case OtherBooks(_) => OthersKeep(d, Next(d, e));
    case Create(tenant, dto) => CreatedKeeps(d, tenant, dto);
    case Approve(tenant, id, now) =>
      if Approval(d, tenant, id, now).Ok? { ApprovedKeeps(d, tenant, id, now); }
    case ApproveRequest(tenant, r, now) =>
      if RequestError(d, tenant, r).None? {
        DecidedKeeps(d, tenant, r, Accepted);
        var decided := Decided(d, r, Accepted);
        if d.requests[r].ty == PaymentEntity && Approval(decided, tenant, d.requests[r].entity, now).Ok? {
          ApprovedKeeps(decided, tenant, d.requests[r].entity, now);
        }
      }
    case RejectRequest(tenant, r) =>
      if RequestError(d, tenant, r).None? { RejectedKeeps(d, tenant, r); }
  }

  lemma {:induction false} NoResets(contacts: seq<Contact>, events: seq<Event>, id: nat)
    requires ThroughRequests(contacts, events)
    ensures RequestsInv(Run(contacts, events))
    ensures ResetCount(contacts, events, id) == 0 && LateRejections(contacts, events) == []
  {
    hide Next, RequestsInv, ResetId, HasPending;
    if events == [] {
      NoRequestsYet(contacts);
    } else {
      var init := events[..|events| - 1];
      NoResets(contacts, init, id);
      StepRequests(Run(contacts, init), events[|events| - 1]);
    }
  }

  lemma NoRequestsYet(contacts: seq<Contact>)
    ensures RequestsInv(Start(contacts))
  {
  }

  /** Then there are no late rejections, and the entry is posted once if the payment ends up approved and
      otherwise never. */
  lemma {:induction false} PostedOnce(contacts: seq<Contact>, events: seq<Event>, id: nat)
    requires ThroughRequests(contacts, events)
    ensures PostCount(contacts, events, id) == if IsApproved(Run(contacts, events), id) then 1 else 0
  {
    hide PostCount, ResetCount, LateRejections, Run, ThroughRequests, RequestsInv;
    PostedExactly(contacts, events, id);
    NoResets(contacts, events, id);
  }

  /** Requests are never withdrawn, and one that has been decided stays decided the same way. */
  lemma DecisionFinal(d: Desk, e: Event, r: nat)
    requires r < |d.requests|
    ensures |d.requests| <= |Next(d, e).requests|
    ensures d.requests[r].status != Pending ==> Next(d, e).requests[r] == d.requests[r]
    ensures Next(d, e).requests[r].(status := d.requests[r].status) == d.requests[r]
  {
    hide CreateError, Posted, EntryLines, Allocated, Round, Requested;
  }

  // ---- settled against posted ----

  /** Allocations may exceed the payment by what rounding adds: half a cent each, and nothing when all
      amounts are whole cents. */
  ghost predicate Covered(t: Terms, exact: bool) {
    AllocationTotal(t.allocations) <= t.amount + if exact then 0 else |t.allocations| / 2
  }

  lemma {:induction false} StoredTotal(ls: seq<AllocationRequest>)
    ensures AllocationTotal(StoredAllocations(ls)) as real <= Requested(ls) + |ls| as real * 0.5
    ensures (forall i :: 0 <= i < |ls| ==> ls[i].amount == ls[i].amount.Floor as real) ==>
              AllocationTotal(StoredAllocations(ls)) as real == Requested(ls)
  {
    if ls != [] {
      StoredTotal(ls[..|ls| - 1]);
      RoundWhole(ls[|ls| - 1].amount.Floor);
    }
  }

  lemma StoredCovered(tenant: nat, dto: PaymentRequest, exact: bool)
    requires Cents(dto) && (exact ==> WholeCents(dto))
    requires !(Requested(dto.allocations) > dto.amount && dto.allocations != [])
    ensures Covered(TermsOf(StoredPayment(tenant, dto)), exact)
  {
    hide AllocationTotal, Requested;
    StoredTotal(dto.allocations);
    RoundWhole(dto.amount.Floor);
    var k, total, amount := |dto.allocations|, AllocationTotal(StoredAllocations(dto.allocations)), Round(dto.amount);
    NoRequests();
    assert exact ==> amount as real == dto.amount;
    assert total as real < amount as real + 0.5 + k as real * 0.5;
  }

  lemma NoRequests()
    ensures Requested([]) == 0.0
  {
  }

  ghost predicate AllWholeCents(events: seq<Event>) {
    forall i :: 0 <= i < |events| && events[i].Create? ==> WholeCents(events[i].dto)
  }

  ghost predicate AllCovered(payments: seq<Payment>, exact: bool) {
    forall i :: 0 <= i < |payments| ==> Covered(TermsOf(payments[i]), exact)
  }

  /** Only creation decides amounts. */
  lemma StepCovered(d: Desk, e: Event, exact: bool)
    requires AllCovered(d.payments, exact)
    requires e.Create? ==> Cents(e.dto) && (exact ==> WholeCents(e.dto))
    ensures AllCovered(Next(d, e).payments, exact)
  {
    hide CreateError, Posted, EntryLines, Allocated, AllocationTotal, StoredAllocations, Cents, WholeCents, Round;
    if e.Create? && !(Requested(e.dto.allocations) > e.dto.amount && e.dto.allocations != []) {
      StoredCovered(e.tenant, e.dto, exact);
    }
  }

  lemma {:induction false} RunCovered(contacts: seq<Contact>, events: seq<Event>, exact: bool)
    requires AllCents(events) && (exact ==> AllWholeCents(events))
    ensures AllCovered(Run(contacts, events).payments, exact)
    ensures forall i :: 0 <= i < |Postings(contacts, events)| ==> Covered(Postings(contacts, events)[i], exact)
  {
    hide Next, Covered, Cents, WholeCents, PostedId;
    if events != [] {
      var init := events[..|events| - 1];
      RunCovered(contacts, init, exact);
      StepCovered(Run(contacts, init), events[|events| - 1], exact);
    }
  }

  function TotalPaid(invoices: seq<Invoice>): int {
    if invoices == [] then 0 else TotalPaid(invoices[..|invoices| - 1]) + invoices[|invoices| - 1].amountPaid
  }

  function AmountOf(): Terms -> int {
    (t: Terms) => t.amount
  }

  /** What rounding can add to a payment's allocations. */
  function ExcessOf(): Terms -> int {
    (t: Terms) => |t.allocations| / 2
  }

  /** What a payment gives the first n invoices. */
  function GivenToFirst(n: nat): Terms -> int {
    (t: Terms) => LastToFirst(t.allocations, n)
  }

  function LastToFirst(ls: seq<Allocation>, n: nat): int {
    if n == 0 then 0 else LastToFirst(ls, n - 1) + LastTo(ls, n - 1)
  }

  lemma {:induction false} OneMoreInvoice(log: seq<Terms>, n: nat)
    ensures SumOver(GivenToFirst(n + 1), log) == SumOver(GivenToFirst(n), log) + SumOver(GivenTo(n), log)
  {
    hide LastTo;
    if log != [] { OneMoreInvoice(log[..|log| - 1], n); }
  }

  lemma {:induction false} NoInvoices(log: seq<Terms>)
    ensures SumOver(GivenToFirst(0), log) == 0
  {
    if log != [] { NoInvoices(log[..|log| - 1]); }
  }

  lemma {:induction false} TotalPaidIs(invoices: seq<Invoice>, log: seq<Terms>, n: nat)
    requires n <= |invoices|
    requires forall x :: 0 <= x < |invoices| ==> invoices[x].amountPaid == SumOver(GivenTo(x), log)
    ensures TotalPaid(invoices[..n]) == SumOver(GivenToFirst(n), log)
  {
    hide SumOver, GivenTo, GivenToFirst;
    if n == 0 {
      NoInvoices(log);
    } else {
      TotalPaidIs(invoices, log, n - 1);
      OneMoreInvoice(log, n - 1);
      assert invoices[..n][..n - 1] == invoices[..n - 1];
    }
  }

  /** A payment gives all invoices together no more than its allocations. */
  lemma {:induction false} GivenWithin(ls: seq<Allocation>, n: nat)
    requires Positive(ls)
    ensures LastToFirst(ls, n) <= AllocationTotal(ls)
  {
    if ls == [] {
      NothingGiven(n);
    } else {
      GivenWithin(ls[..|ls| - 1], n);
      OneMoreAllocation(ls, n);
    }
  }

  lemma {:induction false} NothingGiven(n: nat)
    ensures LastToFirst([], n) == 0
  {
    if n > 0 { NothingGiven(n - 1); }
  }

  lemma {:induction false} OneMoreAllocation(ls: seq<Allocation>, n: nat)
    requires ls != [] && Positive(ls)
    ensures var l := ls[|ls| - 1];
            LastToFirst(ls, n) <= LastToFirst(ls[..|ls| - 1], n) + if l.invoice < n then l.amount else 0
  {
    if n > 0 {
      OneMoreAllocation(ls, n - 1);
      LastOfListed(ls[..|ls| - 1], n - 1);
    }
  }

  lemma {:induction false} LogWithin(log: seq<Terms>, n: nat, exact: bool)
    requires AllPositive(log) && forall i :: 0 <= i < |log| ==> Covered(log[i], exact)
    ensures SumOver(GivenToFirst(n), log)
            <= SumOver(AmountOf(), log) + if exact then 0 else SumOver(ExcessOf(), log)
  {
    hide LastToFirst, AllocationTotal;
    if log != [] {
      LogWithin(log[..|log| - 1], n, exact);
      GivenWithin(log[|log| - 1].allocations, n);
    }
  }

  /** Over any run, what invoices have been paid in total is covered by the amounts posted, up to the rounding of
      fractional cents and exactly when all amounts are whole cents. */
  lemma {:induction false} SettledWithinPosted(contacts: seq<Contact>, events: seq<Event>)
    requires AllCents(events)
    ensures var paid, log := TotalPaid(Run(contacts, events).invoices), Postings(contacts, events);
            && paid <= SumOver(AmountOf(), log) + SumOver(ExcessOf(), log)
            && (AllWholeCents(events) ==> paid <= SumOver(AmountOf(), log))
  {
    hide Run, Postings, Inv, AllPositive, TotalPaid, SumOver, AllCovered, Covered, GivenTo, GivenToFirst;
    var d, log := Run(contacts, events), Postings(contacts, events);
    RunKeeps(contacts, events);
    TotalPaidIs(d.invoices, log, |d.invoices|);
    assert d.invoices[..|d.invoices|] == d.invoices;
    RunCovered(contacts, events, false);
    LogWithin(log, |d.invoices|, false);
    if AllWholeCents(events) {
      RunCovered(contacts, events, true);
      LogWithin(log, |d.invoices|, true);
    }
  }

  /** When payments with a pending request are approved only through it, that is the amount of the payments approved
      in the end. */
  lemma {:induction false} SettledWithinApproved(contacts: seq<Contact>, events: seq<Event>)
    requires AllCents(events) && ThroughRequests(contacts, events)
    ensures var d := Run(contacts, events);
            var paid := TotalPaid(d.invoices);
            && paid <= SumApproved(AmountOf(), d.payments) + SumApproved(ExcessOf(), d.payments)
            && (AllWholeCents(events) ==> paid <= SumApproved(AmountOf(), d.payments))
  {
    hide Run, Postings, TotalPaid, SumOver, SumApproved, RequestsInv, ThroughRequests, ResetCount;
    SettledWithinPosted(contacts, events);
    NoResets(contacts, events, 0);
    PostingsAre(contacts, events, AmountOf());
    PostingsAre(contacts, events, ExcessOf());
    NothingSummed(AmountOf());
    NothingSummed(ExcessOf());
  }

  // ---- what discipline is needed for ----

  /** Rejecting a pending request keeps its payment approved exactly when posted if and only if the payment
      had not been approved past its request. */
  lemma RejectionKeeps(d: Desk, tenant: nat, r: nat)
    requires RequestError(d, tenant, r) == None && d.requests[r].ty == PaymentEntity
    requires d.requests[r].entity < |d.payments| && Marked(d.payments[d.requests[r].entity])
    ensures var id := d.requests[r].entity;
            Marked(RequestRejected(d, r).payments[id]) <==> d.payments[id].status != Approved
  {
  }

  lemma {:induction false} AllocatedStatuses(invoices: seq<Invoice>, ls: seq<Allocation>, n: nat)
    requires n <= |ls|
    ensures Allocated(invoices, ls, n).Ok?
            <==> forall k :: 0 <= k < n ==>
                   ls[k].invoice < |invoices| && invoices[ls[k].invoice].status in [Approved, Paid]
    ensures Allocated(invoices, ls, n).Ok? ==>
              forall x :: 0 <= x < |invoices| && invoices[x].status in [Approved, Paid] ==>
                Allocated(invoices, ls, n).value[x].status in [Approved, Paid]
  {
    if n > 0 { AllocatedStatuses(invoices, ls, n - 1); }
  }

  /** Any payment that can be approved while its request is pending can be posted twice: approve it, reject the
      request, and approve it again, and the second approval is accepted like the first. */
  lemma RejectionPostsTwice(d: Desk, tenant: nat, id: nat, r: nat, now: int)
    requires Approval(d, tenant, id, now).Ok?
    requires RequestError(d, tenant, r) == None && d.requests[r].ty == PaymentEntity && d.requests[r].entity == id
    ensures var approve, reject := Event.Approve(tenant, id, now), Event.RejectRequest(tenant, r);
            var approved := Next(d, approve);
            var reset := Next(approved, reject);
            Posts(d, approve, id) && Resets(approved, reject, id) && Posts(reset, approve, id)
  {
    hide EntryLines, Allocated, NextNumber, Stored, LinesError, Debits, Credits, AccountingPeriods.FindActive;
    var approved := Next(d, Event.Approve(tenant, id, now));
    var reset := Next(approved, Event.RejectRequest(tenant, r));
    var p := d.payments[id];
    AllocatedStatuses(d.invoices, p.allocations, |p.allocations|);
    AllocatedStatuses(approved.invoices, p.allocations, |p.allocations|);
    assert reset.invoices == approved.invoices && reset.books == approved.books;
    SameLines(p, reset.payments[id], ControlAccount(p, d.contacts[p.contact]).value);
  }

  /** The entry does not depend on a payment's status or earlier entry. */
  lemma SameLines(p: Payment, q: Payment, control: nat)
    requires q == p.(status := q.status, entry := q.entry)
    ensures EntryLines(q, control) == EntryLines(p, control)
  {
    hide Base;
    SameBase(p, q, p.amount);
    SameBase(p, q, p.whtAmount);
  }

  lemma SameBase(p: Payment, q: Payment, amount: int)
    requires p.rate == q.rate
    ensures Base(q, amount) == Base(p, amount)
  {
  }

  lemma {:induction false} OneMoreEvent(contacts: seq<Contact>, events: seq<Event>, e: Event, id: nat)
    ensures Run(contacts, events + [e]) == Next(Run(contacts, events), e)
    ensures PostCount(contacts, events + [e], id)
            == PostCount(contacts, events, id) + if Posts(Run(contacts, events), e, id) then 1 else 0
    ensures e.RejectRequest? ==> PostCount(contacts, events + [e], id) == PostCount(contacts, events, id)
  {
    hide Next, Approval;
    assert (events + [e])[..|events|] == events;
  }

  /** A payment above the approval limit, recorded at a desk with an open period and two accounts. */
  function LargePayment(): seq<Event> {
    [OtherBooks(Books([Account(0, "1111", Asset, None, true), Account(0, "1120", Asset, None, true)],
                      [Period(0, 0, "Jan 1970", 0, 0, Open)], [], [])),
     Event.Create(0, PaymentRequest(Incoming, 0, 0, 1000001.0, 0, None, 0.0, None, []))]
  }

  /** The desk after those two events. */
  function LargeDesk(): Desk {
    Desk(LargePayment()[0].books, [Contact(Some(1), None)], [], [StoredPayment(0, LargePayment()[1].dto)],
         [ApprovalRequest(0, PaymentEntity, 0, Pending)])
  }

  lemma LargePaymentRun()
    ensures Run([Contact(Some(1), None)], LargePayment()) == LargeDesk()
  {
    hide StoredPayment;
    var events, contacts := LargePayment(), [Contact(Some(1), None)];
    OneMoreEvent(contacts, [], events[0], 0);
    OneMoreEvent(contacts, [events[0]], events[1], 0);
    assert [] + [events[0]] == [events[0]] && [events[0]] + [events[1]] == events;
    assert Run(contacts, []) == Start(contacts);
    LargeAmount();
  }

  lemma LargeAmount()
    ensures var p := StoredPayment(0, LargePayment()[1].dto);
            && p.status == PendingApproval && p.allocations == [] && p.rate.None? && p.whtAmount == 0
            && p.amount == 1000001 && p.account == 0 && p.ty == Incoming
            && p.tenant == 0 && p.date == 0 && p.contact == 0
    ensures Requested(LargePayment()[1].dto.allocations) == 0.0
  {
    RoundWhole(1000001);
    RoundWhole(0);
  }

  lemma LargePaymentPending()
    ensures var d := Run([Contact(Some(1), None)], LargePayment());
            RequestError(d, 0, 0) == None && d.requests[0] == ApprovalRequest(0, PaymentEntity, 0, Pending)
            && Approval(d, 0, 0, 0).Ok?
  {
    hide Run, StoredPayment, Base, EntryLines, Debits, Credits, Posted, LinesError;
    LargePaymentRun();
    LargeAmount();
    var d := LargeDesk();
    assert Allocated([], [], 0) == Ok([]);
    assert AccountingPeriods.FindActive(d.books.periods, 0, 0).Ok? by {
      assert d.books.periods[..0] == [];
    }
    PlainLines(d.books.accounts, d.payments[0]);
  }

  /** The entry of a payment without withholding between two accounts that take postings. */
  lemma {:induction false} PlainLines(accounts: seq<Account>, p: Payment)
    requires p.rate.None? && p.whtAmount == 0 && 0 <= p.amount && p.account == 0 && p.ty == Incoming
    requires ChartOfAccounts.PostingError(accounts, p.tenant, 0) == None
    requires ChartOfAccounts.PostingError(accounts, p.tenant, 1) == None
    ensures var ls := EntryLines(p, 1);
            |ls| == 2 && LinesError(accounts, p.tenant, ls) == None && Debits(ls) == Credits(ls)
  {
    hide ChartOfAccounts.PostingError, LinesError, Debits, Credits;
    assert Base(p, p.amount) == p.amount as real && Base(p, p.whtAmount) == 0.0;
    EntryBalances(p, 1);
    OneSidedAccepted(accounts, p.tenant, EntryLines(p, 1));
  }

  /** So it happens from an empty desk on: recorded above the limit, approved, rejected and approved again, a
      payment is posted twice. */
  lemma TwicePosted()
    ensures var approve, reject := Event.Approve(0, 0, 0), Event.RejectRequest(0, 0);
            PostCount([Contact(Some(1), None)], LargePayment() + [approve] + [reject] + [approve], 0) == 2
  {
    hide Next, Posts, PostCount, Run, Approval, LargePayment, RequestError, Resets;
    var contacts, approve, reject := [Contact(Some(1), None)], Event.Approve(0, 0, 0), Event.RejectRequest(0, 0);
    LargePaymentPending();
    RejectionPostsTwice(Run(contacts, LargePayment()), 0, 0, 0, 0);
    var events := LargePayment();
    NotPostedYet(contacts);
    OneMoreEvent(contacts, events, approve, 0);
    OneMoreEvent(contacts, events + [approve], reject, 0);
    OneMoreEvent(contacts, events + [approve] + [reject], approve, 0);
  }

  lemma {:induction false} NotPostedYet(contacts: seq<Contact>)
    ensures PostCount(contacts, LargePayment(), 0) == 0
  {
    hide Approval, Run;
    var events := LargePayment();
    OneMoreEvent(contacts, [], events[0], 0);
    OneMoreEvent(contacts, [events[0]], events[1], 0);
    assert [] + [events[0]] == [events[0]] && [events[0]] + [events[1]] == events;
  }

  /** Each write of the allocation loop starts from the amount read before the loop, so an invoice ends with
      its last allocation only: the invoices are paid what they are allocated exactly when none is listed
      twice. */
  lemma {:induction false} LastWriteWins(invoices: seq<Invoice>, ls: seq<Allocation>, n: nat, x: nat)
    requires n <= |ls| && x < |invoices| && Allocated(invoices, ls, n).Ok?
    ensures Allocated(invoices, ls, n).value[x].amountPaid == invoices[x].amountPaid + LastTo(ls[..n], x)
  {
    if n > 0 {
      LastWriteWins(invoices, ls, n - 1, x);
      assert ls[..n][..n - 1] == ls[..n - 1];
    }
  }

  /** The amount of the last allocation to an invoice. */
  function LastTo(ls: seq<Allocation>, x: nat): int {
    if ls == [] then 0
    else if ls[|ls| - 1].invoice == x then ls[|ls| - 1].amount
    else LastTo(ls[..|ls| - 1], x)
  }

  ghost predicate ListedTwice(ls: seq<Allocation>, x: nat) {
    exists i, j :: 0 <= i < j < |ls| && ls[i].invoice == x && ls[j].invoice == x
  }

  lemma {:induction false} AllocatedNonnegative(ls: seq<Allocation>, x: nat)
    requires Positive(ls)
    ensures AllocatedTo(ls, x) >= if Lists(ls, x) then 1 else 0
  {
    if ls != [] { AllocatedNonnegative(ls[..|ls| - 1], x); }
  }

  lemma {:induction false} LastIsAll(ls: seq<Allocation>, x: nat)
    requires forall i :: 0 <= i < |ls| ==> 1 <= ls[i].amount
    ensures LastTo(ls, x) <= AllocatedTo(ls, x)
    ensures LastTo(ls, x) == AllocatedTo(ls, x) <==> !ListedTwice(ls, x)
  {
    if ls != [] {
      var n := |ls| - 1;
      var init := ls[..n];
      LastIsAll(init, x);
      AllocatedNonnegative(init, x);
      if ls[n].invoice == x {
        if Lists(init, x) {
          var k :| 0 <= k < n && init[k].invoice == x;
          assert ls[k].invoice == x && ls[n].invoice == x;
        } else {
          NotAllocated(init, x);
        }
      } else {
        assert ListedTwice(ls, x) <==> ListedTwice(init, x);
      }
    }
  }

  lemma {:induction false} NotAllocated(ls: seq<Allocation>, x: nat)
    requires forall k :: 0 <= k < |ls| ==> ls[k].invoice != x
    ensures AllocatedTo(ls, x) == 0
  {
    if ls != [] { NotAllocated(ls[..|ls| - 1], x); }
  }

  /** An approved payment gives an invoice what it allocates to it exactly when it lists it at most once. */
  lemma {:induction false} AllocationExact(invoices: seq<Invoice>, ls: seq<Allocation>, x: nat)
    requires x < |invoices| && Allocated(invoices, ls, |ls|).Ok?
    requires forall i :: 0 <= i < |ls| ==> 1 <= ls[i].amount
    ensures Allocated(invoices, ls, |ls|).value[x].amountPaid == invoices[x].amountPaid + AllocatedTo(ls, x)
            <==> !ListedTwice(ls, x)
  {
    hide AllocatedTo, LastTo, Allocated;
    LastWriteWins(invoices, ls, |ls|, x);
    assert ls[..|ls|] == ls;
    LastIsAll(ls, x);
  }

  /** Given accounts that take postings, an open period and approved invoices, a payment in either direction
      and at any rate is approved exactly when no more tax is withheld than is paid. */
  lemma ApprovalAccepted(d: Desk, tenant: nat, id: nat, now: int)
    requires ApproveError(d, tenant, id) == None && 0.0 <= Base(d.payments[id], d.payments[id].amount)
    requires Allocated(d.invoices, d.payments[id].allocations, |d.payments[id].allocations|).Ok?
    requires AccountingPeriods.FindActive(d.books.periods, tenant, d.payments[id].date).Ok?
    requires var p := d.payments[id];
             var ls := EntryLines(p, ControlAccount(p, d.contacts[p.contact]).value);
             forall i :: 0 <= i < |ls| ==> ChartOfAccounts.PostingError(d.books.accounts, tenant, ls[i].account) == None
    ensures var p := d.payments[id];
            Approval(d, tenant, id, now).Ok? <==> Withholds(p) ==> Base(p, p.whtAmount) <= Base(p, p.amount)
  {
    hide Allocated, Posted, AccountingPeriods.FindActive, ChartOfAccounts.PostingError, Base, EntryLines;
    var p := d.payments[id];
    var ls := EntryLines(p, ControlAccount(p, d.contacts[p.contact]).value);
    EntryBalances(p, ControlAccount(p, d.contacts[p.contact]).value);
    if OneSided(ls) {
      OneSidedAccepted(d.books.accounts, tenant, ls);
    } else if LinesError(d.books.accounts, tenant, ls) == None {
      AcceptedOneSided(d.books.accounts, tenant, ls);
    }
  }

  // ---- what a payment is stored as ----

  /** A payment above 10,000.00 waits for approval under a pending request of its own; any other is a draft without
      one. Amounts are rounded to cents and nothing is posted yet. */
  lemma CreatedIs(d: Desk, tenant: nat, dto: PaymentRequest)
    ensures var t := Created(d, tenant, dto);
            && |t.payments| == |d.payments| + 1 && t.payments[..|d.payments|] == d.payments
            && t.books == d.books && t.invoices == d.invoices
            && var p := t.payments[|d.payments|];
               && p.tenant == tenant && p.contact == dto.contact && p.ty == dto.ty && p.date == dto.date
               && p.account == dto.account && p.whtAccount == dto.whtAccount && p.entry == None
               && p.amount == Round(dto.amount) && p.whtAmount == Round(dto.whtAmount)
               && (if dto.amount > 1000000.0
                   then p.status == PendingApproval
                        && t.requests == d.requests + [ApprovalRequest(tenant, PaymentEntity, |d.payments|, Pending)]
                   else p.status == Draft && t.requests == d.requests)
  {
    hide Round, StoredAllocations;
  }

  lemma {:induction false} AllocationStored(ls: seq<AllocationRequest>, k: nat)
    requires k < |ls|
    ensures StoredAllocations(ls)[k] == Allocation(ls[k].invoice, Round(ls[k].amount))
  {
    hide Round;
    if k < |ls| - 1 { AllocationStored(ls[..|ls| - 1], k); }
  }

  /** A stored rate is what it was to within half a millionth; none, or a rate of zero, is stored as none. */
  lemma RateStored(tenant: nat, dto: PaymentRequest)
    ensures var rate := StoredPayment(tenant, dto).rate;
            && (rate == None <==> dto.rate == None || dto.rate == Some(0.0))
            && (rate.Some? ==> -0.5 <= rate.value as real - dto.rate.value * 1000000.0 <= 0.5)
  {
    hide StoredAllocations;
  }

  /** A decision is the one that was asked for, changes no other request, and in case of a rejection puts the payment
      back to draft and touches no other. */
  lemma DecisionIs(d: Desk, tenant: nat, r: nat, now: int)
    requires r < |d.requests| && d.requests[r].tenant == tenant && d.requests[r].status == Pending
    ensures var t := Next(d, Event.ApproveRequest(tenant, r, now));
            t.requests == d.requests[r := d.requests[r].(status := Accepted)]
    ensures var t, q := Next(d, Event.RejectRequest(tenant, r)), d.requests[r];
            && t.requests == d.requests[r := q.(status := Rejected)] && t.invoices == d.invoices && t.books == d.books
            && t.payments == if q.ty == PaymentEntity && q.entity < |d.payments|
                             then d.payments[q.entity := d.payments[q.entity].(status := Draft)] else d.payments
  {
    hide CreateError, Posted, EntryLines, Allocated;
  }

  /** Requests of other tenants and decided ones are refused. */
  lemma RequestRefused(d: Desk, tenant: nat, r: nat)
    ensures RequestError(d, tenant, r)
            == if r >= |d.requests| || d.requests[r].tenant != tenant then Some(NoRequest)
               else if d.requests[r].status in [Accepted, Rejected] then Some(AlreadyDecided)
               else None
  {
  }
}
