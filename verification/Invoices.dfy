/** Creating and approving invoices (invoices.service.ts). */
module Invoices {
  import opened Schema
  import opened Money
  import opened JournalEntries
  import Inventory
  import ChartOfAccounts
  import AccountingPeriods
  import GeneralLedger
  import LedgerBooks

  // ---- creation ----

  /** A requested line: price in cents, tax in percent, nothing negative. */
  datatype LineRequest = LineRequest(quantity: real, unitPrice: real, taxRate: real, account: nat,
                                     location: Option<Location>)

  function BeforeTax(l: LineRequest): real { l.quantity * l.unitPrice }

  function Tax(l: LineRequest): real { BeforeTax(l) * (l.taxRate / 100.0) }

  function LineTotal(l: LineRequest): real { BeforeTax(l) + Tax(l) }

  function SubTotal(ls: seq<LineRequest>): real {
    if ls == [] then 0.0 else SubTotal(ls[..|ls| - 1]) + BeforeTax(ls[|ls| - 1])
  }

  function TaxTotal(ls: seq<LineRequest>): real {
    if ls == [] then 0.0 else TaxTotal(ls[..|ls| - 1]) + Tax(ls[|ls| - 1])
  }

  function StoredLines(ls: seq<LineRequest>): (rows: seq<InvoiceLine>)
    ensures |rows| == |ls|
  {
    if ls == [] then []
    else
      var l := ls[|ls| - 1];
      StoredLines(ls[..|ls| - 1])
      + [InvoiceLine(Round(l.quantity * 100.0), Round(LineTotal(l)), l.account, l.location)]
  }

  /** A missing or zero exchange rate is stored as none. */
  function StoredRate(rate: Option<real>): Option<int> {
    if rate.None? || rate.value == 0.0 then None else Some(Round(rate.value * 1000000.0))
  }

  function Created(tenant: nat, contact: nat, ty: InvoiceType, date: int, rate: Option<real>, ls: seq<LineRequest>)
    : Invoice
  {
    Invoice(tenant, contact, ty, Draft, date, StoredRate(rate), Round(SubTotal(ls) + TaxTotal(ls)), 0,
            StoredLines(ls), None)
  }

  method Create(db: Database, tenant: nat, contact: nat, ty: InvoiceType, date: int, rate: Option<real>,
                ls: seq<LineRequest>) returns (id: nat)
    modifies db`invoices
    ensures id == |old(db.invoices)|
    ensures db.invoices == old(db.invoices) + [Created(tenant, contact, ty, date, rate, ls)]
  {
    hide BeforeTax, Tax, LineTotal;
    var subTotal, taxTotal := 0.0, 0.0;
    var rows := [];
    for i := 0 to |ls|
      invariant subTotal == SubTotal(ls[..i]) && taxTotal == TaxTotal(ls[..i])
      invariant rows == StoredLines(ls[..i])
    {
      var l := ls[i];
      assert ls[..i + 1][..i] == ls[..i];
      subTotal := subTotal + BeforeTax(l);
      taxTotal := taxTotal + Tax(l);
      rows := rows + [InvoiceLine(Round(l.quantity * 100.0), Round(LineTotal(l)), l.account, l.location)];
    }
    assert ls[..|ls|] == ls;
    id := |db.invoices|;
    db.invoices := db.invoices
                   + [Invoice(tenant, contact, ty, Draft, date, StoredRate(rate), Round(subTotal + taxTotal), 0,
                              rows, None)];
  }

  function SumTotals(lines: seq<InvoiceLine>): int {
    if lines == [] then 0 else SumTotals(lines[..|lines| - 1]) + lines[|lines| - 1].total
  }

  // ---- approval ----

  function Rate(inv: Invoice): real {
    if inv.rate.Some? then inv.rate.value as real / 1000000.0 else 1.0
  }

  /** An amount of the invoice, converted at its rate. */
  function Base(inv: Invoice, amount: int): real {
    amount as real * Rate(inv)
  }

  /** Invoices that debit the receivable; the other two types credit the payable. */
  predicate IsSales(ty: InvoiceType) {
    ty == SalesInvoice || ty == DebitNote
  }

  function ControlAccount(inv: Invoice, contact: Contact): Option<nat> {
    if IsSales(inv.ty) then contact.receivable else contact.payable
  }

  function DebitLine(account: nat, amount: real): LineInput { LineInput(account, amount, 0.0) }

  function CreditLine(account: nat, amount: real): LineInput { LineInput(account, 0.0, amount) }

  /** The stock and the entry lines while an approval is under way. */
  datatype Work = Work(stock: Stock, ls: seq<LineInput>)

  /** The line that balances the control account: a credit on sales and debit notes, else a debit. */
  function OwnLine(inv: Invoice, line: InvoiceLine): LineInput {
    var base := Base(inv, line.total);
    if IsSales(inv.ty) then CreditLine(line.account, base) else DebitLine(line.account, base)
  }

  /** What a sale moves from inventory to cost of goods sold, if the item has both accounts. */
  function CogsLines(item: Item, cogs: real): seq<LineInput> {
    if item.cogsAccount.Some? && item.inventoryAccount.Some?
    then [DebitLine(item.cogsAccount.value, cogs), CreditLine(item.inventoryAccount.value, cogs)]
    else []
  }

  /** One invoice line: its stock movement, if it has one, and its entry lines. Only purchase and sales
      invoices move stock. */
  function LineWork(w: Work, inv: Invoice, line: InvoiceLine): Result<Work> {
    var quantity := (100 * line.quantity) as real;
    if inv.ty == PurchaseInvoice && line.location.Some? then
      var at := line.location.value;
      var error := Inventory.InwardError(w.stock, at.item, quantity);
      if error.Some? then Err(error.value)
      else Ok(Work(Inventory.Received(w.stock, at.item, at.warehouse, quantity, Base(inv, line.total)),
                   w.ls + [OwnLine(inv, line)]))
    else if inv.ty == SalesInvoice && line.location.Some? then
      var at := line.location.value;
      var error := Inventory.OutwardError(w.stock, at.item, at.warehouse, quantity);
      if error.Some? then Err(error.value)
      else
        var item := w.stock.items[at.item];
        Ok(Work(Inventory.Sold(w.stock, at.item, at.warehouse, quantity),
                w.ls + CogsLines(item, Inventory.Cogs(item, quantity)) + [OwnLine(inv, line)]))
    else Ok(w.(ls := w.ls + [OwnLine(inv, line)]))
  }

  function ControlLine(inv: Invoice, control: nat): LineInput {
    var base := Base(inv, inv.total);
    if IsSales(inv.ty) then DebitLine(control, base) else CreditLine(control, base)
  }

  /** The stock and the entry after the first n invoice lines. */
  function Built(s: Stock, inv: Invoice, control: nat, n: nat): Result<Work>
    requires n <= |inv.lines|
  {
    if n == 0 then Ok(Work(s, [ControlLine(inv, control)]))
    else
      match Built(s, inv, control, n - 1)
      case Err(e) => Err(e)
      case Ok(w) => LineWork(w, inv, inv.lines[n - 1])
  }

  /** Why an approval is refused before its transaction. */
  function ApproveError(invoices: seq<Invoice>, contacts: seq<Contact>, tenant: nat, id: nat): (e: Option<Error>)
    ensures e.None? ==> id < |invoices| && invoices[id].contact < |contacts|
                        && ControlAccount(invoices[id], contacts[invoices[id].contact]).Some?
  {
    if id >= |invoices| || invoices[id].tenant != tenant || invoices[id].contact >= |contacts| then Some(NoInvoice)
    else if invoices[id].status !in [Draft, PendingApproval] then Some(NotApprovable)
    else if ControlAccount(invoices[id], contacts[invoices[id].contact]).None? then Some(NoControlAccount)
    else None
  }

  /** The documents, the stock and the books of one database. */
  datatype Office = Office(books: Books, stock: Stock, contacts: seq<Contact>, invoices: seq<Invoice>)

  function ApprovedOffice(o: Office, tenant: nat, id: nat, now: int): Result<Office> {
    var error := ApproveError(o.invoices, o.contacts, tenant, id);
    if error.Some? then Err(error.value)
    else
      var inv := o.invoices[id];
      var control := ControlAccount(inv, o.contacts[inv.contact]).value;
      match Built(o.stock, inv, control, |inv.lines|)
      case Err(e) => Err(e)
      case Ok(w) =>
        var refused := CreateError(o.books, tenant, inv.date, w.ls);
        if refused.Some? then Err(refused.value)
        else Ok(Office(Posted(o.books, tenant, inv.date, w.ls, now), w.stock, o.contacts,
                       o.invoices[id := inv.(status := Approved, entry := Some(|o.books.entries|))]))
  }

  function OfficeOf(db: Database): Office
    reads db
  {
    Office(db.Ledger(), db.Inventory(), db.contacts, db.invoices)
  }

  /** The approval transaction: stock is moved line by line while the entry is put together; whatever is
      refused on the way rolls everything back. */
  method Approve(db: Database, tenant: nat, id: nat, now: int) returns (r: Result<()>)
    modifies db`items, db`balances, db`movements, db`entries, db`lines, db`invoices
    ensures match ApprovedOffice(old(OfficeOf(db)), tenant, id, now)
            case Err(e) => r == Err(e) && OfficeOf(db) == old(OfficeOf(db))
            case Ok(o) => r == Ok(()) && OfficeOf(db) == o
  {
    hide LineWork, ApproveError, CreateError, Posted;
    var error := ApproveError(db.invoices, db.contacts, tenant, id);
    if error.Some? {
      return Err(error.value);
    }
    ghost var before := OfficeOf(db);
    var items, balances, movements := db.items, db.balances, db.movements;
    var inv := db.invoices[id];
    var control := ControlAccount(inv, db.contacts[inv.contact]).value;
    var jeLines := [ControlLine(inv, control)];
    for i := 0 to |inv.lines|
      invariant Built(before.stock, inv, control, i) == Ok(Work(db.Inventory(), jeLines))
      invariant db.Ledger() == before.books && db.invoices == before.invoices
    {
      var line := inv.lines[i];
      var moved := ProcessLine(db, inv, line, jeLines);
      if moved.Err? {
        BuiltFails(before.stock, inv, control, i + 1);
        db.items, db.balances, db.movements := items, balances, movements;
        return Err(moved.error);
      }
      jeLines := moved.value;
    }
    var entry := JournalEntries.Create(db, tenant, inv.date, jeLines, now);
    if entry.Err? {
      db.items, db.balances, db.movements := items, balances, movements;
      return Err(entry.error);
    }
    db.invoices := db.invoices[id := inv.(status := Approved, entry := Some(entry.value))];
    r := Ok(());
  }

  /** The body of the approval loop: the lines pushed for one invoice line. */
  method ProcessLine(db: Database, inv: Invoice, line: InvoiceLine, jeLines: seq<LineInput>)
    returns (r: Result<seq<LineInput>>)
    modifies db`items, db`balances, db`movements
    ensures match LineWork(Work(old(db.Inventory()), jeLines), inv, line)
            case Err(e) => r == Err(e)
            case Ok(w) => r == Ok(w.ls) && db.Inventory() == w.stock
  {
    hide Inventory.Received, Inventory.Cogs, CogsLines, OwnLine, Base;
    var quantity := (100 * line.quantity) as real;
    var pushed := jeLines;
    if inv.ty == PurchaseInvoice && line.location.Some? {
      var at := line.location.value;
      var moved := Inventory.ProcessInwardMovement(db, at.item, at.warehouse, quantity, Base(inv, line.total));
      if moved.Err? {
        return Err(moved.error);
      }
    } else if inv.ty == SalesInvoice && line.location.Some? {
      var at := line.location.value;
      var cogs := Inventory.ProcessOutwardMovement(db, at.item, at.warehouse, quantity);
      if cogs.Err? {
        return Err(cogs.error);
      }
      pushed := pushed + CogsLines(db.items[at.item], cogs.value);
    }
    pushed := pushed + [OwnLine(inv, line)];
    r := Ok(pushed);
  }

  /** An error on a line is the error of the approval. */
  lemma {:induction false} BuiltFails(s: Stock, inv: Invoice, control: nat, n: nat)
    requires n <= |inv.lines| && Built(s, inv, control, n).Err?
    ensures Built(s, inv, control, |inv.lines|) == Built(s, inv, control, n)
    decreases |inv.lines| - n
  {
    if n < |inv.lines| { BuiltFails(s, inv, control, n + 1); }
  }

  // ---- when the entry of an approval is accepted ----

  lemma {:induction false} DebitsAppend(ls: seq<LineInput>, more: seq<LineInput>)
    ensures Debits(ls + more) == Debits(ls) + Debits(more) && Credits(ls + more) == Credits(ls) + Credits(more)
  {
    if more == [] {
      assert ls + more == ls;
    } else {
      DebitsAppend(ls, more[..|more| - 1]);
      assert (ls + more)[..|ls + more| - 1] == ls + more[..|more| - 1];
    }
  }

  lemma OneLine(l: LineInput)
    ensures Debits([l]) == l.debit && Credits([l]) == l.credit
  {
    assert [l][..0] == [];
  }

  /** Debits minus credits on the side of the invoice's control account. */
  function Signed(ls: seq<LineInput>, ty: InvoiceType): real {
    if IsSales(ty) then Debits(ls) - Credits(ls) else Credits(ls) - Debits(ls)
  }

  /** Each line moves the entry by its own total at the invoice's rate; a cost of goods pair moves nothing. */
  lemma LineSigned(w: Work, inv: Invoice, line: InvoiceLine)
    requires LineWork(w, inv, line).Ok?
    ensures Signed(LineWork(w, inv, line).value.ls, inv.ty)
            == Signed(w.ls, inv.ty) - line.total as real * Rate(inv)
    ensures |LineWork(w, inv, line).value.ls| > |w.ls|
  {
    hide Inventory.Received, Inventory.Sold, Inventory.Cogs, Rate, CogsLines, Debits, Credits;
    OneLine(OwnLine(inv, line));
    if inv.ty == SalesInvoice && line.location.Some? {
      var item := w.stock.items[line.location.value.item];
      var cogs := CogsLines(item, Inventory.Cogs(item, (100 * line.quantity) as real));
      CogsBalance(item, Inventory.Cogs(item, (100 * line.quantity) as real));
      DebitsAppend(w.ls, cogs);
      DebitsAppend(w.ls + cogs, [OwnLine(inv, line)]);
    } else {
      DebitsAppend(w.ls, [OwnLine(inv, line)]);
    }
  }

  lemma CogsBalance(item: Item, cogs: real)
    ensures Debits(CogsLines(item, cogs)) == Credits(CogsLines(item, cogs))
  {
    var pair := CogsLines(item, cogs);
    if pair != [] {
      OneLine(pair[0]);
      assert pair[..1] == [pair[0]];
    }
  }

  lemma {:induction false} BuiltSigned(s: Stock, inv: Invoice, control: nat, n: nat)
    requires n <= |inv.lines| && Built(s, inv, control, n).Ok?
    ensures var ls := Built(s, inv, control, n).value.ls;
            && Signed(ls, inv.ty) == (inv.total - SumTotals(inv.lines[..n])) as real * Rate(inv)
            && |ls| >= n + 1
  {
    hide LineWork, Rate;
    if n == 0 {
      OneLine(ControlLine(inv, control));
    } else {
      BuiltSigned(s, inv, control, n - 1);
      LineSigned(Built(s, inv, control, n - 1).value, inv, inv.lines[n - 1]);
      assert inv.lines[..n][..n - 1] == inv.lines[..n - 1];
      Distribute(inv.total - SumTotals(inv.lines[..n - 1]), inv.lines[n - 1].total, Rate(inv));
    }
  }

  lemma Distribute(a: int, b: int, rate: real)
    ensures a as real * rate - b as real * rate == (a - b) as real * rate
  {
  }

  /** The entry of an approval balances exactly when the stored line totals add up to the stored total, or
      everything is converted at rate zero. */
  lemma {:induction false} EntryBalances(s: Stock, inv: Invoice, control: nat)
    requires Built(s, inv, control, |inv.lines|).Ok?
    ensures var ls := Built(s, inv, control, |inv.lines|).value.ls;
            Debits(ls) == Credits(ls) <==> SumTotals(inv.lines) == inv.total || Rate(inv) == 0.0
  {
    hide Built, Rate;
    BuiltSigned(s, inv, control, |inv.lines|);
    assert inv.lines[..|inv.lines|] == inv.lines;
    ZeroProduct(inv.total - SumTotals(inv.lines), Rate(inv));
  }

  lemma ZeroProduct(a: int, rate: real)
    ensures a as real * rate == 0.0 <==> a == 0 || rate == 0.0
  {
  }

  /** The converted line totals as they are stored, and what storing cuts from them, taken together. */
  function RoundedTotals(inv: Invoice, lines: seq<InvoiceLine>): int {
    if lines == [] then 0
    else RoundedTotals(inv, lines[..|lines| - 1]) + Round(Base(inv, lines[|lines| - 1].total))
  }

  function Cut(inv: Invoice, lines: seq<InvoiceLine>): real {
    if lines == [] then 0.0
    else
      var base := Base(inv, lines[|lines| - 1].total);
      Cut(inv, lines[..|lines| - 1]) + (base - Round(base) as real)
  }

  lemma {:induction false} CutIs(inv: Invoice, lines: seq<InvoiceLine>)
    ensures Cut(inv, lines) == Base(inv, SumTotals(lines)) - RoundedTotals(inv, lines) as real
  {
    hide Round, Rate;
    if lines != [] {
      CutIs(inv, lines[..|lines| - 1]);
      Distribute(SumTotals(lines), lines[|lines| - 1].total, Rate(inv));
    }
  }

  /** A line stores its own converted total; a cost of goods pair rounds the same way on both sides. */
  lemma LineStored(w: Work, inv: Invoice, line: InvoiceLine)
    requires LineWork(w, inv, line).Ok?
    ensures var own := Round(Base(inv, line.total));
            Net(Stored(LineWork(w, inv, line).value.ls, 0, 0, 0))
            == Net(Stored(w.ls, 0, 0, 0)) + if IsSales(inv.ty) then -own else own
  {
    hide Inventory.Received, Inventory.Sold, Inventory.Cogs, Stored, Net, Round, Base;
    var own := OwnLine(inv, line);
    RoundWhole(0);
    StoredAppend(w.ls, own);
    if inv.ty == SalesInvoice && line.location.Some? {
      var item := w.stock.items[line.location.value.item];
      var pair := CogsLines(item, Inventory.Cogs(item, (100 * line.quantity) as real));
      if pair != [] {
        StoredAppend(w.ls, pair[0]);
        StoredAppend(w.ls + [pair[0]], pair[1]);
        assert w.ls + pair == w.ls + [pair[0]] + [pair[1]];
      } else {
        assert w.ls + pair == w.ls;
      }
      StoredAppend(w.ls + pair, own);
    }
  }

  lemma {:induction false} BuiltStored(s: Stock, inv: Invoice, control: nat, n: nat)
    requires n <= |inv.lines| && Built(s, inv, control, n).Ok?
    ensures Net(Stored(Built(s, inv, control, n).value.ls, 0, 0, 0))
            == (Round(Base(inv, inv.total)) - RoundedTotals(inv, inv.lines[..n])) * if IsSales(inv.ty) then 1 else -1
  {
    hide LineWork, Stored, Net, Round, Base;
    if n == 0 {
      RoundWhole(0);
      NothingStored();
      StoredAppend([], ControlLine(inv, control));
      assert [] + [ControlLine(inv, control)] == [ControlLine(inv, control)];
    } else {
      BuiltStored(s, inv, control, n - 1);
      LineStored(Built(s, inv, control, n - 1).value, inv, inv.lines[n - 1]);
      assert inv.lines[..n][..n - 1] == inv.lines[..n - 1];
    }
  }

  /** If the line totals add up to the total, what storing cuts from them, taken together, is itself rounded away.
      An invoice without a rate always qualifies. */
  predicate RoundsTogether(inv: Invoice) {
    SumTotals(inv.lines) == inv.total ==>
      if 0.0 <= Base(inv, inv.total) then -0.5 <= Cut(inv, inv.lines) < 0.5 else -0.5 < Cut(inv, inv.lines) <= 0.5
  }

  /** The entry, if balanced as submitted, is stored balanced exactly then, for all four types, any rate and
      fractional costs of goods. */
  lemma {:induction false} EntryStoredBalanced(s: Stock, inv: Invoice, control: nat)
    requires Built(s, inv, control, |inv.lines|).Ok?
    ensures var ls := Built(s, inv, control, |inv.lines|).value.ls;
            && (RoundsTogether(inv) ==> KeepsBalance(ls))
            && (SoundStock(s) && Nonnegative(inv) && KeepsBalance(ls) ==> RoundsTogether(inv))
  {
    hide Built, Stored, Net, Base, Rate, Cut, RoundedTotals, SumTotals, Debits, Credits, Round, SoundStock, Nonnegative;
    var ls := Built(s, inv, control, |inv.lines|).value.ls;
    BuiltStored(s, inv, control, |inv.lines|);
    EntryBalances(s, inv, control);
    assert inv.lines[..|inv.lines|] == inv.lines;
    CutIs(inv, inv.lines);
    RoundsTo(Base(inv, inv.total), RoundedTotals(inv, inv.lines));
    if SumTotals(inv.lines) != inv.total && Rate(inv) == 0.0 { NothingAtRateZero(inv, inv.lines); }
    if SoundStock(s) && Nonnegative(inv) { BuiltSound(s, inv, control, |inv.lines|); }
  }

  lemma {:induction false} NothingAtRateZero(inv: Invoice, lines: seq<InvoiceLine>)
    requires Rate(inv) == 0.0
    ensures RoundedTotals(inv, lines) == 0 && Round(Base(inv, inv.total)) == 0
  {
    hide Round, Rate;
    RoundWhole(0);
    if lines != [] { NothingAtRateZero(inv, lines[..|lines| - 1]); }
  }

  lemma {:induction false} PlainRoundsTogether(inv: Invoice)
    requires inv.rate.None?
    ensures RoundsTogether(inv)
  {
    NothingCut(inv, inv.lines);
  }

  lemma {:induction false} NothingCut(inv: Invoice, lines: seq<InvoiceLine>)
    requires inv.rate.None?
    ensures Cut(inv, lines) == 0.0
  {
    hide Round;
    if lines != [] {
      NothingCut(inv, lines[..|lines| - 1]);
      RoundWhole(lines[|lines| - 1].total);
      assert Base(inv, lines[|lines| - 1].total) == lines[|lines| - 1].total as real;
    }
  }

  /** With a rate it need not be: at 1.5 two lines of one cent under a total of two are stored as two cents each
      against three. */
  lemma {:induction false} RateCanOpenACent(s: Stock, account: nat, control: nat, now: int)
    ensures var line := InvoiceLine(100, 1, account, None);
            var inv := Invoice(0, 0, SalesInvoice, Draft, now, Some(1500000), 2, 0, [line, line], None);
            var built := Built(s, inv, control, 2);
            built.Ok? && Debits(built.value.ls) == Credits(built.value.ls) && Net(Stored(built.value.ls, 0, 0, 0)) == -1
  {
    hide Debits, Credits, Net, Stored, Round;
    var line := InvoiceLine(100, 1, account, None);
    var inv := Invoice(0, 0, SalesInvoice, Draft, now, Some(1500000), 2, 0, [line, line], None);
    assert inv.lines[..2] == inv.lines && inv.lines[..1] == [line] && inv.lines[..1][..0] == [];
    assert Rate(inv) == 1.5 && Base(inv, 1) == 1.5 && Base(inv, 2) == 3.0;
    assert Built(s, inv, control, 0).Ok? && Built(s, inv, control, 1).Ok? && Built(s, inv, control, 2).Ok?;
    TwoHalves();
    TwoLines(inv, line);
    assert SumTotals(inv.lines) == 2 && RoundedTotals(inv, inv.lines) == 4;
    BuiltStored(s, inv, control, 2);
    EntryBalances(s, inv, control);
  }

  lemma {:induction false} TwoLines(inv: Invoice, line: InvoiceLine)
    ensures SumTotals([line, line]) == 2 * line.total
    ensures RoundedTotals(inv, [line, line]) == 2 * Round(Base(inv, line.total))
  {
    hide Round, Base, SumTotals, RoundedTotals;
    OneMoreTotal(inv, [], line);
    OneMoreTotal(inv, [line], line);
    assert [] + [line] == [line] && [line] + [line] == [line, line];
  }

  lemma {:induction false} OneMoreTotal(inv: Invoice, lines: seq<InvoiceLine>, line: InvoiceLine)
    ensures SumTotals([]) == 0 && SumTotals(lines + [line]) == SumTotals(lines) + line.total
    ensures RoundedTotals(inv, []) == 0
    ensures RoundedTotals(inv, lines + [line]) == RoundedTotals(inv, lines) + Round(Base(inv, line.total))
  {
    hide Round, Base;
    assert (lines + [line])[..|lines|] == lines;
  }

  lemma TwoHalves()
    ensures Round(1.5) == 2 && Round(3.0) == 3
  {
  }

  // ---- what an approval does to every account ----

  /** An amount of the invoice in base currency, rounded to cents. */
  function Cents(inv: Invoice, amount: int): int {
    Round(if inv.rate.Some? then amount as real * (inv.rate.value as real / 1000000.0) else amount as real)
  }

  /** The first n lines, on one account: each line's total on the account it names, against the control account; and
      for stock that a sales invoice takes out, its quantity at the average cost, onto the item's account for cost of
      goods and off its inventory account, if it has both. */
  function LinesMove(s: Stock, inv: Invoice, account: nat, n: nat): int
    requires n <= |inv.lines|
  {
    if n == 0 then 0
    else
      var line := inv.lines[n - 1];
      LinesMove(s, inv, account, n - 1)
      + (if line.account != account then 0
         else if inv.ty in [SalesInvoice, DebitNote] then -Cents(inv, line.total)
         else Cents(inv, line.total))
      + if inv.ty != SalesInvoice || line.location.None? then 0 else CostMove(s, line, account)
  }

  function CostMove(s: Stock, line: InvoiceLine, account: nat): int
    requires line.location.Some?
  {
    if line.location.value.item >= |s.items| then 0
    else
      var item := s.items[line.location.value.item];
      var cost := Round(item.average as real * (line.quantity as real / 100.0));
      if item.cogsAccount.None? || item.inventoryAccount.None? then 0
      else (if item.cogsAccount == Some(account) then cost else 0)
           - (if item.inventoryAccount == Some(account) then cost else 0)
  }

  /** The whole invoice on its control account: receivables rise on sales invoices and debit notes, payables on
      purchase invoices and credit notes. */
  function ControlMove(inv: Invoice): int {
    if inv.ty in [SalesInvoice, DebitNote] then Cents(inv, inv.total) else -Cents(inv, inv.total)
  }

  lemma CentsOfBase(inv: Invoice, amount: int)
    ensures Cents(inv, amount) == Round(Base(inv, amount))
  {
    assert inv.rate.None? ==> Base(inv, amount) == amount as real;
  }

  lemma CostOfGoods(item: Item, quantity: int)
    ensures Inventory.Cogs(item, (100 * quantity) as real) == item.average as real * (quantity as real / 100.0)
  {
    assert (100 * quantity) as real / 10000.0 == quantity as real / 100.0;
  }

  /** Approving a sales invoice does not change its items. */
  lemma {:induction false} ItemsStay(s: Stock, inv: Invoice, control: nat, n: nat)
    requires n <= |inv.lines| && Built(s, inv, control, n).Ok? && inv.ty == SalesInvoice
    ensures Built(s, inv, control, n).value.stock.items == s.items
  {
    hide Inventory.Upserted, Inventory.Cogs, CogsLines, OwnLine;
    if n > 0 { ItemsStay(s, inv, control, n - 1); }
  }

  lemma LineMoves(s: Stock, w: Work, inv: Invoice, account: nat, k: nat)
    requires k < |inv.lines| && LineWork(w, inv, inv.lines[k]).Ok?
    requires inv.ty == SalesInvoice ==> w.stock.items == s.items
    ensures LedgerBooks.Moved(LineWork(w, inv, inv.lines[k]).value.ls, account) - LedgerBooks.Moved(w.ls, account)
            == LinesMove(s, inv, account, k + 1) - LinesMove(s, inv, account, k)
  {
    hide LedgerBooks.Moved, Round, Base, Cents, CogsLines, Inventory.Cogs, Inventory.Received, Inventory.Sold;
    var line := inv.lines[k];
    var own := OwnLine(inv, line);
    RoundWhole(0);
    CentsOfBase(inv, line.total);
    LedgerBooks.MovedAppend(w.ls, own, account);
    if inv.ty == SalesInvoice && line.location.Some? {
      var item := w.stock.items[line.location.value.item];
      CostOfGoods(item, line.quantity);
      var cogs := Inventory.Cogs(item, (100 * line.quantity) as real);
      PairMoves(w.ls, item, cogs, account);
      LedgerBooks.MovedAppend(w.ls + CogsLines(item, cogs), own, account);
    }
  }

  lemma {:induction false} PairMoves(ls: seq<LineInput>, item: Item, cogs: real, account: nat)
    ensures LedgerBooks.Moved(ls + CogsLines(item, cogs), account) - LedgerBooks.Moved(ls, account)
            == if item.cogsAccount.None? || item.inventoryAccount.None? then 0
               else (if item.cogsAccount == Some(account) then Round(cogs) else 0)
                    - (if item.inventoryAccount == Some(account) then Round(cogs) else 0)
  {
    hide LedgerBooks.Moved, Round;
    RoundWhole(0);
    var pair := CogsLines(item, cogs);
    if pair != [] {
      LedgerBooks.MovedAppend(ls, pair[0], account);
      LedgerBooks.MovedAppend(ls + [pair[0]], pair[1], account);
      assert ls + pair == ls + [pair[0]] + [pair[1]];
    } else {
      assert ls + pair == ls;
    }
  }

  /** An approval moves any account by exactly its share of the control line, the invoice lines and the costs of
      goods, whatever roles the account has. */
  lemma {:induction false} EntryMoves(s: Stock, inv: Invoice, control: nat, account: nat, n: nat)
    requires n <= |inv.lines| && Built(s, inv, control, n).Ok?
    ensures LedgerBooks.Moved(Built(s, inv, control, n).value.ls, account)
            == (if account == control then ControlMove(inv) else 0) + LinesMove(s, inv, account, n)
  {
    hide LineWork, Base, Cents, Round, LedgerBooks.Moved;
    if n == 0 {
      RoundWhole(0);
      CentsOfBase(inv, inv.total);
      LedgerBooks.NothingMoved(account);
      LedgerBooks.MovedAppend([], ControlLine(inv, control), account);
      assert [] + [ControlLine(inv, control)] == [ControlLine(inv, control)];
    } else {
      EntryMoves(s, inv, control, account, n - 1);
      if inv.ty == SalesInvoice { ItemsStay(s, inv, control, n - 1); }
      LineMoves(s, Built(s, inv, control, n - 1).value, inv, account, n - 1);
    }
  }

  /** An account that none of the invoice's lines and items posts to. */
  ghost predicate OtherAccounts(s: Stock, inv: Invoice, account: nat) {
    forall i :: 0 <= i < |inv.lines| ==>
      && inv.lines[i].account != account
      && (inv.lines[i].location.Some? && inv.lines[i].location.value.item < |s.items| ==>
            var item := s.items[inv.lines[i].location.value.item];
            item.cogsAccount != Some(account) && item.inventoryAccount != Some(account))
  }

  /** Such an account does not move unless it is the control account. */
  lemma {:induction false} OthersStay(s: Stock, inv: Invoice, account: nat, n: nat)
    requires n <= |inv.lines| && OtherAccounts(s, inv, account)
    ensures LinesMove(s, inv, account, n) == 0
  {
    hide Cents, Round;
    if n > 0 { OthersStay(s, inv, account, n - 1); }
  }

  /** An approved invoice is posted against the receivable account of its contact if it is a sales invoice or debit
      note and against the payable account otherwise, which the contact then has; every account moves by its share, in
      exactly the windows that cover the invoice's date. */
  lemma {:induction false} ApprovalMoves(o: Office, tenant: nat, id: nat, now: int, reader: nat,
                                         w: GeneralLedger.Window, account: nat)
    requires LedgerBooks.Linked(o.books) && ApprovedOffice(o, tenant, id, now).Ok?
    ensures id < |o.invoices| && o.invoices[id].contact < |o.contacts|
    ensures var inv := o.invoices[id];
            var contact := o.contacts[inv.contact];
            var field := if inv.ty in [SalesInvoice, DebitNote] then contact.receivable else contact.payable;
            var b, t := o.books, ApprovedOffice(o, tenant, id, now).value.books;
            && field.Some?
            && GeneralLedger.AccountNet(t.entries, t.lines, reader, w, account)
               == GeneralLedger.AccountNet(b.entries, b.lines, reader, w, account)
                  + if reader != tenant || !GeneralLedger.Within(w, inv.date) then 0
                    else (if field == Some(account) then ControlMove(inv) else 0)
                         + LinesMove(o.stock, inv, account, |inv.lines|)
  {
    hide CreateError, Posted, Built, LinesMove, ControlMove, LedgerBooks.Linked, LedgerBooks.Moved,
         GeneralLedger.Within,
         GeneralLedger.AccountNet;
    var inv := o.invoices[id];
    var control := ControlAccount(inv, o.contacts[inv.contact]).value;
    var ls := Built(o.stock, inv, control, |inv.lines|).value.ls;
    EntryMoves(o.stock, inv, control, account, |inv.lines|);
    LedgerBooks.PostMoves(o.books, tenant, inv.date, ls, now, reader, w, account);
  }

  /** An approval marks its invoice as approved by the entry it posts, and changes no other document. */
  lemma ApprovalMarks(o: Office, tenant: nat, id: nat, now: int)
    requires ApprovedOffice(o, tenant, id, now).Ok?
    ensures id < |o.invoices| && o.invoices[id].status in [Draft, PendingApproval]
    ensures var t := ApprovedOffice(o, tenant, id, now).value;
            && t.invoices == o.invoices[id := o.invoices[id].(status := Approved, entry := Some(|o.books.entries|))]
            && t.contacts == o.contacts && |t.books.entries| == |o.books.entries| + 1
            && t.books.entries[|o.books.entries|].tenant == tenant
            && t.books.entries[|o.books.entries|].date == o.invoices[id].date
  {
    hide Built, CreateError;
  }

  /** An approval is refused for want of a control account exactly when the invoice is there to be approved and its
      contact lacks the account of its side. */
  lemma NoControlAccountExactly(o: Office, tenant: nat, id: nat, now: int)
    ensures ApprovedOffice(o, tenant, id, now) == Err(NoControlAccount)
            <==> && id < |o.invoices| && o.invoices[id].tenant == tenant && o.invoices[id].contact < |o.contacts|
                 && o.invoices[id].status in [Draft, PendingApproval]
                 && (if o.invoices[id].ty in [SalesInvoice, DebitNote]
                     then o.contacts[o.invoices[id].contact].receivable.None?
                     else o.contacts[o.invoices[id].contact].payable.None?)
  {
    hide Posted, Built, CreateError;
    if ApproveError(o.invoices, o.contacts, tenant, id) == None {
      var inv := o.invoices[id];
      var control := ControlAccount(inv, o.contacts[inv.contact]).value;
      BuiltErrors(o.stock, inv, control, |inv.lines|);
      if Built(o.stock, inv, control, |inv.lines|).Ok? {
        PostingErrors(o.books, tenant, inv.date, Built(o.stock, inv, control, |inv.lines|).value.ls);
      }
    }
  }

  lemma {:induction false} BuiltErrors(s: Stock, inv: Invoice, control: nat, n: nat)
    requires n <= |inv.lines|
    ensures Built(s, inv, control, n) != Err(NoControlAccount)
  {
    hide Inventory.Received, Inventory.Sold, Inventory.Cogs, Inventory.Available, Inventory.OnHand, CogsLines, OwnLine;
    if n > 0 { BuiltErrors(s, inv, control, n - 1); }
  }

  /** Nothing on a stored invoice is negative, which the request limits guarantee. */
  ghost predicate Nonnegative(inv: Invoice) {
    && 0 <= inv.total && (inv.rate.Some? ==> 0 <= inv.rate.value)
    && forall i :: 0 <= i < |inv.lines| ==> 0 <= inv.lines[i].total && 0 <= inv.lines[i].quantity
  }

  ghost predicate SoundStock(s: Stock) {
    Inventory.Inv(s) && Inventory.Valued(s)
  }

  lemma BaseNonnegative(inv: Invoice, amount: int)
    requires Nonnegative(inv) && 0 <= amount
    ensures 0.0 <= Base(inv, amount)
  {
  }

  lemma CogsNonnegative(item: Item, quantity: real)
    requires 0 <= item.average && 0.0 <= quantity
    ensures 0.0 <= Inventory.Cogs(item, quantity)
  {
  }

  /** Approving line by line keeps the stock sound and the entry's lines one-sided. */
  lemma LineSound(w: Work, inv: Invoice, line: InvoiceLine)
    requires SoundStock(w.stock) && OneSided(w.ls) && Nonnegative(inv) && line in inv.lines
    requires LineWork(w, inv, line).Ok?
    ensures var w' := LineWork(w, inv, line).value;
            SoundStock(w'.stock) && OneSided(w'.ls)
  {
    hide Inventory.Received, Inventory.Inv, Inventory.Cogs, Base;
    BaseNonnegative(inv, line.total);
    var quantity := (100 * line.quantity) as real;
    if inv.ty == PurchaseInvoice && line.location.Some? {
      var at := line.location.value;
      Inventory.ReceivedKeeps(w.stock, at.item, at.warehouse, quantity, Base(inv, line.total));
      Inventory.ReceivedValued(w.stock, at.item, at.warehouse, quantity, Base(inv, line.total));
    } else if inv.ty == SalesInvoice && line.location.Some? {
      var at := line.location.value;
      Inventory.SoldKeeps(w.stock, at.item, at.warehouse, quantity);
      CogsNonnegative(w.stock.items[at.item], quantity);
    }
  }

  lemma {:induction false} BuiltSound(s: Stock, inv: Invoice, control: nat, n: nat)
    requires SoundStock(s) && Nonnegative(inv) && n <= |inv.lines| && Built(s, inv, control, n).Ok?
    ensures var w := Built(s, inv, control, n).value;
            SoundStock(w.stock) && OneSided(w.ls)
  {
    hide LineWork, SoundStock, Base;
    if n == 0 {
      BaseNonnegative(inv, inv.total);
    } else {
      BuiltSound(s, inv, control, n - 1);
      LineSound(Built(s, inv, control, n - 1).value, inv, inv.lines[n - 1]);
    }
  }

  /** Given accounts that take postings and an open period, an invoice with at least one line is approved
      exactly when its stored line totals add up to its stored total (or its rate is zero). This holds for
      all four types, any rate and any mix of stocked lines, and the stock stays sound. */
  lemma ApprovalAccepted(o: Office, tenant: nat, id: nat, now: int)
    requires ApproveError(o.invoices, o.contacts, tenant, id) == None
    requires SoundStock(o.stock) && Nonnegative(o.invoices[id]) && o.invoices[id].lines != []
    requires AccountingPeriods.FindActive(o.books.periods, tenant, o.invoices[id].date).Ok?
    requires var inv := o.invoices[id];
             var built := Built(o.stock, inv, ControlAccount(inv, o.contacts[inv.contact]).value, |inv.lines|);
             && built.Ok?
             && forall i :: 0 <= i < |built.value.ls| ==>
                  ChartOfAccounts.PostingError(o.books.accounts, tenant, built.value.ls[i].account) == None
    ensures var inv := o.invoices[id];
            ApprovedOffice(o, tenant, id, now).Ok? <==> SumTotals(inv.lines) == inv.total || Rate(inv) == 0.0
    ensures ApprovedOffice(o, tenant, id, now).Ok? ==>
              SoundStock(ApprovedOffice(o, tenant, id, now).value.stock)
              && ApprovedOffice(o, tenant, id, now).value.invoices[id].status == Approved
  {
    hide Built, Rate, SoundStock, Nonnegative, Posted, AccountingPeriods.FindActive, ChartOfAccounts.PostingError;
    var inv := o.invoices[id];
    var control := ControlAccount(inv, o.contacts[inv.contact]).value;
    var ls := Built(o.stock, inv, control, |inv.lines|).value.ls;
    BuiltSound(o.stock, inv, control, |inv.lines|);
    BuiltSigned(o.stock, inv, control, |inv.lines|);
    EntryBalances(o.stock, inv, control);
    OneSidedAccepted(o.books.accounts, tenant, ls);
  }

  // ---- what creation stores ----

  /** The line totals come out in whole cents. */
  ghost predicate WholeTotals(ls: seq<LineRequest>) {
    forall i :: 0 <= i < |ls| ==> LineTotal(ls[i]) == LineTotal(ls[i]).Floor as real
  }

  lemma {:induction false} StoredTotalsExact(ls: seq<LineRequest>)
    requires WholeTotals(ls)
    ensures SumTotals(StoredLines(ls)) as real == SubTotal(ls) + TaxTotal(ls)
  {
    hide BeforeTax, Tax;
    if ls != [] {
      StoredTotalsExact(ls[..|ls| - 1]);
      RoundWhole(LineTotal(ls[|ls| - 1]).Floor);
    }
  }

  /** What rounding cuts from the line totals, taken together. */
  function Residue(ls: seq<LineRequest>): real {
    if ls == [] then 0.0
    else
      var total := LineTotal(ls[|ls| - 1]);
      Residue(ls[..|ls| - 1]) + (total - Round(total) as real)
  }

  lemma {:induction false} ResidueIs(ls: seq<LineRequest>)
    ensures Residue(ls) == SubTotal(ls) + TaxTotal(ls) - SumTotals(StoredLines(ls)) as real
  {
    hide BeforeTax, Tax, Round;
    if ls != [] {
      ResidueIs(ls[..|ls| - 1]);
      var rows := StoredLines(ls);
      assert rows[..|rows| - 1] == StoredLines(ls[..|ls| - 1]);
    }
  }

  /** The stored line totals of a new invoice add up to its stored total exactly when what rounding cut from the
      lines, taken together, is itself rounded away. */
  lemma {:induction false} CreatedAddsUp(tenant: nat, contact: nat, ty: InvoiceType, date: int, rate: Option<real>,
                                         ls: seq<LineRequest>)
    ensures var inv := Created(tenant, contact, ty, date, rate, ls);
            SumTotals(inv.lines) == inv.total
            <==> if 0.0 <= SubTotal(ls) + TaxTotal(ls) then -0.5 <= Residue(ls) < 0.5 else -0.5 < Residue(ls) <= 0.5
  {
    hide Residue, SubTotal, TaxTotal, SumTotals, StoredLines, Round;
    ResidueIs(ls);
    RoundsTo(SubTotal(ls) + TaxTotal(ls), SumTotals(StoredLines(ls)));
  }

  lemma RoundsTo(x: real, n: int)
    ensures Round(x) == n
            <==> if 0.0 <= x then -0.5 <= x - n as real < 0.5 else -0.5 < x - n as real <= 0.5
  {
  }

  /** Whole-cent line totals always do, and so does a single line. */
  lemma {:induction false} WholeTotalsAddUp(ls: seq<LineRequest>)
    requires WholeTotals(ls) || |ls| == 1
    ensures if 0.0 <= SubTotal(ls) + TaxTotal(ls) then -0.5 <= Residue(ls) < 0.5 else -0.5 < Residue(ls) <= 0.5
  {
    hide BeforeTax, Tax, Round;
    if |ls| == 1 {
      OneLineTotals(ls);
      RoundsTo(LineTotal(ls[0]), Round(LineTotal(ls[0])));
    } else {
      StoredTotalsExact(ls);
      ResidueIs(ls);
    }
  }

  lemma {:induction false} OneLineTotals(ls: seq<LineRequest>)
    requires |ls| == 1
    ensures SubTotal(ls) + TaxTotal(ls) == LineTotal(ls[0])
    ensures Residue(ls) == LineTotal(ls[0]) - Round(LineTotal(ls[0])) as real
  {
    hide BeforeTax, Tax, Round;
    assert ls[..0] == [];
  }

  /** Two lines of half a cent do not: they are stored as a cent each under a total of one cent, and the invoice
      can never be approved. */
  lemma CreatedMayNotAddUp(tenant: nat, contact: nat, ty: InvoiceType, date: int, account: nat)
    ensures var l := LineRequest(1.0, 0.5, 0.0, account, None);
            var inv := Created(tenant, contact, ty, date, None, [l, l]);
            SumTotals(inv.lines) == 2 && inv.total == 1 && Rate(inv) == 1.0
  {
    var l := LineRequest(1.0, 0.5, 0.0, account, None);
    assert LineTotal(l) == 0.5 && BeforeTax(l) == 0.5 && Tax(l) == 0.0;
    OneMoreRequest([], l);
    OneMoreRequest([l], l);
    assert [] + [l] == [l] && [l] + [l] == [l, l];
    RoundWhole(1);
  }

  lemma {:induction false} OneMoreRequest(ls: seq<LineRequest>, l: LineRequest)
    ensures SubTotal(ls + [l]) == SubTotal(ls) + BeforeTax(l) && TaxTotal(ls + [l]) == TaxTotal(ls) + Tax(l)
    ensures SumTotals(StoredLines(ls + [l])) == SumTotals(StoredLines(ls)) + Round(LineTotal(l))
  {
    hide BeforeTax, Tax, LineTotal;
    assert (ls + [l])[..|ls|] == ls;
    var rows := StoredLines(ls + [l]);
    assert rows[..|rows| - 1] == StoredLines(ls);
  }

  // ---- what a request comes to ----

  /** A line costs its quantity times its price, with its tax rate in percent on top, and is stored in cents with its
      quantity in hundredths, on the account and for the stock it names. */
  lemma {:induction false} LineStoredAs(ls: seq<LineRequest>, k: nat)
    requires k < |ls|
    ensures var l := ls[k];
            var price := l.quantity * l.unitPrice;
            && 100.0 * LineTotal(l) == 100.0 * price + price * l.taxRate
            && StoredLines(ls)[k] == InvoiceLine(Round(l.quantity * 100.0), Round(LineTotal(l)), l.account, l.location)
  {
    hide Round;
    TaxIsPercent(ls[k]);
    if k < |ls| - 1 { LineStoredAs(ls[..|ls| - 1], k); }
  }

  lemma TaxIsPercent(l: LineRequest)
    ensures 100.0 * LineTotal(l) == 100.0 * (l.quantity * l.unitPrice) + l.quantity * l.unitPrice * l.taxRate
  {
    var price := l.quantity * l.unitPrice;
    assert 100.0 * (price * (l.taxRate / 100.0)) == price * l.taxRate;
  }

  /** The exact line totals, added up. */
  function RequestTotal(ls: seq<LineRequest>): real {
    if ls == [] then 0.0 else RequestTotal(ls[..|ls| - 1]) + LineTotal(ls[|ls| - 1])
  }

  /** A new invoice is an unpaid, unposted draft of their rounded sum. */
  lemma {:induction false} CreatedIs(tenant: nat, contact: nat, ty: InvoiceType, date: int, rate: Option<real>,
                                     ls: seq<LineRequest>)
    ensures var inv := Created(tenant, contact, ty, date, rate, ls);
            && inv.tenant == tenant && inv.contact == contact && inv.ty == ty && inv.date == date
            && inv.status == Draft && inv.amountPaid == 0 && inv.entry == None && inv.total == Round(RequestTotal(ls))
            && (inv.rate == None <==> rate == None || rate == Some(0.0))
            && (inv.rate.Some? ==> -0.5 <= inv.rate.value as real - rate.value * 1000000.0 <= 0.5)
  {
    hide StoredLines;
    RequestTotalIs(ls);
  }

  lemma {:induction false} RequestTotalIs(ls: seq<LineRequest>)
    ensures RequestTotal(ls) == SubTotal(ls) + TaxTotal(ls)
  {
    hide BeforeTax, Tax;
    if ls != [] { RequestTotalIs(ls[..|ls| - 1]); }
  }

  // ---- what an approval does to stock ----

  /** What the first n lines bring into a warehouse, or take out of it: nothing on notes. */
  function QuantityMove(inv: Invoice, item: nat, warehouse: nat, n: nat): int
    requires n <= |inv.lines|
  {
    if n == 0 then 0
    else
      var line := inv.lines[n - 1];
      QuantityMove(inv, item, warehouse, n - 1)
      + if line.location != Some(Location(item, warehouse)) then 0
        else match inv.ty
             case PurchaseInvoice => 100 * line.quantity
             case SalesInvoice => -(100 * line.quantity)
             case _ => 0
  }

  /** Purchases bring their quantities, in hundredths, into the stock they name, sales take theirs out of it, and notes
      move none. */
  lemma {:induction false} StockMoves(s: Stock, inv: Invoice, control: nat, n: nat, item: nat, warehouse: nat)
    requires n <= |inv.lines| && Built(s, inv, control, n).Ok?
    ensures Inventory.Available(Built(s, inv, control, n).value.stock.balances, item, warehouse)
            == Inventory.Available(s.balances, item, warehouse) + QuantityMove(inv, item, warehouse, n)
  {
    hide Inventory.Available, Inventory.Upserted, Inventory.Average, Inventory.UnitCost, Inventory.Cogs, CogsLines,
         OwnLine,
         Base, Inventory.OnHand;
    if n > 0 {
      StockMoves(s, inv, control, n - 1, item, warehouse);
      var w, line := Built(s, inv, control, n - 1).value, inv.lines[n - 1];
      if line.location.Some? && inv.ty in [PurchaseInvoice, SalesInvoice] {
        var at := line.location.value;
        var places := if inv.ty == PurchaseInvoice then 100 * line.quantity else -(100 * line.quantity);
        assert -((100 * line.quantity) as real) == (-(100 * line.quantity)) as real;
        Inventory.UpsertedEffect(w.stock.balances, at.item, at.warehouse, places, item, warehouse);
      }
    }
  }

  /** A purchase line is received at its converted total: quantity on hand times average cost rises by it to within
      half a cent per unit on hand. */
  lemma PurchaseValue(w: Work, inv: Invoice, line: InvoiceLine)
    requires Inventory.Inv(w.stock) && inv.ty == PurchaseInvoice && line.location.Some? && 0 <= line.quantity
    requires LineWork(w, inv, line).Ok?
    ensures line.location.value.item < |w.stock.items|
    ensures var t, x := LineWork(w, inv, line).value.stock, line.location.value.item;
            var onHand := Inventory.OnHand(t.balances, x);
            var before := (Inventory.OnHand(w.stock.balances, x) * w.stock.items[x].average) as real;
            var paid := line.total as real * if inv.rate.Some? then inv.rate.value as real / 1000000.0 else 1.0;
            x < |t.items|
            && before + 10000.0 * paid - onHand as real * 0.5
               <= (onHand * t.items[x].average) as real
               <= before + 10000.0 * paid + onHand as real * 0.5
  {
    hide Inventory.Inv, Inventory.OnHand, Inventory.Upserted, Inventory.Average, Inventory.UnitCost,
         Inventory.Available;
    var at, places := line.location.value, 100 * line.quantity;
    Inventory.InvOnHand(w.stock, at.item);
    Inventory.UpsertedEffect(w.stock.balances, at.item, at.warehouse, places, at.item, at.warehouse);
    Inventory.ReceiptDrift(Inventory.OnHand(w.stock.balances, at.item), w.stock.items[at.item].average, places,
                           Base(inv, line.total));
  }
}
