/** The trial balance (general-ledger.service.ts) and what it says about the ledger. */
module GeneralLedger {
  import opened Schema
  import opened JournalEntries

  datatype Window = Window(from: Option<int>, to: Option<int>)

  predicate Within(w: Window, date: int) {
    (w.from.Some? ==> w.from.value <= date) && (w.to.Some? ==> date <= w.to.value)
  }

  /** A line the report reads: the tenant's, of an entry dated inside the window. */
  predicate Counted(entries: seq<Entry>, l: Line, tenant: nat, w: Window) {
    l.tenant == tenant && l.entry < |entries| && Within(w, entries[l.entry].date)
  }

  function SumDebit(entries: seq<Entry>, lines: seq<Line>, tenant: nat, w: Window, account: nat): int {
    if lines == [] then 0
    else
      var l := lines[|lines| - 1];
      SumDebit(entries, lines[..|lines| - 1], tenant, w, account)
      + if Counted(entries, l, tenant, w) && l.account == account then l.debit else 0
  }

  function SumCredit(entries: seq<Entry>, lines: seq<Line>, tenant: nat, w: Window, account: nat): int {
    if lines == [] then 0
    else
      var l := lines[|lines| - 1];
      SumCredit(entries, lines[..|lines| - 1], tenant, w, account)
      + if Counted(entries, l, tenant, w) && l.account == account then l.credit else 0
  }

  datatype Side = DebitSide | CreditSide

  datatype Row = Row(id: nat, ty: AccountType, totalDebit: int, totalCredit: int, balance: int, side: Side)

  function RowOf(b: Books, tenant: nat, w: Window, id: nat): Row
    requires id < |b.accounts|
  {
    var debit := SumDebit(b.entries, b.lines, tenant, w, id);
    var credit := SumCredit(b.entries, b.lines, tenant, w, id);
    var ty := b.accounts[id].ty;
    if ty == Asset || ty == Expense then
      Row(id, ty, debit, credit, Abs(debit - credit), if debit - credit < 0 then CreditSide else DebitSide)
    else
      Row(id, ty, debit, credit, Abs(credit - debit), if credit - debit < 0 then DebitSide else CreditSide)
  }

  function Abs(x: int): int {
    if x < 0 then -x else x
  }

  /** The tenant's active accounts. */
  function ActiveIds(accounts: seq<Account>, tenant: nat): (ids: seq<nat>)
    ensures forall i :: 0 <= i < |ids| ==> ids[i] < |accounts|
    ensures forall id: nat :: id in ids <==> id < |accounts| && accounts[id].tenant == tenant && accounts[id].active
    ensures forall i, j :: 0 <= i < j < |ids| ==> ids[i] < ids[j]
  {
    if accounts == [] then []
    else
      var last := |accounts| - 1;
      var ids := ActiveIds(accounts[..last], tenant);
      if accounts[last].tenant == tenant && accounts[last].active then ids + [last] else ids
  }

  function Rows(b: Books, tenant: nat, w: Window, ids: seq<nat>): (rows: seq<Row>)
    requires forall i :: 0 <= i < |ids| ==> ids[i] < |b.accounts|
    ensures |rows| == |ids|
  {
    if ids == [] then []
    else Rows(b, tenant, w, ids[..|ids| - 1]) + [RowOf(b, tenant, w, ids[|ids| - 1])]
  }

  function Total(rows: seq<Row>, side: Side): int {
    if rows == [] then 0
    else
      var row := rows[|rows| - 1];
      Total(rows[..|rows| - 1], side) + if row.side == side then row.balance else 0
  }

  function NonZero(rows: seq<Row>): seq<Row> {
    if rows == [] then []
    else
      var row := rows[|rows| - 1];
      NonZero(rows[..|rows| - 1]) + if row.balance != 0 then [row] else []
  }

  datatype TrialBalance = TrialBalance(items: seq<Row>, debit: int, credit: int, isBalanced: bool)

  function GetTrialBalance(b: Books, tenant: nat, w: Window): TrialBalance {
    var rows := Rows(b, tenant, w, ActiveIds(b.accounts, tenant));
    var debit, credit := Total(rows, DebitSide), Total(rows, CreditSide);
    TrialBalance(NonZero(rows), debit, credit, debit == credit)
  }

  // ---- the report against the raw lines ----

  /** An account's debits minus its credits. */
  function AccountNet(entries: seq<Entry>, lines: seq<Line>, tenant: nat, w: Window, account: nat): int {
    SumDebit(entries, lines, tenant, w, account) - SumCredit(entries, lines, tenant, w, account)
  }

  /** Debits minus credits of the counted lines on the given accounts. */
  function NetOn(entries: seq<Entry>, lines: seq<Line>, tenant: nat, w: Window, ids: seq<nat>): int {
    if lines == [] then 0
    else
      var l := lines[|lines| - 1];
      NetOn(entries, lines[..|lines| - 1], tenant, w, ids)
      + if Counted(entries, l, tenant, w) && l.account in ids then l.debit - l.credit else 0
  }

  function SumOfNets(entries: seq<Entry>, lines: seq<Line>, tenant: nat, w: Window, ids: seq<nat>): int {
    if ids == [] then 0
    else SumOfNets(entries, lines, tenant, w, ids[..|ids| - 1])
         + AccountNet(entries, lines, tenant, w, ids[|ids| - 1])
  }

  /** The absolute-value split loses nothing: the two totals differ by the sum of the signed balances. */
  lemma {:induction false} SplitKeepsDifference(b: Books, tenant: nat, w: Window, ids: seq<nat>)
    requires forall i :: 0 <= i < |ids| ==> ids[i] < |b.accounts|
    ensures var rows := Rows(b, tenant, w, ids);
            Total(rows, DebitSide) - Total(rows, CreditSide) == SumOfNets(b.entries, b.lines, tenant, w, ids)
  {
    if ids != [] {
      SplitKeepsDifference(b, tenant, w, ids[..|ids| - 1]);
      var rows := Rows(b, tenant, w, ids);
      assert rows[..|rows| - 1] == Rows(b, tenant, w, ids[..|ids| - 1]);
    }
  }

  /** Summing by account or by line is the same. */
  lemma {:induction false} SumByAccount(entries: seq<Entry>, lines: seq<Line>, tenant: nat, w: Window, ids: seq<nat>)
    requires forall i, j :: 0 <= i < j < |ids| ==> ids[i] < ids[j]
    ensures SumOfNets(entries, lines, tenant, w, ids) == NetOn(entries, lines, tenant, w, ids)
  {
    if lines == [] {
      NoLines(entries, tenant, w, ids);
    } else {
      SumByAccount(entries, lines[..|lines| - 1], tenant, w, ids);
      OneMoreLine(entries, lines, tenant, w, ids);
    }
  }

  lemma {:induction false} NoLines(entries: seq<Entry>, tenant: nat, w: Window, ids: seq<nat>)
    ensures SumOfNets(entries, [], tenant, w, ids) == 0
  {
    if ids != [] {
      NoLines(entries, tenant, w, ids[..|ids| - 1]);
    }
  }

  lemma {:induction false} OneMoreLine(entries: seq<Entry>, lines: seq<Line>, tenant: nat, w: Window, ids: seq<nat>)
    requires lines != [] && forall i, j :: 0 <= i < j < |ids| ==> ids[i] < ids[j]
    ensures var l := lines[|lines| - 1];
            SumOfNets(entries, lines, tenant, w, ids)
            == SumOfNets(entries, lines[..|lines| - 1], tenant, w, ids)
               + if Counted(entries, l, tenant, w) && l.account in ids then l.debit - l.credit else 0
  {
    if ids != [] {
      var init := ids[..|ids| - 1];
      OneMoreLine(entries, lines, tenant, w, init);
      assert ids == init + [ids[|ids| - 1]];
      assert ids[|ids| - 1] !in init;
    }
  }

  /** The report balances exactly when the counted lines on the tenant's active accounts do, and its two
      totals are off by exactly as much as those lines are. */
  lemma {:induction false} TotalsFollowLines(b: Books, tenant: nat, w: Window)
    ensures var tb := GetTrialBalance(b, tenant, w);
            var net := NetOn(b.entries, b.lines, tenant, w, ActiveIds(b.accounts, tenant));
            tb.debit - tb.credit == net && (tb.isBalanced <==> net == 0)
  {
    var ids := ActiveIds(b.accounts, tenant);
    SplitKeepsDifference(b, tenant, w, ids);
    SumByAccount(b.entries, b.lines, tenant, w, ids);
  }

  // ---- the rows of the report ----

  /** The report has a row for exactly the tenant's active accounts that do not balance to zero. Whatever the type of
      the account, the row says on which side the lines leave it, and by how much. */
  lemma {:induction false} ReportedRows(b: Books, tenant: nat, w: Window, id: nat)
    requires id < |b.accounts|
    ensures var net := AccountNet(b.entries, b.lines, tenant, w, id);
            var row := Row(id, b.accounts[id].ty, SumDebit(b.entries, b.lines, tenant, w, id),
                           SumCredit(b.entries, b.lines, tenant, w, id), if net < 0 then -net else net,
                           if net < 0 then CreditSide else DebitSide);
            row in GetTrialBalance(b, tenant, w).items
            <==> b.accounts[id].tenant == tenant && b.accounts[id].active && net != 0
  {
    hide SumDebit, SumCredit, Total, Rows, NonZero, RowOf;
    var ids, row := ActiveIds(b.accounts, tenant), RowOf(b, tenant, w, id);
    RowSides(b, tenant, w, id);
    RowsOf(b, tenant, w, ids, id);
    NonZeroRows(Rows(b, tenant, w, ids), row);
    if row in Rows(b, tenant, w, ids) { RowIsOf(b, tenant, w, ids, row); }
    if row.balance == 0 { NonZeroRows(Rows(b, tenant, w, ids), row.(side := DebitSide)); }
  }

  lemma {:induction false} RowSides(b: Books, tenant: nat, w: Window, id: nat)
    requires id < |b.accounts|
    ensures var net, row := AccountNet(b.entries, b.lines, tenant, w, id), RowOf(b, tenant, w, id);
            && row.id == id && (row.balance == 0 <==> net == 0)
            && row.(side := if net < 0 then CreditSide else DebitSide)
               == Row(id, b.accounts[id].ty, SumDebit(b.entries, b.lines, tenant, w, id),
                      SumCredit(b.entries, b.lines, tenant, w, id), if net < 0 then -net else net,
                      if net < 0 then CreditSide else DebitSide)
            && (net != 0 ==> row.side == if net < 0 then CreditSide else DebitSide)
  {
    hide SumDebit, SumCredit;
  }

  lemma {:induction false} RowsOf(b: Books, tenant: nat, w: Window, ids: seq<nat>, id: nat)
    requires (forall i :: 0 <= i < |ids| ==> ids[i] < |b.accounts|) && id < |b.accounts|
    ensures id in ids ==> RowOf(b, tenant, w, id) in Rows(b, tenant, w, ids)
  {
    hide RowOf;
    if ids != [] {
      RowsOf(b, tenant, w, ids[..|ids| - 1], id);
      assert ids == ids[..|ids| - 1] + [ids[|ids| - 1]];
    }
  }

  lemma {:induction false} RowIsOf(b: Books, tenant: nat, w: Window, ids: seq<nat>, row: Row)
    requires (forall i :: 0 <= i < |ids| ==> ids[i] < |b.accounts|) && row in Rows(b, tenant, w, ids)
    ensures row.id in ids && row.id < |b.accounts| && row == RowOf(b, tenant, w, row.id)
  {
    hide SumDebit, SumCredit;
    if ids != [] && row in Rows(b, tenant, w, ids[..|ids| - 1]) { RowIsOf(b, tenant, w, ids[..|ids| - 1], row); }
  }

  lemma {:induction false} NonZeroRows(rows: seq<Row>, row: Row)
    ensures row in NonZero(rows) <==> row in rows && row.balance != 0
  {
    if rows != [] {
      NonZeroRows(rows[..|rows| - 1], row);
      assert rows == rows[..|rows| - 1] + [rows[|rows| - 1]];
    }
  }

  /** A line counts towards its account in the reports of its tenant whose window reaches from its entry's date or
      earlier to that date or later; an open end reaches any date. */
  lemma {:induction false} LineCounts(entries: seq<Entry>, lines: seq<Line>, l: Line, tenant: nat, w: Window,
                                      account: nat)
    requires l.entry < |entries|
    ensures var date := entries[l.entry].date;
            var counts := && l.tenant == tenant && l.account == account
                          && (w.from == None || w.from.value <= date) && (w.to == None || date <= w.to.value);
            && SumDebit(entries, lines + [l], tenant, w, account)
               == SumDebit(entries, lines, tenant, w, account) + (if counts then l.debit else 0)
            && SumCredit(entries, lines + [l], tenant, w, account)
               == SumCredit(entries, lines, tenant, w, account) + (if counts then l.credit else 0)
  {
    assert (lines + [l])[..|lines|] == lines;
  }
}
