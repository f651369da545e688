/** Profit and loss and the balance sheet (reports.service.ts). Both are built from the unsigned balances
    of the trial balance. */
module Reports {
  import opened Schema
  import opened GeneralLedger

  function OfType(items: seq<Row>, ty: AccountType): seq<Row> {
    if items == [] then []
    else
      var row := items[|items| - 1];
      OfType(items[..|items| - 1], ty) + if row.ty == ty then [row] else []
  }

  function SumBalances(items: seq<Row>): int {
    if items == [] then 0 else SumBalances(items[..|items| - 1]) + items[|items| - 1].balance
  }

  function TotalOf(tb: TrialBalance, ty: AccountType): int {
    SumBalances(OfType(tb.items, ty))
  }

  datatype ProfitAndLoss = ProfitAndLoss(totalRevenue: int, totalExpense: int, netIncome: int)

  function GetPnl(b: Books, tenant: nat, w: Window): ProfitAndLoss {
    var tb := GetTrialBalance(b, tenant, w);
    var revenue, expense := TotalOf(tb, Revenue), TotalOf(tb, Expense);
    ProfitAndLoss(revenue, expense, revenue - expense)
  }

  datatype BalanceSheet = BalanceSheet(totalAssets: int, totalLiabilities: int, totalEquity: int, netIncome: int)

  function GetBalanceSheet(b: Books, tenant: nat, asOf: Option<int>): BalanceSheet {
    var tb := GetTrialBalance(b, tenant, Window(None, asOf));
    var netIncome := TotalOf(tb, Revenue) - TotalOf(tb, Expense);
    BalanceSheet(TotalOf(tb, Asset), TotalOf(tb, Liability), TotalOf(tb, Equity) + netIncome, netIncome)
  }

  // ---- the signed balances behind the reports ----

  /** What the accounts of a type owe to the debit side, from the raw lines. */
  function SignedTotal(b: Books, tenant: nat, w: Window, ids: seq<nat>, ty: AccountType): int
    requires forall i :: 0 <= i < |ids| ==> ids[i] < |b.accounts|
  {
    if ids == [] then 0
    else
      var id := ids[|ids| - 1];
      SignedTotal(b, tenant, w, ids[..|ids| - 1], ty)
      + if b.accounts[id].ty == ty then AccountNet(b.entries, b.lines, tenant, w, id) else 0
  }

  predicate DebitNormal(ty: AccountType) {
    ty == Asset || ty == Expense
  }

  /** The balances of a type's accounts that sit on the side the type does not normally have. */
  function WrongSide(b: Books, tenant: nat, w: Window, ids: seq<nat>, ty: AccountType): int
    requires forall i :: 0 <= i < |ids| ==> ids[i] < |b.accounts|
  {
    if ids == [] then 0
    else
      var id := ids[|ids| - 1];
      var net := AccountNet(b.entries, b.lines, tenant, w, id);
      WrongSide(b, tenant, w, ids[..|ids| - 1], ty)
      + if b.accounts[id].ty != ty then 0
        else if DebitNormal(ty) then (if net < 0 then -net else 0)
        else (if net > 0 then net else 0)
  }

  /** A reported total is the signed total taken on the type's normal side, plus twice what sits on the
      wrong one. */
  lemma {:induction false} ReportedTotal(b: Books, tenant: nat, w: Window, ids: seq<nat>, ty: AccountType)
    requires forall i :: 0 <= i < |ids| ==> ids[i] < |b.accounts|
    ensures var signed := SignedTotal(b, tenant, w, ids, ty);
            SumBalances(OfType(NonZero(Rows(b, tenant, w, ids)), ty))
            == (if DebitNormal(ty) then signed else -signed) + 2 * WrongSide(b, tenant, w, ids, ty)
  {
    hide SumDebit, SumCredit, SumBalances, OfType, NonZero;
    if ids == [] {
      NoRows(ty);
    } else {
      var init, id := ids[..|ids| - 1], ids[|ids| - 1];
      ReportedTotal(b, tenant, w, init, ty);
      var rows, row := Rows(b, tenant, w, init), RowOf(b, tenant, w, id);
      assert Rows(b, tenant, w, ids) == rows + [row];
      OneMoreRow(rows, row, ty);
    }
  }

  lemma {:induction false} NoRows(ty: AccountType)
    ensures SumBalances(OfType(NonZero([]), ty)) == 0
  {
  }

  lemma {:induction false} OneMoreRow(rows: seq<Row>, row: Row, ty: AccountType)
    ensures SumBalances(OfType(NonZero(rows + [row]), ty))
            == SumBalances(OfType(NonZero(rows), ty)) + if row.ty == ty then row.balance else 0
  {
    assert (rows + [row])[..|rows|] == rows;
    var items := NonZero(rows);
    if row.balance != 0 {
      assert (items + [row])[..|items|] == items;
      var typed := OfType(items, ty);
      assert (typed + [row])[..|typed|] == typed;
      assert typed + [] == typed;
    } else {
      assert items + [] == items;
    }
  }

  /** Every account has one of the five types. */
  lemma {:induction false} SumByType(b: Books, tenant: nat, w: Window, ids: seq<nat>)
    requires forall i :: 0 <= i < |ids| ==> ids[i] < |b.accounts|
    ensures SignedTotal(b, tenant, w, ids, Asset) + SignedTotal(b, tenant, w, ids, Liability)
            + SignedTotal(b, tenant, w, ids, Equity) + SignedTotal(b, tenant, w, ids, Revenue)
            + SignedTotal(b, tenant, w, ids, Expense)
            == SumOfNets(b.entries, b.lines, tenant, w, ids)
  {
    hide AccountNet;
    if ids != [] { SumByType(b, tenant, w, ids[..|ids| - 1]); }
  }

  /** What the wrong sides add to the reported assets and expenses beyond what they add to the other three. */
  function Skew(b: Books, tenant: nat, w: Window): int {
    var ids := ActiveIds(b.accounts, tenant);
    WrongSide(b, tenant, w, ids, Asset) + WrongSide(b, tenant, w, ids, Expense)
    - WrongSide(b, tenant, w, ids, Liability) - WrongSide(b, tenant, w, ids, Equity)
    - WrongSide(b, tenant, w, ids, Revenue)
  }

  /** Assets miss liabilities plus equity by the ledger's own gap plus twice the skew. For a balanced trial
      balance the accounting equation holds exactly when the wrong-side balances cancel, in particular when
      every account is on its normal side. */
  lemma AccountingEquation(b: Books, tenant: nat, asOf: Option<int>)
    ensures var w := Window(None, asOf);
            var sheet, tb := GetBalanceSheet(b, tenant, asOf), GetTrialBalance(b, tenant, w);
            && sheet.totalAssets - (sheet.totalLiabilities + sheet.totalEquity)
               == tb.debit - tb.credit + 2 * Skew(b, tenant, w)
            && (tb.isBalanced ==>
                  (sheet.totalAssets == sheet.totalLiabilities + sheet.totalEquity <==> Skew(b, tenant, w) == 0))
  {
    hide SumBalances, OfType, NonZero, Rows, SignedTotal, WrongSide, SumOfNets, NetOn, Total;
    var w, ids := Window(None, asOf), ActiveIds(b.accounts, tenant);
    ReportedTotal(b, tenant, w, ids, Asset);
    ReportedTotal(b, tenant, w, ids, Liability);
    ReportedTotal(b, tenant, w, ids, Equity);
    ReportedTotal(b, tenant, w, ids, Revenue);
    ReportedTotal(b, tenant, w, ids, Expense);
    SumByType(b, tenant, w, ids);
    SplitKeepsDifference(b, tenant, w, ids);
  }

  /** Each figure of the balance sheet from the raw lines of its own accounts: the signed total on the type's normal
      side and twice what sits on the wrong one. Equity includes the net income. */
  lemma {:induction false} SheetFigures(b: Books, tenant: nat, asOf: Option<int>)
    ensures var w, ids := Window(None, asOf), ActiveIds(b.accounts, tenant);
            var sheet := GetBalanceSheet(b, tenant, asOf);
            && sheet.totalAssets == SignedTotal(b, tenant, w, ids, Asset) + 2 * WrongSide(b, tenant, w, ids, Asset)
            && sheet.totalLiabilities
               == -SignedTotal(b, tenant, w, ids, Liability) + 2 * WrongSide(b, tenant, w, ids, Liability)
            && sheet.netIncome
               == -SignedTotal(b, tenant, w, ids, Revenue) - SignedTotal(b, tenant, w, ids, Expense)
                  + 2 * (WrongSide(b, tenant, w, ids, Revenue) - WrongSide(b, tenant, w, ids, Expense))
            && sheet.totalEquity
               == -SignedTotal(b, tenant, w, ids, Equity) + 2 * WrongSide(b, tenant, w, ids, Equity) + sheet.netIncome
  {
    hide SumBalances, OfType, NonZero, Rows, SignedTotal, WrongSide, Total;
    var w, ids := Window(None, asOf), ActiveIds(b.accounts, tenant);
    ReportedTotal(b, tenant, w, ids, Asset);
    ReportedTotal(b, tenant, w, ids, Liability);
    ReportedTotal(b, tenant, w, ids, Equity);
    ReportedTotal(b, tenant, w, ids, Revenue);
    ReportedTotal(b, tenant, w, ids, Expense);
  }

  /** The figures of the profit and loss, likewise. */
  lemma {:induction false} PnlFigures(b: Books, tenant: nat, w: Window)
    ensures var ids, pnl := ActiveIds(b.accounts, tenant), GetPnl(b, tenant, w);
            && pnl.totalRevenue
               == -SignedTotal(b, tenant, w, ids, Revenue) + 2 * WrongSide(b, tenant, w, ids, Revenue)
            && pnl.totalExpense == SignedTotal(b, tenant, w, ids, Expense) + 2 * WrongSide(b, tenant, w, ids, Expense)
            && pnl.netIncome == pnl.totalRevenue - pnl.totalExpense
  {
    hide SumBalances, OfType, NonZero, Rows, SignedTotal, WrongSide, Total;
    var ids := ActiveIds(b.accounts, tenant);
    ReportedTotal(b, tenant, w, ids, Revenue);
    ReportedTotal(b, tenant, w, ids, Expense);
  }

  /** With every account on its normal side there is no skew. */
  lemma {:induction false} NormalSides(b: Books, tenant: nat, w: Window, ids: seq<nat>, ty: AccountType)
    requires forall i :: 0 <= i < |ids| ==> ids[i] < |b.accounts|
    requires forall i :: 0 <= i < |ids| ==>
               var net := AccountNet(b.entries, b.lines, tenant, w, ids[i]);
               if DebitNormal(b.accounts[ids[i]].ty) then 0 <= net else net <= 0
    ensures WrongSide(b, tenant, w, ids, ty) == 0
  {
    if ids != [] { NormalSides(b, tenant, w, ids[..|ids| - 1], ty); }
  }

  /** The reported net income is credits less debits on revenue and expense accounts, plus twice the
      difference of their wrong-side balances. */
  lemma {:induction false} NetIncomeSkew(b: Books, tenant: nat, w: Window)
    ensures var ids := ActiveIds(b.accounts, tenant);
            GetPnl(b, tenant, w).netIncome
            == -SignedTotal(b, tenant, w, ids, Revenue) - SignedTotal(b, tenant, w, ids, Expense)
               + 2 * (WrongSide(b, tenant, w, ids, Revenue) - WrongSide(b, tenant, w, ids, Expense))
  {
    var ids := ActiveIds(b.accounts, tenant);
    ReportedTotal(b, tenant, w, ids, Revenue);
    ReportedTotal(b, tenant, w, ids, Expense);
  }
}
