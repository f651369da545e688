/** Payroll runs and their ledger entry (payroll.service.ts). */
module Payroll {
  import opened Schema
  import opened Money
  import opened JournalEntries
  import ChartOfAccounts
  import AccountingPeriods
  import LedgerBooks

  // ---- gross to net ----

  /** A requested payslip: bonus and deductions in cents. */
  datatype Slip = Slip(profile: nat, bonus: real, otherDeductions: real)

  const GOSI_CEILING := 4500000  // 45,000 in cents

  /** The salary the social insurance is computed on. */
  function Applicable(p: Profile): int {
    if p.basic + p.housing <= GOSI_CEILING then p.basic + p.housing else GOSI_CEILING
  }

  function Gross(p: Profile, s: Slip): real {
    (p.basic + p.housing + p.transport) as real + s.bonus
  }

  function Gosi(p: Profile): real {
    Applicable(p) as real / 10.0
  }

  function NetPay(p: Profile, s: Slip): real {
    Gross(p, s) - Gosi(p) - s.otherDeductions
  }

  /** A registered contract salary has to be met exactly, bonus aside. */
  predicate MeetsContract(p: Profile, s: Slip) {
    p.contract > 0 ==> Gross(p, s) == p.contract as real + s.bonus
  }

  datatype Totals = Totals(gross: real, gosi: real, other: real, net: real)

  function TotalsOf(profiles: seq<Profile>, slips: seq<Slip>): Totals
    requires forall i :: 0 <= i < |slips| ==> slips[i].profile < |profiles|
  {
    if slips == [] then Totals(0.0, 0.0, 0.0, 0.0)
    else
      var t, s := TotalsOf(profiles, slips[..|slips| - 1]), slips[|slips| - 1];
      var p := profiles[s.profile];
      Totals(t.gross + Gross(p, s), t.gosi + Gosi(p), t.other + s.otherDeductions, t.net + NetPay(p, s))
  }

  /** Every payslip names a different profile of the tenant. */
  predicate KnownProfiles(profiles: seq<Profile>, tenant: nat, slips: seq<Slip>) {
    && (forall i :: 0 <= i < |slips| ==>
          slips[i].profile < |profiles| && profiles[slips[i].profile].tenant == tenant)
    && (forall i, j :: 0 <= i < j < |slips| ==> slips[i].profile != slips[j].profile)
  }

  function FindRun(runs: seq<Option<PayrollRun>>, tenant: nat, period: string): (i: Option<nat>)
    ensures i.Some? ==> i.value < |runs| && runs[i.value].Some?
                        && runs[i.value].value.tenant == tenant && runs[i.value].value.period == period
  {
    if runs == [] then None
    else
      var earlier, last := FindRun(runs[..|runs| - 1], tenant, period), runs[|runs| - 1];
      if earlier.Some? then earlier
      else if last.Some? && last.value.tenant == tenant && last.value.period == period then Some(|runs| - 1)
      else None
  }

  function StoredRun(tenant: nat, period: string, t: Totals): PayrollRun {
    PayrollRun(tenant, period, PendingApproval, Round(t.gross), Round(t.net), Round(t.gosi + t.other), Round(t.gosi),
               Round(t.other), None)
  }

  /** The tables a payroll run is written to. */
  datatype PayrollDesk = PayrollDesk(runs: seq<Option<PayrollRun>>, requests: seq<ApprovalRequest>)

  /** A run that is neither approved nor paid gives way to a new one for its period, before anything else is
      looked at. */
  function Cleared(runs: seq<Option<PayrollRun>>, tenant: nat, period: string): seq<Option<PayrollRun>> {
    var existing := FindRun(runs, tenant, period);
    if existing.Some? then runs[existing.value := None] else runs
  }

  predicate Blocked(runs: seq<Option<PayrollRun>>, tenant: nat, period: string) {
    var existing := FindRun(runs, tenant, period);
    existing.Some? && runs[existing.value].value.status in [Approved, Paid]
  }

  /** The first payslip to break its contract decides. */
  predicate ContractsMet(profiles: seq<Profile>, slips: seq<Slip>)
    requires forall i :: 0 <= i < |slips| ==> slips[i].profile < |profiles|
  {
    forall i :: 0 <= i < |slips| ==> MeetsContract(profiles[slips[i].profile], slips[i])
  }

  function CreateError(profiles: seq<Profile>, tenant: nat, slips: seq<Slip>): Option<Error> {
    if !KnownProfiles(profiles, tenant, slips) then Some(NoProfile)
    else if !ContractsMet(profiles, slips) then Some(ContractMismatch)
    else None
  }

  method CreatePayrollRun(db: Database, tenant: nat, period: string, slips: seq<Slip>) returns (r: Result<nat>)
    modifies db`payrollRuns, db`requests
    ensures var runs, requests := old(db.payrollRuns), old(db.requests);
            if Blocked(runs, tenant, period)
            then r == Err(PayrollSettled) && db.payrollRuns == runs && db.requests == requests
            else
              var cleared := Cleared(runs, tenant, period);
              match CreateError(db.profiles, tenant, slips)
              case Some(e) => r == Err(e) && db.payrollRuns == cleared && db.requests == requests
              case None =>
                && r == Ok(|runs|)
                && db.payrollRuns == cleared + [Some(StoredRun(tenant, period, TotalsOf(db.profiles, slips)))]
                && db.requests == requests + [ApprovalRequest(tenant, PayrollRunEntity, |runs|, Pending)]
  {
    hide Gross, Gosi, NetPay;
    var existing := FindRun(db.payrollRuns, tenant, period);
    if existing.Some? {
      if db.payrollRuns[existing.value].value.status in [Approved, Paid] {
        return Err(PayrollSettled);
      }
      db.payrollRuns := db.payrollRuns[existing.value := None];
    }
    if !KnownProfiles(db.profiles, tenant, slips) {
      return Err(NoProfile);
    }
    var totals := Totals(0.0, 0.0, 0.0, 0.0);
    for i := 0 to |slips|
      invariant totals == TotalsOf(db.profiles, slips[..i])
      invariant forall k :: 0 <= k < i ==> MeetsContract(db.profiles[slips[k].profile], slips[k])
    {
      var s := slips[i];
      var p := db.profiles[s.profile];
      assert slips[..i + 1][..i] == slips[..i];
      if !MeetsContract(p, s) {
        return Err(ContractMismatch);
      }
      totals := Totals(totals.gross + Gross(p, s), totals.gosi + Gosi(p), totals.other + s.otherDeductions,
                       totals.net + NetPay(p, s));
    }
    assert slips[..|slips|] == slips;
    var id := |db.payrollRuns|;
    db.payrollRuns := db.payrollRuns + [Some(StoredRun(tenant, period, totals))];
    db.requests := db.requests + [ApprovalRequest(tenant, PayrollRunEntity, id, Pending)];
    r := Ok(id);
  }

  // ---- approval ----

  /** The chart with the accounts a payroll entry needs. */
  function PayrollChart(accounts: seq<Account>, tenant: nat): (t: seq<Account>)
    ensures forall code :: code in ["5110", "2140", "2150", "2130"] ==>
              ChartOfAccounts.FindCode(t, tenant, code).Some?
  {
    var a := ChartOfAccounts.Ensured(accounts, tenant, "5110", Expense, "5100");
    var b := ChartOfAccounts.Ensured(a, tenant, "2140", Liability, "2100");
    var c := ChartOfAccounts.Ensured(b, tenant, "2150", Liability, "2100");
    var d := ChartOfAccounts.Ensured(c, tenant, "2130", Liability, "2100");
    d
  }

  function AccountFor(accounts: seq<Account>, tenant: nat, code: string): nat
    requires ChartOfAccounts.FindCode(accounts, tenant, code).Some?
  {
    ChartOfAccounts.FindCode(accounts, tenant, code).value
  }

  /** Gross pay against insurance, other deductions and net pay; a part that is not positive gets no line. */
  function RunLines(run: PayrollRun, salary: nat, gosi: nat, other: nat, payable: nat): seq<LineInput> {
    [LineInput(salary, run.gross as real, 0.0)]
    + (if run.gosi > 0 then [LineInput(gosi, 0.0, run.gosi as real)] else [])
    + (if run.other > 0 then [LineInput(other, 0.0, run.other as real)] else [])
    + [LineInput(payable, 0.0, run.net as real)]
  }

  function EntryLines(accounts: seq<Account>, run: PayrollRun, tenant: nat): seq<LineInput>
    requires forall code :: code in ["5110", "2140", "2150", "2130"] ==>
               ChartOfAccounts.FindCode(accounts, tenant, code).Some?
  {
    RunLines(run, AccountFor(accounts, tenant, "5110"), AccountFor(accounts, tenant, "2140"),
             AccountFor(accounts, tenant, "2150"), AccountFor(accounts, tenant, "2130"))
  }

  function ApproveError(runs: seq<Option<PayrollRun>>, tenant: nat, id: nat): (e: Option<Error>)
    ensures e.None? ==> id < |runs| && runs[id].Some?
  {
    if id >= |runs| || runs[id].None? || runs[id].value.tenant != tenant then Some(NoPayrollRun)
    else if runs[id].value.status == Approved then Some(PayrollSettled)
    else None
  }

  /** Why the entry of a run is refused: then the accounts opened for it stay. */
  function EntryError(b: Books, run: PayrollRun, tenant: nat, now: int): Option<Error> {
    var books := b.(accounts := PayrollChart(b.accounts, tenant));
    JournalEntries.CreateError(books, tenant, now, EntryLines(books.accounts, run, tenant))
  }

  /** The books after the entry of a run has been attempted. */
  function RunPosted(b: Books, run: PayrollRun, tenant: nat, now: int): Books {
    var books := b.(accounts := PayrollChart(b.accounts, tenant));
    if EntryError(b, run, tenant, now).Some? then books
    else Posted(books, tenant, now, EntryLines(books.accounts, run, tenant), now)
  }

  /** Missing accounts are opened before the posting transaction and stay open if it is refused. */
  method ApprovePayrollRun(db: Database, tenant: nat, id: nat, now: int) returns (r: Result<()>)
    modifies db`accounts, db`entries, db`lines, db`payrollRuns
    ensures var before, runs := old(db.Ledger()), old(db.payrollRuns);
            if ApproveError(runs, tenant, id).Some?
            then r == Err(ApproveError(runs, tenant, id).value) && db.Ledger() == before && db.payrollRuns == runs
            else
              var run := runs[id].value;
              && db.Ledger() == RunPosted(before, run, tenant, now)
              && match EntryError(before, run, tenant, now)
                 case Some(e) => r == Err(e) && db.payrollRuns == runs
                 case None =>
                   && r == Ok(())
                   && db.payrollRuns == runs[id := Some(run.(status := Approved, entry := Some(|before.entries|)))]
  {
    hide JournalEntries.CreateError, Posted, ChartOfAccounts.Ensured, RunLines;
    var error := ApproveError(db.payrollRuns, tenant, id);
    if error.Some? {
      return Err(error.value);
    }
    var run := db.payrollRuns[id].value;
    ghost var before := db.Ledger();
    var salary := ChartOfAccounts.EnsureAccount(db, tenant, "5110", Expense, "5100");
    var gosi := ChartOfAccounts.EnsureAccount(db, tenant, "2140", Liability, "2100");
    var other := ChartOfAccounts.EnsureAccount(db, tenant, "2150", Liability, "2100");
    var payable := ChartOfAccounts.EnsureAccount(db, tenant, "2130", Liability, "2100");
    StillThere(before.accounts, tenant);
    var jeLines := RunLines(run, salary, gosi, other, payable);
    var entry := JournalEntries.Create(db, tenant, now, jeLines, now);
    if entry.Err? {
      return Err(entry.error);
    }
    db.payrollRuns := db.payrollRuns[id := Some(run.(status := Approved, entry := Some(entry.value)))];
    r := Ok(());
  }

  /** Opening the later accounts does not change where the earlier ones are found. */
  lemma {:induction false} StillThere(accounts: seq<Account>, tenant: nat)
    ensures var a := ChartOfAccounts.Ensured(accounts, tenant, "5110", Expense, "5100");
            var b := ChartOfAccounts.Ensured(a, tenant, "2140", Liability, "2100");
            var c := ChartOfAccounts.Ensured(b, tenant, "2150", Liability, "2100");
            var t := PayrollChart(accounts, tenant);
            && ChartOfAccounts.FindCode(t, tenant, "5110") == ChartOfAccounts.FindCode(a, tenant, "5110")
            && ChartOfAccounts.FindCode(t, tenant, "2140") == ChartOfAccounts.FindCode(b, tenant, "2140")
            && ChartOfAccounts.FindCode(t, tenant, "2150") == ChartOfAccounts.FindCode(c, tenant, "2150")
  {
    hide ChartOfAccounts.FindCode, ChartOfAccounts.Ensured;
    var a := ChartOfAccounts.Ensured(accounts, tenant, "5110", Expense, "5100");
    var b := ChartOfAccounts.Ensured(a, tenant, "2140", Liability, "2100");
    var c := ChartOfAccounts.Ensured(b, tenant, "2150", Liability, "2100");
    var d := ChartOfAccounts.Ensured(c, tenant, "2130", Liability, "2100");
    ChartOfAccounts.FoundInPrefix(a, d, tenant, "5110");
    ChartOfAccounts.FoundInPrefix(b, d, tenant, "2140");
    ChartOfAccounts.FoundInPrefix(c, d, tenant, "2150");
  }

  // ---- conservation ----

  /** Before storing, gross pay is exactly what is withheld plus what is paid out, for any payslips. */
  lemma {:induction false} GrossSplits(profiles: seq<Profile>, slips: seq<Slip>)
    requires forall i :: 0 <= i < |slips| ==> slips[i].profile < |profiles|
    ensures var t := TotalsOf(profiles, slips);
            t.gross == t.gosi + t.other + t.net
  {
    hide Gross, Gosi;
    if slips != [] { GrossSplits(profiles, slips[..|slips| - 1]); }
  }

  /** The salaries insurance is computed on, summed. */
  function SumApplicable(profiles: seq<Profile>, slips: seq<Slip>): int
    requires forall i :: 0 <= i < |slips| ==> slips[i].profile < |profiles|
  {
    if slips == [] then 0
    else SumApplicable(profiles, slips[..|slips| - 1]) + Applicable(profiles[slips[|slips| - 1].profile])
  }

  /** One part of the pay, summed over the payslips. */
  function SumOf(part: Profile -> int, profiles: seq<Profile>, slips: seq<Slip>): int
    requires forall i :: 0 <= i < |slips| ==> slips[i].profile < |profiles|
  {
    if slips == [] then 0
    else SumOf(part, profiles, slips[..|slips| - 1]) + part(profiles[slips[|slips| - 1].profile])
  }

  function Bonuses(slips: seq<Slip>): real {
    if slips == [] then 0.0 else Bonuses(slips[..|slips| - 1]) + slips[|slips| - 1].bonus
  }

  function Deductions(slips: seq<Slip>): real {
    if slips == [] then 0.0 else Deductions(slips[..|slips| - 1]) + slips[|slips| - 1].otherDeductions
  }

  /** What of basic and housing pay is above 45,000, which is free of insurance. */
  function AboveCeiling(): Profile -> int {
    (p: Profile) => if p.basic + p.housing > 4500000 then p.basic + p.housing - 4500000 else 0
  }

  function BasicAndHousing(): Profile -> int {
    (p: Profile) => p.basic + p.housing
  }

  function Transport(): Profile -> int {
    (p: Profile) => p.transport
  }

  /** Gross pay is basic, housing and transport pay and bonuses; insurance is a tenth of basic and housing pay up to
      45,000 an employee; the rest of the deductions are those requested, and the net pay is what is left. */
  lemma {:induction false} TotalsAre(profiles: seq<Profile>, slips: seq<Slip>)
    requires forall i :: 0 <= i < |slips| ==> slips[i].profile < |profiles|
    ensures var t := TotalsOf(profiles, slips);
            var insurable := SumOf(BasicAndHousing(), profiles, slips);
            && t.gross == (insurable + SumOf(Transport(), profiles, slips)) as real + Bonuses(slips)
            && t.gosi == (insurable - SumOf(AboveCeiling(), profiles, slips)) as real / 10.0
            && t.other == Deductions(slips)
            && t.net == t.gross - t.gosi - t.other
  {
    if slips != [] {
      var init, p := slips[..|slips| - 1], profiles[slips[|slips| - 1].profile];
      TotalsAre(profiles, init);
      AddTenths(SumOf(BasicAndHousing(), profiles, init) - SumOf(AboveCeiling(), profiles, init), Applicable(p));
    }
  }

  /** So insurance is at most a tenth of basic and housing pay, and exactly that if and only if nobody earns above
      the ceiling; and it is at most 4,500.00 a payslip, and exactly that if everybody reaches the ceiling. */
  lemma {:induction false} InsuranceBounds(profiles: seq<Profile>, slips: seq<Slip>)
    requires forall i :: 0 <= i < |slips| ==> slips[i].profile < |profiles|
    ensures var gosi, insurable := TotalsOf(profiles, slips).gosi, SumOf(BasicAndHousing(), profiles, slips);
            && gosi <= insurable as real / 10.0
            && (gosi == insurable as real / 10.0 <==> forall i :: 0 <= i < |slips| ==> !EarnsAbove(profiles, slips[i]))
            && gosi <= (450000 * |slips|) as real
            && ((forall i :: 0 <= i < |slips| ==> Reaches(profiles, slips[i])) ==> gosi == (450000 * |slips|) as real)
  {
    TotalsAre(profiles, slips);
    SumAbove(profiles, slips);
  }

  ghost predicate EarnsAbove(profiles: seq<Profile>, s: Slip)
    requires s.profile < |profiles|
  {
    profiles[s.profile].basic + profiles[s.profile].housing > 4500000
  }

  ghost predicate Reaches(profiles: seq<Profile>, s: Slip)
    requires s.profile < |profiles|
  {
    profiles[s.profile].basic + profiles[s.profile].housing >= 4500000
  }

  lemma {:induction false} SumAbove(profiles: seq<Profile>, slips: seq<Slip>)
    requires forall i :: 0 <= i < |slips| ==> slips[i].profile < |profiles|
    ensures var above, insurable := SumOf(AboveCeiling(), profiles, slips), SumOf(BasicAndHousing(), profiles, slips);
            && 0 <= above && (above == 0 <==> forall i :: 0 <= i < |slips| ==> !EarnsAbove(profiles, slips[i]))
            && insurable - above <= 4500000 * |slips|
            && ((forall i :: 0 <= i < |slips| ==> Reaches(profiles, slips[i])) ==>
                  insurable - above == 4500000 * |slips|)
  {
    if slips != [] {
      var init, last := slips[..|slips| - 1], slips[|slips| - 1];
      SumAbove(profiles, init);
      assert slips == init + [last];
    }
  }

  /** A registered contract salary is met by basic, housing and transport pay, whatever the bonus. */
  lemma ContractIsFixedPay(p: Profile, s: Slip)
    ensures MeetsContract(p, s) <==> p.contract <= 0 || p.basic + p.housing + p.transport == p.contract
  {
  }

  ghost predicate WholeSlips(slips: seq<Slip>) {
    forall i :: 0 <= i < |slips| ==>
      && slips[i].bonus == slips[i].bonus.Floor as real
      && slips[i].otherDeductions == slips[i].otherDeductions.Floor as real
  }

  ghost predicate Salaried(profiles: seq<Profile>) {
    forall i :: 0 <= i < |profiles| ==> 0 <= profiles[i].basic && 0 <= profiles[i].housing && 0 <= profiles[i].transport
  }

  /** Everything but the insurance is in whole cents. */
  lemma {:induction false} WholeTotals(profiles: seq<Profile>, slips: seq<Slip>)
    requires WholeSlips(slips) && Salaried(profiles)
    requires forall i :: 0 <= i < |slips| ==> slips[i].profile < |profiles|
    ensures var t := TotalsOf(profiles, slips);
            && t.gross == t.gross.Floor as real && t.other == t.other.Floor as real
            && t.gosi == SumApplicable(profiles, slips) as real / 10.0 && 0 <= SumApplicable(profiles, slips)
  {
    hide Gross, Gosi, Applicable;
    if slips != [] {
      var init, s := slips[..|slips| - 1], slips[|slips| - 1];
      WholeTotals(profiles, init);
      var t, p := TotalsOf(profiles, init), profiles[s.profile];
      WholePay(p, s);
      AddWhole(t.gross, Gross(p, s));
      AddWhole(t.other, s.otherDeductions);
      AddTenths(SumApplicable(profiles, init), Applicable(p));
    }
  }

  lemma WholePay(p: Profile, s: Slip)
    requires s.bonus == s.bonus.Floor as real && 0 <= p.basic && 0 <= p.housing
    ensures Gross(p, s) == Gross(p, s).Floor as real && Gosi(p) == Applicable(p) as real / 10.0 && 0 <= Applicable(p)
  {
    AddWhole((p.basic + p.housing + p.transport) as real, s.bonus);
  }

  lemma AddWhole(x: real, y: real)
    requires x == x.Floor as real && y == y.Floor as real
    ensures x + y == (x + y).Floor as real
  {
    assert x + y == (x.Floor + y.Floor) as real;
  }

  lemma AddTenths(m: int, n: int)
    ensures m as real / 10.0 + n as real / 10.0 == (m + n) as real / 10.0
  {
  }

  /** What the entry of a stored run debits and credits. */
  lemma RunLinesSums(run: PayrollRun, salary: nat, gosi: nat, other: nat, payable: nat)
    ensures var ls := RunLines(run, salary, gosi, other, payable);
            && Debits(ls) == run.gross as real
            && Credits(ls) == ((if run.gosi > 0 then run.gosi else 0) + (if run.other > 0 then run.other else 0)
                               + run.net) as real
            && 2 <= |ls|
  {
    hide Debits, Credits;
    var a := [LineInput(salary, run.gross as real, 0.0)];
    SumsOfNone();
    SumsAppend([], a[0]);
    assert [] + [a[0]] == a;
    var b := a + if run.gosi > 0 then [LineInput(gosi, 0.0, run.gosi as real)] else [];
    if run.gosi > 0 { SumsAppend(a, LineInput(gosi, 0.0, run.gosi as real)); } else { assert b == a; }
    var c := b + if run.other > 0 then [LineInput(other, 0.0, run.other as real)] else [];
    if run.other > 0 { SumsAppend(b, LineInput(other, 0.0, run.other as real)); } else { assert c == b; }
    SumsAppend(c, LineInput(payable, 0.0, run.net as real));
  }

  /** With whole-cent pay and a net total that is not negative, the stored entry balances exactly when other
      deductions do not total below zero and the insured salaries, in cents, do not leave 5 modulo 10: then
      insurance and net pay both sit on a half cent and both are rounded up. */
  lemma {:induction false} EntryBalances(profiles: seq<Profile>, slips: seq<Slip>, tenant: nat, period: string,
                      salary: nat, gosi: nat, other: nat, payable: nat)
    requires WholeSlips(slips) && Salaried(profiles)
    requires forall i :: 0 <= i < |slips| ==> slips[i].profile < |profiles|
    requires 0.0 <= TotalsOf(profiles, slips).net
    ensures var t := TotalsOf(profiles, slips);
            var ls := RunLines(StoredRun(tenant, period, t), salary, gosi, other, payable);
            Debits(ls) == Credits(ls) <==> 0.0 <= t.other && SumApplicable(profiles, slips) % 10 != 5
  {
    hide TotalsOf, SumApplicable, RunLines, Debits, Credits, Round;
    var t := TotalsOf(profiles, slips);
    var run := StoredRun(tenant, period, t);
    RunLinesSums(run, salary, gosi, other, payable);
    WholeTotals(profiles, slips);
    GrossSplits(profiles, slips);
    StoredParts(t, SumApplicable(profiles, slips), run);
  }

  lemma StoredParts(t: Totals, insured: int, run: PayrollRun)
    requires t.gross == t.gross.Floor as real && t.other == t.other.Floor as real
    requires t.gosi == insured as real / 10.0 && 0 <= insured && 0.0 <= t.net && t.gross == t.gosi + t.other + t.net
    requires run.gross == Round(t.gross) && run.other == Round(t.other)
    requires run.gosi == Round(t.gosi) && run.net == Round(t.net)
    ensures run.gross == t.gross.Floor && run.other == t.other.Floor && 0 <= run.gosi
    ensures run.gosi + run.net == run.gross - run.other + if insured % 10 == 5 then 1 else 0
  {
    RoundWhole(t.gross.Floor);
    RoundWhole(t.other.Floor);
    Tenths(insured);
    RoundParts(t.gosi, t.net, t.gross.Floor - t.other.Floor);
  }

  lemma Tenths(n: int)
    requires 0 <= n
    ensures var x := n as real / 10.0;
            x - x.Floor as real == 0.5 <==> n % 10 == 5
  {
    var x := n as real / 10.0;
    assert x == (n / 10) as real + (n % 10) as real / 10.0;
    assert x.Floor == n / 10;
  }

  /** Given an open period and accounts that take postings, the entry of a run is accepted under exactly the same
      condition, so a run that leaves 5 modulo 10 can never be approved. */
  lemma {:induction false} ApprovalAccepted(b: Books, profiles: seq<Profile>, slips: seq<Slip>, tenant: nat,
                                            period: string, now: int)
    requires WholeSlips(slips) && Salaried(profiles)
    requires forall i :: 0 <= i < |slips| ==> slips[i].profile < |profiles|
    requires 0.0 <= TotalsOf(profiles, slips).net
    requires AccountingPeriods.FindActive(b.periods, tenant, now).Ok?
    requires var chart := PayrollChart(b.accounts, tenant);
             forall code :: code in ["5110", "2140", "2150", "2130"] ==>
               ChartOfAccounts.PostingError(chart, tenant, AccountFor(chart, tenant, code)) == None
    ensures EntryError(b, StoredRun(tenant, period, TotalsOf(profiles, slips)), tenant, now).None?
            <==> 0.0 <= TotalsOf(profiles, slips).other && SumApplicable(profiles, slips) % 10 != 5
  {
    hide TotalsOf, SumApplicable, RunLines, Debits, Credits, Round, PayrollChart, AccountFor, LinesError, OneSided,
         AccountingPeriods.FindActive, ChartOfAccounts.PostingError;
    var t, chart := TotalsOf(profiles, slips), PayrollChart(b.accounts, tenant);
    var run := StoredRun(tenant, period, t);
    var salary, gosi := AccountFor(chart, tenant, "5110"), AccountFor(chart, tenant, "2140");
    var other, payable := AccountFor(chart, tenant, "2150"), AccountFor(chart, tenant, "2130");
    EntryBalances(profiles, slips, tenant, period, salary, gosi, other, payable);
    RunLinesSums(run, salary, gosi, other, payable);
    if 0.0 <= t.other {
      WholeTotals(profiles, slips);
      GrossSplits(profiles, slips);
      RunLinesSound(run, salary, gosi, other, payable);
      OneSidedAccepted(chart, tenant, RunLines(run, salary, gosi, other, payable));
    }
  }

  /** A run without negative totals has one-sided lines, on its four accounts. */
  lemma RunLinesSound(run: PayrollRun, salary: nat, gosi: nat, other: nat, payable: nat)
    requires 0 <= run.gross && 0 <= run.net
    ensures OneSided(RunLines(run, salary, gosi, other, payable))
    ensures forall i :: 0 <= i < |RunLines(run, salary, gosi, other, payable)| ==>
              RunLines(run, salary, gosi, other, payable)[i].account in [salary, gosi, other, payable]
  {
  }

  /** What an approved run does to any account: gross pay is debited to 5110; the parts of it that are positive, and
      the net pay, are credited to 2140 (insurance), 2150 (other deductions) and 2130 (net pay). */
  lemma {:induction false} EntryMoves(accounts: seq<Account>, run: PayrollRun, tenant: nat, account: nat)
    ensures var chart := PayrollChart(accounts, tenant);
            LedgerBooks.Moved(EntryLines(chart, run, tenant), account)
            == (if ChartOfAccounts.FindCode(chart, tenant, "5110") == Some(account) then run.gross else 0)
               - (if ChartOfAccounts.FindCode(chart, tenant, "2140") == Some(account) && run.gosi > 0 then run.gosi
                  else 0)
               - (if ChartOfAccounts.FindCode(chart, tenant, "2150") == Some(account) && run.other > 0 then run.other
                  else 0)
               - (if ChartOfAccounts.FindCode(chart, tenant, "2130") == Some(account) then run.net else 0)
  {
    hide PayrollChart, ChartOfAccounts.FindCode, LedgerBooks.Moved, Round, RunLines;
    var chart := PayrollChart(accounts, tenant);
    RunLinesMove(run, AccountFor(chart, tenant, "5110"), AccountFor(chart, tenant, "2140"),
                 AccountFor(chart, tenant, "2150"), AccountFor(chart, tenant, "2130"), account);
  }

  lemma {:induction false} RunLinesMove(run: PayrollRun, salary: nat, gosi: nat, other: nat, payable: nat, account: nat)
    ensures LedgerBooks.Moved(RunLines(run, salary, gosi, other, payable), account)
            == (if account == salary then run.gross else 0)
               - (if account == gosi && run.gosi > 0 then run.gosi else 0)
               - (if account == other && run.other > 0 then run.other else 0)
               - (if account == payable then run.net else 0)
  {
    hide LedgerBooks.Moved, Round;
    RoundWhole(0);
    RoundWhole(run.gross);
    RoundWhole(run.gosi);
    RoundWhole(run.other);
    RoundWhole(run.net);
    LedgerBooks.NothingMoved(account);
    var a := [LineInput(salary, run.gross as real, 0.0)];
    LedgerBooks.MovedAppend([], a[0], account);
    assert [] + [a[0]] == a;
    var b := a + if run.gosi > 0 then [LineInput(gosi, 0.0, run.gosi as real)] else [];
    assert run.gosi <= 0 ==> b == a;
    if run.gosi > 0 { LedgerBooks.MovedAppend(a, LineInput(gosi, 0.0, run.gosi as real), account); }
    var c := b + if run.other > 0 then [LineInput(other, 0.0, run.other as real)] else [];
    assert run.other <= 0 ==> c == b;
    if run.other > 0 { LedgerBooks.MovedAppend(b, LineInput(other, 0.0, run.other as real), account); }
    LedgerBooks.MovedAppend(c, LineInput(payable, 0.0, run.net as real), account);
  }

  /** In particular its other deductions are credited to account 2150. */
  lemma OtherDeductionsMove(accounts: seq<Account>, run: PayrollRun, tenant: nat)
    ensures var chart := PayrollChart(accounts, tenant);
            LedgerBooks.Moved(EntryLines(chart, run, tenant), AccountFor(chart, tenant, "2150"))
            == if run.other > 0 then -run.other else 0
  {
    hide PayrollChart, ChartOfAccounts.FindCode, LedgerBooks.Moved, EntryLines;
    var chart := PayrollChart(accounts, tenant);
    EntryMoves(accounts, run, tenant, AccountFor(chart, tenant, "2150"));
    var salary, gosi := AccountFor(chart, tenant, "5110"), AccountFor(chart, tenant, "2140");
    var other, payable := AccountFor(chart, tenant, "2150"), AccountFor(chart, tenant, "2130");
    assert chart[salary].code == "5110" && chart[gosi].code == "2140";
    assert chart[other].code == "2150" && chart[payable].code == "2130";
  }

  // ---- what a run is stored as ----

  /** With whole-cent pay and other deductions that do not total below zero, the stored deductions are the stored
      insurance and the stored other deductions. */
  lemma {:induction false} DeductionsAddUp(profiles: seq<Profile>, slips: seq<Slip>, tenant: nat, period: string)
    requires WholeSlips(slips) && Salaried(profiles)
    requires forall i :: 0 <= i < |slips| ==> slips[i].profile < |profiles|
    ensures var run := StoredRun(tenant, period, TotalsOf(profiles, slips));
            && (0.0 <= TotalsOf(profiles, slips).other ==> run.deductions == run.gosi + run.other)
            && run.tenant == tenant && run.period == period && run.status == PendingApproval && run.entry == None
  {
    hide TotalsOf, SumApplicable, Round;
    var t := TotalsOf(profiles, slips);
    WholeTotals(profiles, slips);
    RoundShifted(t.gosi, t.other.Floor);
    RoundWhole(t.other.Floor);
  }

  lemma RoundShifted(x: real, n: int)
    requires 0.0 <= x
    ensures 0.0 <= x + n as real ==> Round(x + n as real) == Round(x) + n
  {
    RoundByFraction(x);
    RoundByFraction(x + n as real);
    FloorOfSum(x, n as real);
  }

  /** One run a period, and those approved or paid for good. */
  ghost predicate OneRunEach(runs: seq<Option<PayrollRun>>) {
    forall i, j :: 0 <= i < j < |runs| && runs[i].Some? && runs[j].Some? ==>
      runs[i].value.tenant != runs[j].value.tenant || runs[i].value.period != runs[j].value.period
  }

  /** A new run replaces the one of its period, unless that is approved or paid, which blocks it. */
  lemma {:induction false} RunsStayUnique(runs: seq<Option<PayrollRun>>, run: PayrollRun)
    requires OneRunEach(runs)
    ensures Blocked(runs, run.tenant, run.period)
            <==> exists i :: && 0 <= i < |runs| && runs[i].Some? && runs[i].value.tenant == run.tenant
                             && runs[i].value.period == run.period && runs[i].value.status in [Approved, Paid]
    ensures var after := Cleared(runs, run.tenant, run.period) + [Some(run)];
            && OneRunEach(after)
            && forall i :: 0 <= i < |runs| && runs[i].Some?
                           && (runs[i].value.tenant != run.tenant || runs[i].value.period != run.period) ==>
                 after[i] == runs[i]
  {
    hide FindRun;
    FindsTheRun(runs, run.tenant, run.period);
  }

  lemma {:induction false} FindsTheRun(runs: seq<Option<PayrollRun>>, tenant: nat, period: string)
    ensures FindRun(runs, tenant, period).None? ==>
              forall i :: 0 <= i < |runs| && runs[i].Some? ==>
                runs[i].value.tenant != tenant || runs[i].value.period != period
  {
    if runs != [] { FindsTheRun(runs[..|runs| - 1], tenant, period); }
  }

  /** Payslips are accepted exactly when they name different profiles of the tenant whose registered salaries, where
      there are any, are met. */
  lemma SlipsAcceptedExactly(profiles: seq<Profile>, tenant: nat, slips: seq<Slip>)
    ensures CreateError(profiles, tenant, slips) == None
            <==> && (forall i :: 0 <= i < |slips| ==>
                       && slips[i].profile < |profiles| && profiles[slips[i].profile].tenant == tenant
                       && var p := profiles[slips[i].profile];
                          p.contract <= 0 || p.basic + p.housing + p.transport == p.contract)
                 && (forall i, j :: 0 <= i < j < |slips| ==> slips[i].profile != slips[j].profile)
  {
    hide MeetsContract;
    forall i | 0 <= i < |slips| && slips[i].profile < |profiles|
      ensures var p := profiles[slips[i].profile];
              MeetsContract(p, slips[i]) <==> p.contract <= 0 || p.basic + p.housing + p.transport == p.contract
    {
      ContractIsFixedPay(profiles[slips[i].profile], slips[i]);
    }
  }

  /** Approval opens at most the expense account 5110 and the liability accounts 2140, 2150 and 2130, under 5100 and
      2100. */
  lemma PayrollChartOpens(accounts: seq<Account>, tenant: nat, i: nat)
    requires |accounts| <= i < |PayrollChart(accounts, tenant)|
    ensures var a := PayrollChart(accounts, tenant)[i];
            && a.tenant == tenant && a.active
            && ((a.code == "5110" && a.ty == Expense) || (a.code in ["2140", "2150", "2130"] && a.ty == Liability))
            && (a.parent.Some? ==>
                  && a.parent.value < i
                  && PayrollChart(accounts, tenant)[a.parent.value].code == if a.ty == Expense then "5100" else "2100")
  {
    hide ChartOfAccounts.FindCode, ChartOfAccounts.Ensured;
    var a := ChartOfAccounts.Ensured(accounts, tenant, "5110", Expense, "5100");
    var b := ChartOfAccounts.Ensured(a, tenant, "2140", Liability, "2100");
    var c := ChartOfAccounts.Ensured(b, tenant, "2150", Liability, "2100");
    var d := ChartOfAccounts.Ensured(c, tenant, "2130", Liability, "2100");
    assert d == PayrollChart(accounts, tenant) && a <= d && b <= d && c <= d;
    if i < |a| { ChartOfAccounts.EnsuredOpens(accounts, tenant, "5110", Expense, "5100"); }
    else if i < |b| { ChartOfAccounts.EnsuredOpens(a, tenant, "2140", Liability, "2100"); }
    else if i < |c| { ChartOfAccounts.EnsuredOpens(b, tenant, "2150", Liability, "2100"); }
    else { ChartOfAccounts.EnsuredOpens(c, tenant, "2130", Liability, "2100"); }
  }

  /** A run can be approved exactly when it is the tenant's and not approved yet. */
  lemma ApprovableExactly(runs: seq<Option<PayrollRun>>, tenant: nat, id: nat)
    ensures ApproveError(runs, tenant, id) == None
            <==> id < |runs| && runs[id].Some? && runs[id].value.tenant == tenant && runs[id].value.status != Approved
  {
  }
}
