/** End-of-service benefits under the Saudi Labor Law, Articles 84 and 85 (eosb.service.ts): the liability
    towards an employee and its monthly accrual. */
module Eosb {
  import opened Schema
  import opened Money
  import opened JournalEntries
  import ChartOfAccounts
  import GeneralLedger
  import LedgerBooks

  const YEAR := 31557600000  // 365.25 days in milliseconds
  const MONTH := 2629800000  // a twelfth of it

  datatype Departure = Active | Termination | Resignation

  function Wage(p: Profile): int {
    p.basic + p.housing + p.transport
  }

  /** Years since the hire date; an employee without one counts as hired now. */
  function Service(p: Profile, now: int): real {
    (now - if p.hired.Some? then p.hired.value else now) as real / YEAR as real
  }

  /** Half a month's wage for each of the first five years, a full one for each further year. */
  function FullEntitlement(wage: int, years: real): real {
    if years <= 5.0 then wage as real / 2.0 * years
    else wage as real / 2.0 * 5.0 + wage as real * (years - 5.0)
  }

  /** The share of the entitlement that is paid on leaving. */
  function Share(why: Departure, years: real): real {
    if why != Resignation then 1.0
    else if years < 2.0 then 0.0
    else if years < 5.0 then 1.0 / 3.0
    else if years < 10.0 then 2.0 / 3.0
    else 1.0
  }

  function Payout(wage: int, years: real, why: Departure): real {
    FullEntitlement(wage, years) * Share(why, years)
  }

  function CalculateCurrentLiability(profiles: seq<Profile>, tenant: nat, id: nat, now: int, why: Departure)
    : Result<int>
  {
    if id >= |profiles| || profiles[id].tenant != tenant then Err(NoProfile)
    else Ok(Round(Payout(Wage(profiles[id]), Service(profiles[id], now), why)))
  }

  // ---- the shape of the liability ----

  lemma EntitlementMonotone(w: int, v: int, x: real, y: real)
    requires 0 <= w <= v && 0.0 <= x <= y
    ensures 0.0 <= FullEntitlement(w, x) <= FullEntitlement(v, y)
  {
    EntitlementInService(w, x, y);
    EntitlementInWage(w, v, y);
  }

  lemma EntitlementInService(w: int, x: real, y: real)
    requires 0 <= w && 0.0 <= x <= y
    ensures 0.0 <= FullEntitlement(w, x) <= FullEntitlement(w, y)
  {
    var half := w as real / 2.0;
    Scale(half, 0.0, x);
    if y <= 5.0 {
      Scale(half, x, y);
    } else if x <= 5.0 {
      Scale(half, x, 5.0);
      Scale(w as real, 0.0, y - 5.0);
      assert 0.0 <= w as real * (y - 5.0);
    } else {
      Scale(w as real, 0.0, x - 5.0);
      Scale(w as real, x - 5.0, y - 5.0);
    }
  }

  lemma EntitlementInWage(w: int, v: int, y: real)
    requires 0 <= w <= v && 0.0 <= y
    ensures FullEntitlement(w, y) <= FullEntitlement(v, y)
  {
    if y <= 5.0 {
      Scale(y, w as real / 2.0, v as real / 2.0);
    } else {
      Scale(y - 5.0, w as real, v as real);
    }
  }

  /** The reported liability never falls with longer service or a higher wage, on any kind of departure, and
      resigning never pays more than being dismissed. */
  lemma LiabilityMonotone(profiles: seq<Profile>, tenant: nat, i: nat, j: nat, now: int, later: int, why: Departure)
    requires i < |profiles| && j < |profiles| && profiles[i].tenant == profiles[j].tenant == tenant
    requires 0 <= Wage(profiles[i]) <= Wage(profiles[j])
    requires 0.0 <= Service(profiles[i], now) <= Service(profiles[j], later)
    ensures CalculateCurrentLiability(profiles, tenant, i, now, why).value
            <= CalculateCurrentLiability(profiles, tenant, j, later, why).value
    ensures CalculateCurrentLiability(profiles, tenant, i, now, Resignation).value
            <= CalculateCurrentLiability(profiles, tenant, i, now, Termination).value
  {
    hide FullEntitlement, Share, Payout, Round, Wage, Service;
    var w, v, x, y := Wage(profiles[i]), Wage(profiles[j]), Service(profiles[i], now), Service(profiles[j], later);
    ShareMonotone(x, y, why);
    ShareMonotone(x, x, Resignation);
    PayoutMonotone(w, v, x, y, why, why);
    PayoutMonotone(w, w, x, x, Resignation, Termination);
    RoundMonotone(Payout(w, x, why), Payout(v, y, why));
    RoundMonotone(Payout(w, x, Resignation), Payout(w, x, Termination));
  }

  lemma PayoutMonotone(w: int, v: int, x: real, y: real, why: Departure, how: Departure)
    requires 0 <= w <= v && 0.0 <= x <= y && 0.0 <= Share(why, x) <= Share(how, y)
    ensures Payout(w, x, why) <= Payout(v, y, how)
  {
    hide FullEntitlement, Share;
    EntitlementMonotone(w, v, x, y);
    ProductMonotone(FullEntitlement(w, x), FullEntitlement(v, y), Share(why, x), Share(how, y));
  }

  lemma ShareMonotone(x: real, y: real, why: Departure)
    requires 0.0 <= x <= y
    ensures 0.0 <= Share(why, x) <= Share(why, y) <= 1.0 && Share(Termination, x) == 1.0
  {
  }

  lemma ProductMonotone(e: real, f: real, s: real, t: real)
    requires 0.0 <= e <= f && 0.0 <= s <= t
    ensures e * s <= f * t
  {
    Scale(e, s, t);
    Scale(t, e, f);
  }

  // ---- monthly accrual ----

  /** A month's accrual for one employee. */
  function Accrual(wage: int, years: real): real {
    if years <= 5.0 then wage as real / 2.0 / 12.0 else wage as real / 12.0
  }

  /** A month's accrual for the tenant's employees. */
  function TotalAccrual(profiles: seq<Profile>, tenant: nat, now: int): real {
    if profiles == [] then 0.0
    else
      var p := profiles[|profiles| - 1];
      TotalAccrual(profiles[..|profiles| - 1], tenant, now)
      + if p.tenant == tenant then Accrual(Wage(p), Service(p, now)) else 0.0
  }

  function AccrualLines(expense: nat, provision: nat, amount: real): seq<LineInput> {
    [LineInput(expense, amount, 0.0), LineInput(provision, 0.0, amount)]
  }

  /** The chart with the accounts the accrual posts to. */
  function AccrualChart(accounts: seq<Account>, tenant: nat): (t: seq<Account>)
    ensures ChartOfAccounts.FindCode(t, tenant, "5120").Some? && ChartOfAccounts.FindCode(t, tenant, "2150").Some?
  {
    ChartOfAccounts.Ensured(ChartOfAccounts.Ensured(accounts, tenant, "5120", Expense, "5100"),
                            tenant, "2150", Liability, "2100")
  }

  /** The entry of a month's accrual. */
  function AccrualEntry(accounts: seq<Account>, profiles: seq<Profile>, tenant: nat, now: int): seq<LineInput> {
    var chart := AccrualChart(accounts, tenant);
    AccrualLines(ChartOfAccounts.FindCode(chart, tenant, "5120").value,
                 ChartOfAccounts.FindCode(chart, tenant, "2150").value, TotalAccrual(profiles, tenant, now))
  }

  /** Why the accrual is refused: then the accounts it opened stay. */
  function AccrualError(b: Books, profiles: seq<Profile>, tenant: nat, now: int): Option<Error> {
    CreateError(b.(accounts := AccrualChart(b.accounts, tenant)), tenant, now,
                AccrualEntry(b.accounts, profiles, tenant, now))
  }

  function Accrued(b: Books, profiles: seq<Profile>, tenant: nat, now: int): Books {
    var books := b.(accounts := AccrualChart(b.accounts, tenant));
    if AccrualError(b, profiles, tenant, now).Some? then books
    else Posted(books, tenant, now, AccrualEntry(b.accounts, profiles, tenant, now), now)
  }

  method BookMonthlyAccrual(db: Database, tenant: nat, now: int) returns (r: Result<nat>)
    modifies db`accounts, db`entries, db`lines
    ensures db.Ledger() == Accrued(old(db.Ledger()), db.profiles, tenant, now)
    ensures match AccrualError(old(db.Ledger()), db.profiles, tenant, now)
            case Some(e) => r == Err(e)
            case None => r == Ok(|old(db.entries)|)
  {
    hide Accrual, CreateError, Posted, ChartOfAccounts.Ensured, ChartOfAccounts.FindCode;
    var total := 0.0;
    for i := 0 to |db.profiles|
      invariant total == TotalAccrual(db.profiles[..i], tenant, now)
    {
      var p := db.profiles[i];
      assert db.profiles[..i + 1][..i] == db.profiles[..i];
      if p.tenant == tenant {
        total := total + Accrual(Wage(p), Service(p, now));
      }
    }
    assert db.profiles[..|db.profiles|] == db.profiles;
    var expense := ChartOfAccounts.EnsureAccount(db, tenant, "5120", Expense, "5100");
    ghost var withExpense := db.accounts;
    var provision := ChartOfAccounts.EnsureAccount(db, tenant, "2150", Liability, "2100");
    ChartOfAccounts.FoundInPrefix(withExpense, db.accounts, tenant, "5120");
    r := JournalEntries.Create(db, tenant, now, AccrualLines(expense, provision, total), now);
  }

  // ---- accruals against the closed form ----

  /** Over one month of service a month's accrual is the growth of the entitlement, except that the month in
      which the five years end is accrued at the full rate from its start. */
  function MonthExcess(wage: int, years: real): real {
    if years < 5.0 < years + 1.0 / 12.0 then wage as real / 2.0 * (5.0 - years) else 0.0
  }

  lemma AccrualIsGrowth(wage: int, years: real)
    ensures Accrual(wage, years + 1.0 / 12.0)
            == FullEntitlement(wage, years + 1.0 / 12.0) - FullEntitlement(wage, years) + MonthExcess(wage, years)
  {
    var w, x := wage as real, years + 1.0 / 12.0;
    assert w / 2.0 * x == w / 2.0 * years + w / 2.0 / 12.0;
    assert w * (x - 5.0) == w * (years - 5.0) + w / 12.0;
    assert w / 2.0 * (5.0 - years) == w / 2.0 * 5.0 - w / 2.0 * years;
    assert w * (years - 5.0) == w * years - w * 5.0;
  }

  /** What n months of bookings, one at each month's end after t, accrue for the tenant's employees. */
  function Booked(profiles: seq<Profile>, tenant: nat, t: int, n: nat): real {
    if n == 0 then 0.0 else Booked(profiles, tenant, t, n - 1) + TotalAccrual(profiles, tenant, t + n * MONTH)
  }

  /** The entitlements of the tenant's employees at an instant. */
  function TotalEntitlement(profiles: seq<Profile>, tenant: nat, now: int): real {
    if profiles == [] then 0.0
    else
      var p := profiles[|profiles| - 1];
      TotalEntitlement(profiles[..|profiles| - 1], tenant, now)
      + if p.tenant == tenant then FullEntitlement(Wage(p), Service(p, now)) else 0.0
  }

  /** What the booking at the end of the n-th month after t accrues for an employee beyond the month's growth.
      Without a hire date there is an accrual but never an entitlement. */
  function ExcessAt(p: Profile, t: int, n: nat): real
    requires 0 < n
  {
    if p.hired.None? then Accrual(Wage(p), 0.0) else MonthExcess(Wage(p), Service(p, t + (n - 1) * MONTH))
  }

  function Excess(p: Profile, t: int, n: nat): real {
    if n == 0 then 0.0 else Excess(p, t, n - 1) + ExcessAt(p, t, n)
  }

  function TotalExcess(profiles: seq<Profile>, tenant: nat, t: int, n: nat): real {
    if profiles == [] then 0.0
    else
      var p := profiles[|profiles| - 1];
      TotalExcess(profiles[..|profiles| - 1], tenant, t, n) + if p.tenant == tenant then Excess(p, t, n) else 0.0
  }

  lemma ServiceInMonths(p: Profile, t: int, n: int)
    requires p.hired.Some?
    ensures Service(p, t + n * MONTH) == Service(p, t) + n as real / 12.0
  {
    assert (t + n * MONTH - p.hired.value) as real == (t - p.hired.value) as real + n as real * MONTH as real;
    assert MONTH as real / YEAR as real == 1.0 / 12.0;
  }

  lemma EmployeeMonth(p: Profile, t: int, n: nat)
    requires 0 < n
    ensures Accrual(Wage(p), Service(p, t + n * MONTH))
            == FullEntitlement(Wage(p), Service(p, t + n * MONTH))
               - FullEntitlement(Wage(p), Service(p, t + (n - 1) * MONTH)) + ExcessAt(p, t, n)
  {
    hide Accrual, FullEntitlement, MonthExcess, Wage;
    if p.hired.Some? {
      var years := Service(p, t + (n - 1) * MONTH);
      ServiceInMonths(p, t, n);
      ServiceInMonths(p, t, n - 1);
      assert Service(p, t + n * MONTH) == years + 1.0 / 12.0;
      AccrualIsGrowth(Wage(p), years);
    }
  }

  lemma {:induction false} MonthGrowth(profiles: seq<Profile>, tenant: nat, t: int, n: nat)
    requires 0 < n
    ensures TotalAccrual(profiles, tenant, t + n * MONTH)
            == TotalEntitlement(profiles, tenant, t + n * MONTH)
               - TotalEntitlement(profiles, tenant, t + (n - 1) * MONTH)
               + TotalExcess(profiles, tenant, t, n) - TotalExcess(profiles, tenant, t, n - 1)
  {
    hide Accrual, FullEntitlement, Service, ExcessAt;
    if profiles != [] {
      MonthGrowth(profiles[..|profiles| - 1], tenant, t, n);
      EmployeeMonth(profiles[|profiles| - 1], t, n);
    }
  }

  lemma {:induction false} NoExcess(profiles: seq<Profile>, tenant: nat, t: int)
    ensures TotalExcess(profiles, tenant, t, 0) == 0.0
  {
    if profiles != [] { NoExcess(profiles[..|profiles| - 1], tenant, t); }
  }

  /** With constant wages, n monthly accruals add up to the growth of all employees' entitlements and to what is
      accrued in excess of it, whenever the employees were hired. */
  lemma {:induction false} AccrualsAddUp(profiles: seq<Profile>, tenant: nat, t: int, n: nat)
    ensures Booked(profiles, tenant, t, n)
            == TotalEntitlement(profiles, tenant, t + n * MONTH) - TotalEntitlement(profiles, tenant, t)
               + TotalExcess(profiles, tenant, t, n)
  {
    hide TotalAccrual, TotalEntitlement, TotalExcess;
    if n > 0 {
      AccrualsAddUp(profiles, tenant, t, n - 1);
      MonthGrowth(profiles, tenant, t, n);
    } else {
      NoExcess(profiles, tenant, t);
    }
  }

  /** An employee's excess: nothing unless the five years end within the bookings, and then at most half a month
      of the difference between the rates, a twenty-fourth of the monthly wage. */
  lemma {:induction false} ExcessWithin(p: Profile, t: int, n: nat)
    requires p.hired.Some? && 0 <= Wage(p)
    ensures 0.0 <= Excess(p, t, n) <= Wage(p) as real / 24.0
    ensures !(Service(p, t) < 5.0 < Service(p, t + n * MONTH)) ==> Excess(p, t, n) == 0.0
  {
    hide Service, Wage;
    if n > 0 {
      ExcessWithin(p, t, n - 1);
      ServiceInMonths(p, t, n);
      ServiceInMonths(p, t, n - 1);
      var years := Service(p, t + (n - 1) * MONTH);
      assert Service(p, t + n * MONTH) == years + 1.0 / 12.0 && Service(p, t) <= years;
      if years < 5.0 < years + 1.0 / 12.0 { MonthExcessWithin(Wage(p), years); }
    }
  }

  lemma MonthExcessWithin(wage: int, years: real)
    requires 0 <= wage && years < 5.0 < years + 1.0 / 12.0
    ensures 0.0 <= MonthExcess(wage, years) <= wage as real / 24.0
  {
    Scale(wage as real / 2.0, 0.0, 5.0 - years);
    Scale(wage as real / 2.0, 5.0 - years, 1.0 / 12.0);
  }

  /** Without a hire date the excess is all that is accrued: half a month's wage a year. */
  lemma {:induction false} ExcessUnhired(p: Profile, t: int, n: nat)
    requires p.hired.None?
    ensures Excess(p, t, n) == n as real * (Wage(p) as real / 24.0)
  {
    hide Wage;
    if n > 0 {
      ExcessUnhired(p, t, n - 1);
      OneMoreTime(n, Wage(p) as real / 24.0);
      HalfByTwelve(Wage(p) as real);
    }
  }

  lemma OneMoreTime(n: nat, x: real)
    requires 0 < n
    ensures n as real * x == (n - 1) as real * x + x
  {
    assert n as real == (n - 1) as real + 1.0;
  }

  lemma HalfByTwelve(w: real)
    ensures w / 2.0 / 12.0 == w / 24.0
  {
  }

  /** An employee's share of the two bounds below. */
  function LeastExcess(p: Profile, n: nat): real {
    if p.hired.None? then n as real * (Wage(p) as real / 24.0) else 0.0
  }

  function MostExcess(p: Profile, t: int, n: nat): real {
    LeastExcess(p, n)
    + if p.hired.Some? && Service(p, t) < 5.0 < Service(p, t + n * MONTH) then Wage(p) as real / 24.0 else 0.0
  }

  /** A twenty-fourth of the wage for each booking of an employee without a hire date. */
  function Unhired(profiles: seq<Profile>, tenant: nat, n: nat): real {
    if profiles == [] then 0.0
    else
      var p := profiles[|profiles| - 1];
      Unhired(profiles[..|profiles| - 1], tenant, n) + if p.tenant == tenant then LeastExcess(p, n) else 0.0
  }

  /** Besides that, a twenty-fourth for each employee whose five years end within the bookings. */
  function Crossings(profiles: seq<Profile>, tenant: nat, t: int, n: nat): real {
    if profiles == [] then 0.0
    else
      var p := profiles[|profiles| - 1];
      Crossings(profiles[..|profiles| - 1], tenant, t, n)
      + if p.tenant == tenant then MostExcess(p, t, n) - LeastExcess(p, n) else 0.0
  }

  lemma {:induction false} TotalExcessWithin(profiles: seq<Profile>, tenant: nat, t: int, n: nat)
    requires forall i :: 0 <= i < |profiles| && profiles[i].tenant == tenant ==> 0 <= Wage(profiles[i])
    ensures Unhired(profiles, tenant, n)
            <= TotalExcess(profiles, tenant, t, n)
            <= Unhired(profiles, tenant, n) + Crossings(profiles, tenant, t, n)
  {
    hide Service, Wage, Excess;
    if profiles != [] {
      var p := profiles[|profiles| - 1];
      TotalExcessWithin(profiles[..|profiles| - 1], tenant, t, n);
      if p.hired.None? { ExcessUnhired(p, t, n); } else if p.tenant == tenant { ExcessWithin(p, t, n); }
    }
  }

  /** A month in which five years of service end strictly inside. */
  ghost predicate EndsInside(p: Profile, t: int, k: nat) {
    Service(p, t + k * MONTH) < 5.0 < Service(p, t + k * MONTH) + 1.0 / 12.0
  }

  /** A paid, hired employee has no excess exactly when no booked month is such a month. */
  lemma {:induction false} NoExcessExactly(p: Profile, t: int, n: nat)
    requires p.hired.Some? && 0 <= Wage(p)
    ensures Excess(p, t, n) == 0.0 <==> Wage(p) == 0 || forall k: nat :: k < n ==> !EndsInside(p, t, k)
  {
    hide Service, Wage;
    if n > 0 {
      NoExcessExactly(p, t, n - 1);
      ExcessWithin(p, t, n - 1);
      var years := Service(p, t + (n - 1) * MONTH);
      if years < 5.0 < years + 1.0 / 12.0 { MonthExcessSign(Wage(p), years); }
      assert EndsInside(p, t, n - 1) <==> years < 5.0 < years + 1.0 / 12.0;
    }
  }

  lemma MonthExcessSign(wage: int, years: real)
    requires 0 <= wage && years < 5.0 < years + 1.0 / 12.0
    ensures 0.0 <= MonthExcess(wage, years) && (MonthExcess(wage, years) == 0.0 <==> wage == 0)
  {
    MonthExcessWithin(wage, years);
    ProductZero(wage as real / 2.0, 5.0 - years);
  }

  lemma ProductZero(x: real, y: real)
    requires y > 0.0
    ensures x * y == 0.0 <==> x == 0.0
  {
  }

  /** Hired, with no fraction of a month of service when the five years end. */
  ghost predicate EndsOnMonth(p: Profile, t: int) {
    p.hired.Some? && exists months: int :: p.hired.value == t - months * MONTH
  }

  /** So the accruals are exactly the growth for employees hired whole months before the first booking, or after
      it. */
  lemma {:induction false} WholeMonthsExact(p: Profile, t: int, n: nat)
    requires EndsOnMonth(p, t)
    ensures Excess(p, t, n) == 0.0
  {
    hide Service, Wage;
    if n > 0 {
      WholeMonthsExact(p, t, n - 1);
      var months: int :| p.hired.value == t - months * MONTH;
      var years := Service(p, t + (n - 1) * MONTH);
      YearsInMonths(p, t, months, n - 1);
    }
  }

  lemma YearsInMonths(p: Profile, t: int, months: int, n: int)
    requires p.hired == Some(t - months * MONTH)
    ensures var years := Service(p, t + n * MONTH);
            years == (months + n) as real / 12.0 && !(years < 5.0 < years + 1.0 / 12.0)
  {
    assert t + n * MONTH - p.hired.value == (months + n) * MONTH;
    assert ((months + n) * MONTH) as real == (months + n) as real * MONTH as real;
    assert MONTH as real / YEAR as real == 1.0 / 12.0;
    assert months + n < 60 ==> months + n + 1 <= 60;
  }

  // ---- the provision in the ledger ----

  /** A month's accrual as the ledger stores it. */
  function BookedCents(profiles: seq<Profile>, tenant: nat, t: int, n: nat): int {
    if n == 0 then 0
    else BookedCents(profiles, tenant, t, n - 1) + Round(TotalAccrual(profiles, tenant, t + n * MONTH))
  }

  /** The books after bookings at the ends of the n months after t. */
  function BooksAfter(b: Books, profiles: seq<Profile>, tenant: nat, t: int, n: nat): Books {
    if n == 0 then b else Accrued(BooksAfter(b, profiles, tenant, t, n - 1), profiles, tenant, t + n * MONTH)
  }

  ghost predicate AllAccepted(b: Books, profiles: seq<Profile>, tenant: nat, t: int, n: nat) {
    forall k :: 0 <= k < n ==>
      AccrualError(BooksAfter(b, profiles, tenant, t, k), profiles, tenant, t + (k + 1) * MONTH) == None
  }

  /** The provision account, once opened. */
  function Provision(accounts: seq<Account>, tenant: nat): nat {
    ChartOfAccounts.FindCode(AccrualChart(accounts, tenant), tenant, "2150").value
  }

  lemma ChartSettled(accounts: seq<Account>, tenant: nat)
    ensures AccrualChart(AccrualChart(accounts, tenant), tenant) == AccrualChart(accounts, tenant)
  {
    hide ChartOfAccounts.FindCode;
  }

  /** What a booking does to any account: the accrual is debited to 5120 and credited to 2150. */
  lemma {:induction false} EntryMoves(accounts: seq<Account>, profiles: seq<Profile>, tenant: nat, now: int,
                                      account: nat)
    ensures var chart, accrued := AccrualChart(accounts, tenant), Round(TotalAccrual(profiles, tenant, now));
            LedgerBooks.Moved(AccrualEntry(accounts, profiles, tenant, now), account)
            == (if ChartOfAccounts.FindCode(chart, tenant, "5120") == Some(account) then accrued else 0)
               - (if ChartOfAccounts.FindCode(chart, tenant, "2150") == Some(account) then accrued else 0)
  {
    hide ChartOfAccounts.FindCode, AccrualChart, TotalAccrual, LedgerBooks.Moved, Round;
    var ls := AccrualEntry(accounts, profiles, tenant, now);
    LedgerBooks.NothingMoved(account);
    LedgerBooks.MovedAppend([], ls[0], account);
    LedgerBooks.MovedAppend([ls[0]], ls[1], account);
    assert [] + [ls[0]] == [ls[0]] && [ls[0]] + [ls[1]] == ls;
    RoundWhole(0);
  }

  lemma {:induction false} AccrualMoves(accounts: seq<Account>, profiles: seq<Profile>, tenant: nat, now: int)
    ensures LedgerBooks.Moved(AccrualEntry(accounts, profiles, tenant, now), Provision(accounts, tenant))
            == -Round(TotalAccrual(profiles, tenant, now))
  {
    hide ChartOfAccounts.FindCode, AccrualChart, TotalAccrual, LedgerBooks.Moved, Round, AccrualEntry;
    var provision, chart := Provision(accounts, tenant), AccrualChart(accounts, tenant);
    var expense := ChartOfAccounts.FindCode(chart, tenant, "5120").value;
    assert chart[expense].code == "5120" && chart[provision].code == "2150";
    EntryMoves(accounts, profiles, tenant, now, provision);
  }

  lemma {:induction false} AccruedLedger(b: Books, profiles: seq<Profile>, tenant: nat, now: int)
    requires LedgerBooks.Linked(b) && AccrualError(b, profiles, tenant, now) == None
    ensures var t, account := Accrued(b, profiles, tenant, now), Provision(b.accounts, tenant);
            && LedgerBooks.Linked(t) && t.accounts == AccrualChart(b.accounts, tenant)
            && GeneralLedger.AccountNet(t.entries, t.lines, tenant, LedgerBooks.ALL_TIME, account)
               == GeneralLedger.AccountNet(b.entries, b.lines, tenant, LedgerBooks.ALL_TIME, account)
                  - Round(TotalAccrual(profiles, tenant, now))
  {
    hide AccrualChart, AccrualEntry, TotalAccrual, Provision, Round, NextNumber, LedgerBooks.Moved, CreateError,
         GeneralLedger.AccountNet;
    var books, ls := b.(accounts := AccrualChart(b.accounts, tenant)), AccrualEntry(b.accounts, profiles, tenant, now);
    AccrualMoves(b.accounts, profiles, tenant, now);
    LedgerBooks.PostMoves(books, tenant, now, ls, now, tenant, LedgerBooks.ALL_TIME, Provision(b.accounts, tenant));
    LedgerBooks.StoredRows(books, tenant, ls, now);
    LedgerBooks.AppendKeeps(books, Entry(tenant, NextNumber("JE", books.entries, tenant, now), now, None),
                            Stored(ls, tenant, |books.entries|, now));
  }

  /** After n accepted bookings in a row the balance of the provision account, code 2150, has been credited exactly
      the stored accruals. Payroll credits its other deductions to the same code, so nothing is said of months with
      a payroll run in between. */
  lemma {:induction false} ProvisionInLedger(b: Books, profiles: seq<Profile>, tenant: nat, t: int, n: nat)
    requires LedgerBooks.Linked(b) && AllAccepted(b, profiles, tenant, t, n)
    ensures var after, account := BooksAfter(b, profiles, tenant, t, n), Provision(b.accounts, tenant);
            && LedgerBooks.Linked(after)
            && after.accounts == (if n == 0 then b.accounts else AccrualChart(b.accounts, tenant))
            && GeneralLedger.AccountNet(after.entries, after.lines, tenant, LedgerBooks.ALL_TIME, account)
               == GeneralLedger.AccountNet(b.entries, b.lines, tenant, LedgerBooks.ALL_TIME, account)
                  - BookedCents(profiles, tenant, t, n)
  {
    hide AccrualChart, AccrualError, Accrued, TotalAccrual, Round, GeneralLedger.AccountNet, LedgerBooks.Linked;
    if n > 0 {
      ProvisionInLedger(b, profiles, tenant, t, n - 1);
      assert AccrualError(BooksAfter(b, profiles, tenant, t, n - 1), profiles, tenant, t + (n - 1 + 1) * MONTH) == None;
      AccruedLedger(BooksAfter(b, profiles, tenant, t, n - 1), profiles, tenant, t + n * MONTH);
      ChartSettled(b.accounts, tenant);
    }
  }

  lemma {:induction false} StoredNearAccrued(profiles: seq<Profile>, tenant: nat, t: int, n: nat)
    ensures var booked := Booked(profiles, tenant, t, n);
            booked - n as real * 0.5 <= BookedCents(profiles, tenant, t, n) as real <= booked + n as real * 0.5
  {
    hide TotalAccrual;
    if n > 0 { StoredNearAccrued(profiles, tenant, t, n - 1); }
  }

  /** The provision in the ledger has then grown by the entitlements' growth and the excess, to within half a cent
      a booking. */
  lemma {:induction false} ProvisionDrift(b: Books, profiles: seq<Profile>, tenant: nat, t: int, n: nat)
    requires LedgerBooks.Linked(b) && AllAccepted(b, profiles, tenant, t, n)
    ensures var after, account := BooksAfter(b, profiles, tenant, t, n), Provision(b.accounts, tenant);
            var all := LedgerBooks.ALL_TIME;
            var credited := GeneralLedger.AccountNet(b.entries, b.lines, tenant, all, account)
                            - GeneralLedger.AccountNet(after.entries, after.lines, tenant, all, account);
            var growth := TotalEntitlement(profiles, tenant, t + n * MONTH) - TotalEntitlement(profiles, tenant, t)
                          + TotalExcess(profiles, tenant, t, n);
            growth - n as real * 0.5 <= credited as real <= growth + n as real * 0.5
  {
    hide Booked, BookedCents, BooksAfter, Provision, AllAccepted, LedgerBooks.Linked, GeneralLedger.AccountNet,
         TotalEntitlement, TotalExcess;
    ProvisionInLedger(b, profiles, tenant, t, n);
    AccrualsAddUp(profiles, tenant, t, n);
    StoredNearAccrued(profiles, tenant, t, n);
  }

  // ---- the figures of the law ----

  /** Half a month's wage for each of five years and a whole one for each further year, and on resignation nothing
      before two years, a third before five, two thirds before ten, and all of it from then on. */
  lemma PayoutBands(wage: int, years: real)
    ensures var full := if years <= 5.0 then wage as real * years / 2.0 else wage as real * (years - 2.5);
            && Payout(wage, years, Termination) == full && Payout(wage, years, Active) == full
            && (years < 2.0 ==> Payout(wage, years, Resignation) == 0.0)
            && (2.0 <= years < 5.0 ==> 3.0 * Payout(wage, years, Resignation) == full)
            && (5.0 <= years < 10.0 ==> 3.0 * Payout(wage, years, Resignation) == 2.0 * full)
            && (10.0 <= years ==> Payout(wage, years, Resignation) == full)
  {
    var w := wage as real;
    assert w / 2.0 * years == w * years / 2.0;
    assert w / 2.0 * 5.0 + w * (years - 5.0) == w * (years - 2.5);
    assert 3.0 * (FullEntitlement(wage, years) * (1.0 / 3.0)) == FullEntitlement(wage, years);
    assert 3.0 * (FullEntitlement(wage, years) * (2.0 / 3.0)) == 2.0 * FullEntitlement(wage, years);
  }

  /** The report is that payout in cents, for basic, housing and transport pay and years of 365.25 days since the hire
      date, if the profile is the tenant's. */
  lemma LiabilityIs(profiles: seq<Profile>, tenant: nat, id: nat, now: int, why: Departure)
    ensures CalculateCurrentLiability(profiles, tenant, id, now, why)
            == if id >= |profiles| || profiles[id].tenant != tenant then Err(NoProfile)
               else
                 var p := profiles[id];
                 var worked := if p.hired.None? then 0 else now - p.hired.value;
                 Ok(Round(Payout(p.basic + p.housing + p.transport, worked as real / 31557600000.0, why)))
  {
    hide Round, Payout;
  }

  /** A booking opens at most an expense account 5120 and a liability account 2150, under 5100 and 2100. */
  lemma AccrualChartOpens(accounts: seq<Account>, tenant: nat, i: nat)
    requires |accounts| <= i < |AccrualChart(accounts, tenant)|
    ensures var a := AccrualChart(accounts, tenant)[i];
            && a.tenant == tenant && a.active
            && ((a.code == "5120" && a.ty == Expense) || (a.code == "2150" && a.ty == Liability))
            && (a.parent.Some? ==>
                  && a.parent.value < i
                  && AccrualChart(accounts, tenant)[a.parent.value].code == if a.ty == Expense then "5100" else "2100")
  {
    hide ChartOfAccounts.FindCode;
  }
}
