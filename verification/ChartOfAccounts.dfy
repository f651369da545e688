/** The chart of accounts: creation, the starter template, the tree view and the posting guard
    (chart-of-accounts.service.ts). */
module ChartOfAccounts {
  import opened Schema

  // ---- posting guard ----

  predicate HasChildren(accounts: seq<Account>, id: nat) {
    exists i :: 0 <= i < |accounts| && accounts[i].parent == Some(id)
  }

  /** Only an active account of the tenant without children takes postings. */
  function PostingError(accounts: seq<Account>, tenant: nat, id: nat): Option<Error> {
    if id >= |accounts| || accounts[id].tenant != tenant || !accounts[id].active then Some(AccountInvalid)
    else if HasChildren(accounts, id) then Some(SummaryAccount)
    else None
  }

  // ---- creation ----

  /** The tenant's account with a code. */
  function FindCode(accounts: seq<Account>, tenant: nat, code: string): (id: Option<nat>)
    ensures id.Some? ==>
              id.value < |accounts| && accounts[id.value].tenant == tenant && accounts[id.value].code == code
    ensures id.None? ==>
              forall i :: 0 <= i < |accounts| ==> accounts[i].tenant != tenant || accounts[i].code != code
  {
    if accounts == [] then None
    else
      var earlier := FindCode(accounts[..|accounts| - 1], tenant, code);
      var last := accounts[|accounts| - 1];
      if earlier.Some? then earlier
      else if last.tenant == tenant && last.code == code then Some(|accounts| - 1)
      else None
  }

  function CreateError(accounts: seq<Account>, tenant: nat, code: string, ty: AccountType, parent: Option<nat>)
    : Option<Error>
  {
    if FindCode(accounts, tenant, code).Some? then Some(CodeExists)
    else if parent.None? then None
    else if parent.value >= |accounts| || accounts[parent.value].tenant != tenant then Some(ParentInvalid)
    else if accounts[parent.value].ty != ty then Some(ParentType)
    else None
  }

  method CreateAccount(db: Database, tenant: nat, code: string, ty: AccountType, parent: Option<nat>)
    returns (r: Result<nat>)
    modifies db`accounts
    ensures match CreateError(old(db.accounts), tenant, code, ty, parent)
            case Some(e) => r == Err(e) && db.accounts == old(db.accounts)
            case None =>
              && r == Ok(|old(db.accounts)|)
              && db.accounts == old(db.accounts) + [Account(tenant, code, ty, parent, true)]
  {
    if FindCode(db.accounts, tenant, code).Some? {
      return Err(CodeExists);
    }
    if parent.Some? {
      if parent.value >= |db.accounts| || db.accounts[parent.value].tenant != tenant {
        return Err(ParentInvalid);
      }
      if db.accounts[parent.value].ty != ty {
        return Err(ParentType);
      }
    }
    db.accounts := db.accounts + [Account(tenant, code, ty, parent, true)];
    r := Ok(|db.accounts| - 1);
  }

  // ---- the starter template ----

  datatype TemplateRow = TemplateRow(code: string, ty: AccountType, parent: Option<string>)

  const TEMPLATE: seq<TemplateRow> := [
    TemplateRow("1000", Asset, None),
    TemplateRow("1100", Asset, Some("1000")),
    TemplateRow("1110", Asset, Some("1100")),
    TemplateRow("1111", Asset, Some("1110")),
    TemplateRow("1120", Asset, Some("1100")),
    TemplateRow("2000", Liability, None),
    TemplateRow("2100", Liability, Some("2000")),
    TemplateRow("2110", Liability, Some("2100")),
    TemplateRow("2120", Liability, Some("2100")),
    TemplateRow("3000", Equity, None),
    TemplateRow("3100", Equity, Some("3000")),
    TemplateRow("3200", Equity, Some("3000")),
    TemplateRow("4000", Revenue, None),
    TemplateRow("4100", Revenue, Some("4000")),
    TemplateRow("4110", Revenue, Some("4000")),
    TemplateRow("5000", Expense, None),
    TemplateRow("5100", Expense, Some("5000")),
    TemplateRow("5110", Expense, Some("5100")),
    TemplateRow("5120", Expense, Some("5100"))
  ]

  /** The chart once the given template rows have been dealt with: rows whose code the tenant already had
      are skipped, the others are hung under the account with the parent's code. */
  function Seeded(accounts: seq<Account>, tenant: nat, rows: seq<TemplateRow>): (t: seq<Account>)
    ensures accounts <= t
  {
    if rows == [] then accounts
    else
      var t, row := Seeded(accounts, tenant, rows[..|rows| - 1]), rows[|rows| - 1];
      if FindCode(accounts, tenant, row.code).Some? then t
      else
        var parent := if row.parent.None? then None else FindCode(t, tenant, row.parent.value);
        t + [Account(tenant, row.code, row.ty, parent, true)]
  }

  method SeedSmeTemplate(db: Database, tenant: nat)
    requires WellFormed(db.accounts)
    modifies db`accounts
    ensures db.accounts == Seeded(old(db.accounts), tenant, TEMPLATE)
  {
    TemplateTidy();
    SeedRows(db, tenant, TEMPLATE);
  }

  /** `createdMap` starts from the tenant's accounts and always leads from a code to its account, so the
      error for a missing parent is never raised. */
  method SeedRows(db: Database, tenant: nat, rows: seq<TemplateRow>)
    requires WellFormed(db.accounts) && Tidy(rows)
    modifies db`accounts
    ensures db.accounts == Seeded(old(db.accounts), tenant, rows)
  {
    hide WellFormed, Tidy, FindCode, RowsFound;
    ghost var before := db.accounts;
    var created := IndexByCode(db, tenant);
    var existingCodes := created.Keys;
    for i := 0 to |rows|
      invariant db.accounts == Seeded(before, tenant, rows[..i])
      invariant Finds(created, db.accounts, tenant)
    {
      var row := rows[i];
      assert rows[..i + 1][..i] == rows[..i];
      TidyPrefix(rows, i);
      SeededKeeps(before, tenant, rows[..i]);
      if row.code in existingCodes {
        continue;
      }
      var parent: Option<nat> := None;
      if row.parent.Some? {
        ParentFound(before, db.accounts, tenant, rows, i);
        parent := Some(created[row.parent.value]);
      }
      RowMissing(before, db.accounts, tenant, rows, i);
      var a := Account(tenant, row.code, row.ty, parent, true);
      FindsExtends(created, db.accounts, a, tenant);
      created := created[row.code := |db.accounts|];
      db.accounts := db.accounts + [a];
    }
    assert rows[..|rows|] == rows;
  }

  method IndexByCode(db: Database, tenant: nat) returns (created: map<string, nat>)
    requires WellFormed(db.accounts)
    ensures Finds(created, db.accounts, tenant)
  {
    hide Finds, WellFormed;
    created := map[];
    NothingFound(tenant);
    for i := 0 to |db.accounts|
      invariant Finds(created, db.accounts[..i], tenant)
    {
      var a := db.accounts[i];
      assert db.accounts[..i + 1] == db.accounts[..i] + [a];
      CodeNew(db.accounts, i);
      FindsExtends(created, db.accounts[..i], a, tenant);
      if a.tenant == tenant {
        created := created[a.code := i];
      }
    }
    assert db.accounts[..|db.accounts|] == db.accounts;
  }

  lemma NothingFound(tenant: nat)
    ensures Finds(map[], [], tenant)
  {
  }

  lemma CodeNew(accounts: seq<Account>, i: nat)
    requires WellFormed(accounts) && i < |accounts|
    ensures FindCode(accounts[..i], accounts[i].tenant, accounts[i].code).None?
  {
  }

  /** The map leads from each code of the tenant to its account. */
  ghost predicate Finds(created: map<string, nat>, accounts: seq<Account>, tenant: nat) {
    forall c :: FindCode(accounts, tenant, c) == if c in created then Some(created[c]) else None
  }

  lemma {:induction false} FindsExtends(created: map<string, nat>, accounts: seq<Account>, a: Account, tenant: nat)
    requires Finds(created, accounts, tenant)
    requires a.tenant == tenant ==> FindCode(accounts, tenant, a.code).None?
    ensures Finds(if a.tenant == tenant then created[a.code := |accounts|] else created, accounts + [a], tenant)
  {
    hide FindCode;
    var created' := if a.tenant == tenant then created[a.code := |accounts|] else created;
    forall c
      ensures FindCode(accounts + [a], tenant, c) == if c in created' then Some(created'[c]) else None
    {
      FindCodeExtends(accounts, a, tenant, c);
    }
  }

  /** What is found in a chart is found in any longer one. */
  lemma {:induction false} FoundInPrefix(accounts: seq<Account>, longer: seq<Account>, tenant: nat, code: string)
    requires accounts <= longer && FindCode(accounts, tenant, code).Some?
    ensures FindCode(longer, tenant, code) == FindCode(accounts, tenant, code)
  {
    if |accounts| == |longer| {
      assert accounts == longer;
    } else {
      FoundInPrefix(accounts, longer[..|longer| - 1], tenant, code);
    }
  }

  // ---- accounts opened by other services ----

  /** Payroll and the end-of-service accrual open the accounts they post to when they are missing, under
      the account with the given code if there is one, whatever its type. */
  function Ensured(accounts: seq<Account>, tenant: nat, code: string, ty: AccountType, parent: string)
    : (t: seq<Account>)
    ensures accounts <= t && FindCode(t, tenant, code).Some?
  {
    if FindCode(accounts, tenant, code).Some? then accounts
    else
      var a := Account(tenant, code, ty, FindCode(accounts, tenant, parent), true);
      FindCodeExtends(accounts, a, tenant, code);
      accounts + [a]
  }

  /** It opens at most the one account, under the account with the parent's code if there is one. */
  lemma {:induction false} EnsuredOpens(accounts: seq<Account>, tenant: nat, code: string, ty: AccountType,
                                        parent: string)
    ensures var t := Ensured(accounts, tenant, code, ty, parent);
            || (FindCode(accounts, tenant, code).Some? && t == accounts)
            || (FindCode(accounts, tenant, code).None?
                && t == accounts + [Account(tenant, code, ty, FindCode(accounts, tenant, parent), true)])
  {
    hide FindCode;
  }

  method EnsureAccount(db: Database, tenant: nat, code: string, ty: AccountType, parent: string) returns (id: nat)
    modifies db`accounts
    ensures db.accounts == Ensured(old(db.accounts), tenant, code, ty, parent)
    ensures FindCode(db.accounts, tenant, code) == Some(id)
  {
    var found := FindCode(db.accounts, tenant, code);
    if found.Some? {
      id := found.value;
    } else {
      var a := Account(tenant, code, ty, FindCode(db.accounts, tenant, parent), true);
      FindCodeExtends(db.accounts, a, tenant, code);
      id := |db.accounts|;
      db.accounts := db.accounts + [a];
    }
  }

  // ---- what every chart keeps ----

  /** Parents are older accounts of the same tenant, and a tenant's codes differ. */
  ghost predicate WellFormed(accounts: seq<Account>) {
    && (forall i :: 0 <= i < |accounts| && accounts[i].parent.Some? ==>
          accounts[i].parent.value < i && accounts[accounts[i].parent.value].tenant == accounts[i].tenant)
    && (forall i, j :: 0 <= i < j < |accounts| && accounts[i].tenant == accounts[j].tenant ==>
          accounts[i].code != accounts[j].code)
  }

  /** A tenant's accounts have the type of their parents. */
  ghost predicate TypesMatch(accounts: seq<Account>, tenant: nat)
    requires WellFormed(accounts)
  {
    forall i :: 0 <= i < |accounts| && accounts[i].tenant == tenant && accounts[i].parent.Some? ==>
      accounts[accounts[i].parent.value].ty == accounts[i].ty
  }

  lemma {:induction false} AppendKeeps(accounts: seq<Account>, a: Account)
    requires WellFormed(accounts) && FindCode(accounts, a.tenant, a.code).None?
    requires a.parent.Some? ==> a.parent.value < |accounts| && accounts[a.parent.value].tenant == a.tenant
    ensures WellFormed(accounts + [a])
  {
  }

  lemma CreateKeeps(accounts: seq<Account>, tenant: nat, code: string, ty: AccountType, parent: Option<nat>, other: nat)
    requires WellFormed(accounts) && CreateError(accounts, tenant, code, ty, parent) == None
    ensures var t := accounts + [Account(tenant, code, ty, parent, true)];
            WellFormed(t) && (TypesMatch(accounts, other) ==> TypesMatch(t, other))
  {
    AppendKeeps(accounts, Account(tenant, code, ty, parent, true));
  }

  /** A found code stays found. */
  lemma {:induction false} FindCodeExtends(accounts: seq<Account>, a: Account, tenant: nat, code: string)
    ensures FindCode(accounts + [a], tenant, code)
            == if FindCode(accounts, tenant, code).Some? then FindCode(accounts, tenant, code)
               else if a.tenant == tenant && a.code == code then Some(|accounts|)
               else None
  {
    assert (accounts + [a])[..|accounts|] == accounts;
  }

  // ---- seeding ----

  /** Codes differ, and a row's parent comes before it with the same type. */
  ghost predicate Tidy(rows: seq<TemplateRow>) {
    && (forall i, j :: 0 <= i < j < |rows| ==> rows[i].code != rows[j].code)
    && (forall i :: 0 <= i < |rows| && rows[i].parent.Some? ==> ParentBefore(rows, i))
  }

  ghost predicate ParentBefore(rows: seq<TemplateRow>, i: int)
    requires 0 <= i < |rows| && rows[i].parent.Some?
  {
    exists p :: 0 <= p < i && rows[p].code == rows[i].parent.value && rows[p].ty == rows[i].ty
  }

  lemma TidyPrefix(rows: seq<TemplateRow>, n: nat)
    requires Tidy(rows) && n <= |rows|
    ensures Tidy(rows[..n])
  {
    forall i | 0 <= i < n && rows[..n][i].parent.Some?
      ensures ParentBefore(rows[..n], i)
    {
      assert ParentBefore(rows, i);
      var p :| 0 <= p < i && rows[p].code == rows[i].parent.value && rows[p].ty == rows[i].ty;
      assert rows[..n][p] == rows[p];
    }
  }

  lemma TemplateTidy()
    ensures Tidy(TEMPLATE)
  {
    forall i, j | 0 <= i < j < |TEMPLATE|
      ensures TEMPLATE[i].code != TEMPLATE[j].code
    {
      TemplateCodesIncrease(i, j);
    }
    forall i | 0 <= i < |TEMPLATE| && TEMPLATE[i].parent.Some?
      ensures ParentBefore(TEMPLATE, i)
    {
      TemplateParent(i);
    }
  }

  /** The template is listed in increasing order of its codes, read as numbers. */
  lemma {:induction false} TemplateCodesIncrease(i: nat, j: nat)
    requires i < j < |TEMPLATE|
    ensures CodeNumber(TEMPLATE[i].code) < CodeNumber(TEMPLATE[j].code)
  {
    NextCodeIncreases(j - 1);
    if i < j - 1 { TemplateCodesIncrease(i, j - 1); }
  }

  lemma NextCodeIncreases(i: nat)
    requires i + 1 < |TEMPLATE|
    ensures CodeNumber(TEMPLATE[i].code) < CodeNumber(TEMPLATE[i + 1].code)
  {
  }

  function CodeNumber(code: string): int {
    if |code| != 4 then 0
    else 1000 * code[0] as int + 100 * code[1] as int + 10 * code[2] as int + code[3] as int
  }

  lemma TemplateParent(i: nat)
    requires i < |TEMPLATE| && TEMPLATE[i].parent.Some?
    ensures ParentBefore(TEMPLATE, i)
  {
    if i < 5 {
      var p := [0, 0, 1, 2, 1][i];
      assert TEMPLATE[p].code == TEMPLATE[i].parent.value && TEMPLATE[p].ty == TEMPLATE[i].ty;
    } else if i < 12 {
      var p := [5, 5, 6, 6, 9, 9, 9][i - 5];
      assert TEMPLATE[p].code == TEMPLATE[i].parent.value && TEMPLATE[p].ty == TEMPLATE[i].ty;
    } else {
      var p := [12, 12, 12, 15, 15, 16, 16][i - 12];
      assert TEMPLATE[p].code == TEMPLATE[i].parent.value && TEMPLATE[p].ty == TEMPLATE[i].ty;
    }
  }

  /** The rows dealt with can be found; those the tenant lacked are new accounts of the row's type. */
  ghost predicate RowsFound(accounts: seq<Account>, t: seq<Account>, tenant: nat, rows: seq<TemplateRow>) {
    && (forall j :: 0 <= j < |rows| ==> RowFound(accounts, t, tenant, rows[j]))
    && (forall k :: |accounts| <= k < |t| ==>
          t[k].tenant == tenant && exists j :: 0 <= j < |rows| && rows[j].code == t[k].code)
    && (forall code :: FindCode(accounts, tenant, code).Some? ==>
          FindCode(t, tenant, code) == FindCode(accounts, tenant, code))
  }

  ghost predicate RowFound(accounts: seq<Account>, t: seq<Account>, tenant: nat, row: TemplateRow) {
    var id, before := FindCode(t, tenant, row.code), FindCode(accounts, tenant, row.code);
    id.Some? && if before.Some? then id == before else |accounts| <= id.value && t[id.value].ty == row.ty
  }

  /** A row the tenant lacks is still missing when its turn comes. */
  lemma {:induction false} RowMissing(accounts: seq<Account>, t: seq<Account>, tenant: nat, rows: seq<TemplateRow>,
                                      n: nat)
    requires n < |rows| && Tidy(rows) && accounts <= t && RowsFound(accounts, t, tenant, rows[..n])
    requires FindCode(accounts, tenant, rows[n].code).None?
    ensures FindCode(t, tenant, rows[n].code).None?
  {
  }

  lemma {:induction false} ParentFound(accounts: seq<Account>, t: seq<Account>, tenant: nat, rows: seq<TemplateRow>,
                                       n: nat)
    requires n < |rows| && Tidy(rows) && rows[n].parent.Some? && RowsFound(accounts, t, tenant, rows[..n])
    ensures var code := rows[n].parent.value;
            var id, before := FindCode(t, tenant, code), FindCode(accounts, tenant, code);
            && id.Some? && if before.Some? then id == before else t[id.value].ty == rows[n].ty
  {
    assert ParentBefore(rows, n);
    var p :| 0 <= p < n && rows[p].code == rows[n].parent.value && rows[p].ty == rows[n].ty;
    assert RowFound(accounts, t, tenant, rows[..n][p]);
  }

  /** Seeding never runs into a missing parent or a duplicate code. */
  lemma {:induction false} SeededKeeps(accounts: seq<Account>, tenant: nat, rows: seq<TemplateRow>)
    requires WellFormed(accounts) && Tidy(rows)
    ensures var t := Seeded(accounts, tenant, rows);
            WellFormed(t) && RowsFound(accounts, t, tenant, rows)
  {
    hide WellFormed, FindCode, RowsFound, RowFound, Tidy;
    if rows == [] {
      NothingSeeded(accounts, tenant);
    } else {
      var n := |rows| - 1;
      var t, row := Seeded(accounts, tenant, rows[..n]), rows[n];
      TidyPrefix(rows, n);
      SeededKeeps(accounts, tenant, rows[..n]);
      if FindCode(accounts, tenant, row.code).None? {
        RowMissing(accounts, t, tenant, rows, n);
        if row.parent.Some? { ParentFound(accounts, t, tenant, rows, n); }
        var parent := if row.parent.None? then None else FindCode(t, tenant, row.parent.value);
        var a := Account(tenant, row.code, row.ty, parent, true);
        AppendKeeps(t, a);
        SeedRowKeeps(accounts, t, tenant, rows, a);
      } else {
        SkipRowKeeps(accounts, t, tenant, rows);
      }
    }
  }

  lemma NothingSeeded(accounts: seq<Account>, tenant: nat)
    ensures RowsFound(accounts, accounts, tenant, [])
  {
  }

  lemma {:induction false} SkipRowKeeps(accounts: seq<Account>, t: seq<Account>, tenant: nat, rows: seq<TemplateRow>)
    requires rows != [] && RowsFound(accounts, t, tenant, rows[..|rows| - 1])
    requires FindCode(accounts, tenant, rows[|rows| - 1].code).Some?
    ensures RowsFound(accounts, t, tenant, rows)
  {
    var init := rows[..|rows| - 1];
    forall j | 0 <= j < |rows|
      ensures RowFound(accounts, t, tenant, rows[j])
    {
      if j < |init| { assert RowFound(accounts, t, tenant, init[j]); }
    }
    forall k | |accounts| <= k < |t|
      ensures t[k].tenant == tenant && exists j :: 0 <= j < |rows| && rows[j].code == t[k].code
    {
      var j :| 0 <= j < |init| && init[j].code == t[k].code;
      assert rows[j].code == t[k].code;
    }
  }

  lemma {:induction false} SeedRowKeeps(accounts: seq<Account>, t: seq<Account>, tenant: nat,
                                        rows: seq<TemplateRow>, a: Account)
    requires rows != [] && accounts <= t && RowsFound(accounts, t, tenant, rows[..|rows| - 1])
    requires var row := rows[|rows| - 1];
             && FindCode(accounts, tenant, row.code).None? && FindCode(t, tenant, row.code).None?
             && a.tenant == tenant && a.code == row.code && a.ty == row.ty
    ensures RowsFound(accounts, t + [a], tenant, rows)
  {
    hide FindCode;
    var init := rows[..|rows| - 1];
    forall code
      ensures FindCode(t + [a], tenant, code)
              == if FindCode(t, tenant, code).Some? then FindCode(t, tenant, code)
                 else if a.code == code then Some(|t|) else None
    {
      FindCodeExtends(t, a, tenant, code);
    }
    forall j | 0 <= j < |rows|
      ensures RowFound(accounts, t + [a], tenant, rows[j])
    {
      if j < |init| { assert RowFound(accounts, t, tenant, init[j]); }
    }
    forall k | |accounts| <= k < |t + [a]|
      ensures (t + [a])[k].tenant == tenant && exists j :: 0 <= j < |rows| && rows[j].code == (t + [a])[k].code
    {
      if k < |t| {
        var j :| 0 <= j < |init| && init[j].code == t[k].code;
        assert rows[j].code == t[k].code;
      } else {
        assert rows[|rows| - 1].code == a.code;
      }
    }
  }

  // ---- types ----

  /** No missing row is to be hung under an account the tenant opened with another type: the check that
      seeding, unlike `createAccount`, does not make. */
  ghost predicate SeedFits(accounts: seq<Account>, tenant: nat, rows: seq<TemplateRow>) {
    forall j :: 0 <= j < |rows| ==> RowFits(accounts, tenant, rows[j])
  }

  ghost predicate RowFits(accounts: seq<Account>, tenant: nat, row: TemplateRow) {
    FindCode(accounts, tenant, row.code).None? && row.parent.Some? ==>
      var id := FindCode(accounts, tenant, row.parent.value);
      id.Some? ==> accounts[id.value].ty == row.ty
  }

  /** Seeding leaves children with the types of their parents exactly when they had them before and every
      missing row fits the account it is hung under. */
  lemma {:induction false} SeedTypes(accounts: seq<Account>, tenant: nat, rows: seq<TemplateRow>)
    requires WellFormed(accounts) && Tidy(rows)
    ensures WellFormed(Seeded(accounts, tenant, rows))
    ensures TypesMatch(Seeded(accounts, tenant, rows), tenant)
            <==> TypesMatch(accounts, tenant) && SeedFits(accounts, tenant, rows)
  {
    hide WellFormed, FindCode, RowsFound, Tidy, TypesMatch, RowFits;
    SeededKeeps(accounts, tenant, rows);
    if rows != [] {
      var n := |rows| - 1;
      var init, row := rows[..n], rows[n];
      TidyPrefix(rows, n);
      SeedTypes(accounts, tenant, init);
      SeededKeeps(accounts, tenant, init);
      var t := Seeded(accounts, tenant, init);
      assert rows == init + [row];
      assert SeedFits(accounts, tenant, rows) <==> SeedFits(accounts, tenant, init) && RowFits(accounts, tenant, row);
      SeedRowTypes(accounts, t, tenant, rows, n);
    }
  }

  lemma AppendTypes(t: seq<Account>, a: Account, tenant: nat)
    requires WellFormed(t) && a.tenant == tenant && (a.parent.Some? ==> a.parent.value < |t|) && WellFormed(t + [a])
    ensures TypesMatch(t + [a], tenant)
            <==> TypesMatch(t, tenant) && (a.parent.Some? ==> t[a.parent.value].ty == a.ty)
  {
    var t' := t + [a];
    if TypesMatch(t', tenant) {
      forall i | 0 <= i < |t| && t[i].tenant == tenant && t[i].parent.Some?
        ensures t[t[i].parent.value].ty == t[i].ty
      {
        assert t'[i] == t[i];
      }
      assert t'[|t|] == a;
    }
  }

  lemma SeedRowTypes(accounts: seq<Account>, t: seq<Account>, tenant: nat, rows: seq<TemplateRow>, n: nat)
    requires WellFormed(accounts) && WellFormed(t) && Tidy(rows) && n < |rows| && accounts <= t
    requires RowsFound(accounts, t, tenant, rows[..n])
    ensures var row := rows[n];
            if FindCode(accounts, tenant, row.code).Some? then RowFits(accounts, tenant, row)
            else
              var parent := if row.parent.None? then None else FindCode(t, tenant, row.parent.value);
              var t' := t + [Account(tenant, row.code, row.ty, parent, true)];
              WellFormed(t') && (TypesMatch(t', tenant) <==> TypesMatch(t, tenant) && RowFits(accounts, tenant, row))
  {
    var row := rows[n];
    if FindCode(accounts, tenant, row.code).None? && row.parent.Some? {
      ParentFound(accounts, t, tenant, rows, n);
      var id := FindCode(t, tenant, row.parent.value);
      var a := Account(tenant, row.code, row.ty, id, true);
      RowMissing(accounts, t, tenant, rows, n);
      AppendKeeps(t, a);
      AppendTypes(t, a, tenant);
    } else if FindCode(accounts, tenant, row.code).None? {
      RowMissing(accounts, t, tenant, rows, n);
      AppendKeeps(t, Account(tenant, row.code, row.ty, None, true));
      AppendTypes(t, Account(tenant, row.code, row.ty, None, true), tenant);
    }
  }

  // ---- what is accepted ----

  /** Postings are taken by exactly the active accounts of the tenant that are nobody's parent. */
  lemma PostableExactly(accounts: seq<Account>, tenant: nat, id: nat)
    ensures PostingError(accounts, tenant, id) == None
            <==> && id < |accounts| && accounts[id].tenant == tenant && accounts[id].active
                 && forall i :: 0 <= i < |accounts| ==> accounts[i].parent != Some(id)
  {
  }

  /** An account is created exactly when the tenant has no account with its code and the parent, if one is named, is an
      account of the tenant with the same type. */
  lemma CreatedExactly(accounts: seq<Account>, tenant: nat, code: string, ty: AccountType, parent: Option<nat>)
    ensures CreateError(accounts, tenant, code, ty, parent) == None
            <==> && (forall i :: 0 <= i < |accounts| ==> accounts[i].tenant != tenant || accounts[i].code != code)
                 && (parent.Some? ==>
                       && parent.value < |accounts| && accounts[parent.value].tenant == tenant
                       && accounts[parent.value].ty == ty)
  {
    hide FindCode;
  }
}
