/** The tree view of a chart of accounts (chart-of-accounts.service.ts, `getAccountTree`). */
module AccountTree {
  import opened Schema
  import opened ChartOfAccounts

  /** The result of the service: the top-level nodes and each node's `children`, by account id. */
  datatype Links = Links(roots: seq<nat>, children: map<nat, seq<nat>>)

  /** What the database returns for a tenant: its accounts, each once, in some order. */
  ghost predicate Listing(accounts: seq<Account>, tenant: nat, ids: seq<nat>) {
    && (forall id: nat :: id in ids <==> id < |accounts| && accounts[id].tenant == tenant)
    && (forall i, j :: 0 <= i < j < |ids| ==> ids[i] != ids[j])
  }

  /** The listed accounts directly under one of them. */
  function ChildrenOf(accounts: seq<Account>, ids: seq<nat>, parent: nat): (kids: seq<nat>)
    requires forall i :: 0 <= i < |ids| ==> ids[i] < |accounts|
    ensures forall i :: 0 <= i < |kids| ==> kids[i] in ids
    ensures forall k: nat :: k in kids <==> k in ids && accounts[k].parent == Some(parent)
  {
    if ids == [] then []
    else
      var kids, id := ChildrenOf(accounts, ids[..|ids| - 1], parent), ids[|ids| - 1];
      if accounts[id].parent == Some(parent) then kids + [id] else kids
  }

  /** The listed accounts without a listed parent. */
  function RootsOf(accounts: seq<Account>, all: seq<nat>, ids: seq<nat>): (roots: seq<nat>)
    requires forall i :: 0 <= i < |ids| ==> ids[i] < |accounts|
    ensures forall i :: 0 <= i < |roots| ==> roots[i] in ids
    ensures forall k: nat :: k in roots <==> k in ids && (accounts[k].parent.None? || accounts[k].parent.value !in all)
  {
    if ids == [] then []
    else
      var roots, id := RootsOf(accounts, all, ids[..|ids| - 1]), ids[|ids| - 1];
      if accounts[id].parent.None? || accounts[id].parent.value !in all then roots + [id] else roots
  }

  method GetAccountTree(db: Database, ids: seq<nat>) returns (tree: Links)
    requires forall i :: 0 <= i < |ids| ==> ids[i] < |db.accounts|
    ensures tree.roots == RootsOf(db.accounts, ids, ids)
    ensures forall id: nat :: id in tree.children <==> id in ids
    ensures forall id :: id in ids ==> tree.children[id] == ChildrenOf(db.accounts, ids, id)
  {
    var accounts := db.accounts;
    var children: map<nat, seq<nat>> := map id | id in ids :: [];
    var roots: seq<nat> := [];
    for i := 0 to |ids|
      invariant roots == RootsOf(accounts, ids, ids[..i])
      invariant forall id: nat :: id in children <==> id in ids
      invariant forall id :: id in ids ==> children[id] == ChildrenOf(accounts, ids[..i], id)
    {
      var id := ids[i];
      assert ids[..i + 1][..i] == ids[..i];
      if accounts[id].parent.Some? {
        var parent := accounts[id].parent.value;
        if parent in children {
          children := children[parent := children[parent] + [id]];
        } else {
          roots := roots + [id];
        }
      } else {
        roots := roots + [id];
      }
    }
    assert ids[..|ids|] == ids;
    tree := Links(roots, children);
  }

  // ---- following the links ----

  datatype Tree = Node(id: nat, children: seq<Tree>)

  /** The tree below an account: finite because children are younger than their parents. */
  ghost function TreeOf(accounts: seq<Account>, ids: seq<nat>, id: nat): Tree
    requires WellFormed(accounts) && id < |accounts| && forall i :: 0 <= i < |ids| ==> ids[i] < |accounts|
    decreases |accounts| - id, 0
  {
    assert forall k :: k in ChildrenOf(accounts, ids, id) ==> id < k;
    Node(id, TreesOf(accounts, ids, ChildrenOf(accounts, ids, id), id + 1))
  }

  ghost function TreesOf(accounts: seq<Account>, ids: seq<nat>, kids: seq<nat>, from: nat): (trees: seq<Tree>)
    requires WellFormed(accounts) && forall i :: 0 <= i < |ids| ==> ids[i] < |accounts|
    requires forall i :: 0 <= i < |kids| ==> from <= kids[i] < |accounts|
    decreases |accounts| - from, |kids| + 1
  {
    if kids == [] then []
    else TreesOf(accounts, ids, kids[..|kids| - 1], from) + [TreeOf(accounts, ids, kids[|kids| - 1])]
  }

  ghost function Forest(accounts: seq<Account>, ids: seq<nat>): seq<Tree>
    requires WellFormed(accounts) && forall i :: 0 <= i < |ids| ==> ids[i] < |accounts|
  {
    TreesOf(accounts, ids, RootsOf(accounts, ids, ids), 0)
  }

  /** How often an account occurs in a tree. */
  ghost function Occurrences(x: nat, t: Tree): nat {
    (if t.id == x then 1 else 0) + OccurrencesIn(x, t.children)
  }

  ghost function OccurrencesIn(x: nat, trees: seq<Tree>): nat {
    if trees == [] then 0
    else OccurrencesIn(x, trees[..|trees| - 1]) + Occurrences(x, trees[|trees| - 1])
  }

  ghost predicate Distinct(ids: seq<nat>) {
    forall i, j :: 0 <= i < j < |ids| ==> ids[i] != ids[j]
  }

  lemma {:induction false} OneMoreTree(x: nat, trees: seq<Tree>, t: Tree)
    ensures OccurrencesIn(x, trees + [t]) == OccurrencesIn(x, trees) + Occurrences(x, t)
  {
    assert (trees + [t])[..|trees|] == trees;
  }

  lemma {:induction false} Kids(accounts: seq<Account>, ids: seq<nat>, id: nat)
    requires WellFormed(accounts) && id < |accounts| && forall i :: 0 <= i < |ids| ==> ids[i] < |accounts|
    ensures var kids := ChildrenOf(accounts, ids, id);
            && (forall i :: 0 <= i < |kids| ==>
                  id + 1 <= kids[i] < |accounts| && kids[i] in ids && accounts[kids[i]].parent == Some(id))
            && TreeOf(accounts, ids, id) == Node(id, TreesOf(accounts, ids, kids, id + 1))
  {
    var kids := ChildrenOf(accounts, ids, id);
    forall i | 0 <= i < |kids|
      ensures id + 1 <= kids[i] < |accounts| && kids[i] in ids && accounts[kids[i]].parent == Some(id)
    {
      assert kids[i] in kids;
    }
  }

  /** An account is found nowhere below a younger one. */
  lemma {:induction false} NotBelow(accounts: seq<Account>, ids: seq<nat>, kids: seq<nat>, from: nat, x: nat)
    requires WellFormed(accounts) && forall i :: 0 <= i < |ids| ==> ids[i] < |accounts|
    requires x < from && forall i :: 0 <= i < |kids| ==> from <= kids[i] < |accounts|
    ensures OccurrencesIn(x, TreesOf(accounts, ids, kids, from)) == 0
    decreases |accounts| - from, |kids|
  {
    hide WellFormed, ChildrenOf;
    if kids != [] {
      var init, last := kids[..|kids| - 1], kids[|kids| - 1];
      NotBelow(accounts, ids, init, from, x);
      Kids(accounts, ids, last);
      NotBelow(accounts, ids, ChildrenOf(accounts, ids, last), last + 1, x);
      OneMoreTree(x, TreesOf(accounts, ids, init, from), TreeOf(accounts, ids, last));
    }
  }

  /** The parent under which an account is listed. */
  ghost function ListedParent(accounts: seq<Account>, ids: seq<nat>, x: nat): (p: Option<nat>)
    requires WellFormed(accounts) && x < |accounts|
    ensures p.Some? ==> p.value < x
  {
    if x in ids && accounts[x].parent.Some? && accounts[x].parent.value in ids then accounts[x].parent else None
  }

  lemma {:induction false} ChildrenDistinct(accounts: seq<Account>, ids: seq<nat>, parent: nat)
    requires Distinct(ids) && forall i :: 0 <= i < |ids| ==> ids[i] < |accounts|
    ensures Distinct(ChildrenOf(accounts, ids, parent))
  {
    if ids != [] { ChildrenDistinct(accounts, ids[..|ids| - 1], parent); }
  }

  lemma {:induction false} RootsDistinct(accounts: seq<Account>, all: seq<nat>, ids: seq<nat>)
    requires Distinct(ids) && forall i :: 0 <= i < |ids| ==> ids[i] < |accounts|
    ensures Distinct(RootsOf(accounts, all, ids))
  {
    if ids != [] { RootsDistinct(accounts, all, ids[..|ids| - 1]); }
  }

  /** Within any trees of the view, an account occurs as often as its parent, once more if it is one of
      the tops. */
  lemma {:induction false} OccursWithParent(accounts: seq<Account>, ids: seq<nat>, kids: seq<nat>, from: nat, x: nat)
    requires WellFormed(accounts) && Distinct(ids) && forall i :: 0 <= i < |ids| ==> ids[i] < |accounts|
    requires x < |accounts| && Distinct(kids)
    requires forall i :: 0 <= i < |kids| ==> from <= kids[i] < |accounts| && kids[i] in ids
    ensures var p, trees := ListedParent(accounts, ids, x), TreesOf(accounts, ids, kids, from);
            OccurrencesIn(x, trees)
            == (if x in kids then 1 else 0) + (if p.Some? then OccurrencesIn(p.value, trees) else 0)
    decreases |accounts| - from, |kids|
  {
    hide WellFormed, ChildrenOf, OccurrencesIn, Occurrences, ListedParent;
    var p := ListedParent(accounts, ids, x);
    if kids == [] {
      NoTrees(x, p);
    } else {
      var init, last := kids[..|kids| - 1], kids[|kids| - 1];
      OccursWithParent(accounts, ids, init, from, x);
      assert kids == init + [last];
      assert x in kids <==> x in init || x == last;
      assert last !in init;
      OccursBelow(accounts, ids, last, x);
      OneMoreTree(x, TreesOf(accounts, ids, init, from), TreeOf(accounts, ids, last));
      if p.Some? { OneMoreTree(p.value, TreesOf(accounts, ids, init, from), TreeOf(accounts, ids, last)); }
    }
  }

  lemma {:induction false} NoTrees(x: nat, p: Option<nat>)
    ensures OccurrencesIn(x, []) == 0 && (p.Some? ==> OccurrencesIn(p.value, []) == 0)
  {
  }

  lemma {:induction false} OccursBelow(accounts: seq<Account>, ids: seq<nat>, top: nat, x: nat)
    requires WellFormed(accounts) && Distinct(ids) && forall i :: 0 <= i < |ids| ==> ids[i] < |accounts|
    requires x < |accounts| && top in ids
    ensures var p, t := ListedParent(accounts, ids, x), TreeOf(accounts, ids, top);
            Occurrences(x, t) == (if x == top then 1 else 0) + (if p.Some? then Occurrences(p.value, t) else 0)
    decreases |accounts| - top, 0
  {
    hide WellFormed, ChildrenOf, OccurrencesIn;
    var kids, p := ChildrenOf(accounts, ids, top), ListedParent(accounts, ids, x);
    Kids(accounts, ids, top);
    ChildrenDistinct(accounts, ids, top);
    OccursWithParent(accounts, ids, kids, top + 1, x);
    NotBelow(accounts, ids, kids, top + 1, top);
    assert x in kids <==> p == Some(top);
  }

  /** Every listed account occurs in the forest exactly once, and no other account does. */
  lemma {:induction false} OccursOnce(accounts: seq<Account>, ids: seq<nat>, x: nat)
    requires WellFormed(accounts) && Distinct(ids) && forall i :: 0 <= i < |ids| ==> ids[i] < |accounts|
    requires x < |accounts|
    ensures OccurrencesIn(x, Forest(accounts, ids)) == if x in ids then 1 else 0
  {
    var roots := RootsOf(accounts, ids, ids);
    RootsDistinct(accounts, ids, ids);
    OccursWithParent(accounts, ids, roots, 0, x);
    var p := ListedParent(accounts, ids, x);
    if p.Some? { OccursOnce(accounts, ids, p.value); }
  }

  /** Each node hangs under its own parent. */
  ghost predicate Placed(accounts: seq<Account>, t: Tree) {
    && t.id < |accounts|
    && forall i :: 0 <= i < |t.children| ==>
         t.children[i].id < |accounts| && accounts[t.children[i].id].parent == Some(t.id)
         && Placed(accounts, t.children[i])
  }

  lemma {:induction false} TreePlaced(accounts: seq<Account>, ids: seq<nat>, id: nat)
    requires WellFormed(accounts) && (forall i :: 0 <= i < |ids| ==> ids[i] < |accounts|) && id < |accounts|
    ensures Placed(accounts, TreeOf(accounts, ids, id))
    decreases |accounts| - id
  {
    var kids := ChildrenOf(accounts, ids, id);
    TreesAt(accounts, ids, kids, id + 1);
    forall i | 0 <= i < |kids|
      ensures Placed(accounts, TreeOf(accounts, ids, kids[i])) && accounts[kids[i]].parent == Some(id)
    {
      assert kids[i] in kids;
      TreePlaced(accounts, ids, kids[i]);
    }
  }

  /** Each node has the given type. */
  ghost predicate OneType(accounts: seq<Account>, t: Tree, ty: AccountType) {
    && t.id < |accounts| && accounts[t.id].ty == ty
    && forall i :: 0 <= i < |t.children| ==> OneType(accounts, t.children[i], ty)
  }

  lemma {:induction false} TreeTyped(accounts: seq<Account>, ids: seq<nat>, id: nat, tenant: nat)
    requires WellFormed(accounts) && TypesMatch(accounts, tenant)
    requires forall i :: 0 <= i < |ids| ==> ids[i] < |accounts| && accounts[ids[i]].tenant == tenant
    requires id < |accounts|
    ensures OneType(accounts, TreeOf(accounts, ids, id), accounts[id].ty)
    decreases |accounts| - id
  {
    var kids := ChildrenOf(accounts, ids, id);
    TreesAt(accounts, ids, kids, id + 1);
    forall i | 0 <= i < |kids|
      ensures OneType(accounts, TreeOf(accounts, ids, kids[i]), accounts[id].ty)
    {
      assert kids[i] in kids && accounts[kids[i]].parent == Some(id);
      TreeTyped(accounts, ids, kids[i], tenant);
    }
  }

  /** In a forest of trees with one type each, the tree below any listed account has that account's type. */
  lemma {:induction false} TypeBelow(accounts: seq<Account>, ids: seq<nat>, x: nat)
    requires WellFormed(accounts) && (forall i :: 0 <= i < |ids| ==> ids[i] < |accounts|) && x in ids
    requires forall i :: 0 <= i < |Forest(accounts, ids)| ==> SingleType(accounts, Forest(accounts, ids)[i])
    ensures OneType(accounts, TreeOf(accounts, ids, x), accounts[x].ty)
    ensures accounts[x].parent.Some? && accounts[x].parent.value in ids ==>
              accounts[accounts[x].parent.value].ty == accounts[x].ty
  {
    hide TreeOf, Forest;
    if accounts[x].parent.Some? && accounts[x].parent.value in ids {
      TypeBelow(accounts, ids, accounts[x].parent.value);
      var i := ChildTree(accounts, ids, x);
    } else {
      var i := TopTree(accounts, ids, x);
    }
  }

  lemma ChildTree(accounts: seq<Account>, ids: seq<nat>, x: nat) returns (i: nat)
    requires WellFormed(accounts) && (forall i :: 0 <= i < |ids| ==> ids[i] < |accounts|) && x in ids
    requires accounts[x].parent.Some? && accounts[x].parent.value in ids
    ensures var above := TreeOf(accounts, ids, accounts[x].parent.value);
            above.id == accounts[x].parent.value
            && i < |above.children| && above.children[i] == TreeOf(accounts, ids, x) && above.children[i].id == x
  {
    hide TreeOf;
    var parent := accounts[x].parent.value;
    var kids := ChildrenOf(accounts, ids, parent);
    TreeShape(accounts, ids, parent);
    TreeShape(accounts, ids, x);
    assert x in kids;
    i :| i < |kids| && kids[i] == x;
  }

  lemma {:induction false} TreeShape(accounts: seq<Account>, ids: seq<nat>, id: nat)
    requires WellFormed(accounts) && (forall i :: 0 <= i < |ids| ==> ids[i] < |accounts|) && id < |accounts|
    ensures var t, kids := TreeOf(accounts, ids, id), ChildrenOf(accounts, ids, id);
            && t.id == id && |t.children| == |kids|
            && forall i :: 0 <= i < |kids| ==> kids[i] < |accounts| && t.children[i] == TreeOf(accounts, ids, kids[i])
  {
    hide WellFormed, ChildrenOf;
    Kids(accounts, ids, id);
    TreesAt(accounts, ids, ChildrenOf(accounts, ids, id), id + 1);
  }

  lemma TopTree(accounts: seq<Account>, ids: seq<nat>, x: nat) returns (i: nat)
    requires WellFormed(accounts) && (forall i :: 0 <= i < |ids| ==> ids[i] < |accounts|) && x in ids
    requires accounts[x].parent.None? || accounts[x].parent.value !in ids
    ensures i < |Forest(accounts, ids)| && Forest(accounts, ids)[i] == TreeOf(accounts, ids, x)
    ensures TreeOf(accounts, ids, x).id == x
  {
    var roots := RootsOf(accounts, ids, ids);
    TreesAt(accounts, ids, roots, 0);
    assert x in roots;
    i :| i < |roots| && roots[i] == x;
  }

  lemma {:induction false} TreesAt(accounts: seq<Account>, ids: seq<nat>, kids: seq<nat>, from: nat)
    requires WellFormed(accounts) && forall i :: 0 <= i < |ids| ==> ids[i] < |accounts|
    requires forall i :: 0 <= i < |kids| ==> from <= kids[i] < |accounts|
    ensures var trees := TreesOf(accounts, ids, kids, from);
            |trees| == |kids| && forall i :: 0 <= i < |kids| ==> trees[i] == TreeOf(accounts, ids, kids[i])
    decreases |kids|
  {
    hide WellFormed, TreeOf;
    if kids != [] { TreesAt(accounts, ids, kids[..|kids| - 1], from); }
  }

  // ---- the tree after any run ----

  datatype Event =
    | Create(tenant: nat, code: string, ty: AccountType, parent: Option<nat>)
    | Seed(tenant: nat)
    | Ensure(tenant: nat, code: string, ty: AccountType, parentCode: string)

  function Next(accounts: seq<Account>, e: Event): seq<Account> {
    match e
    case Create(tenant, code, ty, parent) =>
      if CreateError(accounts, tenant, code, ty, parent).Some? then accounts
      else accounts + [Account(tenant, code, ty, parent, true)]
    case Seed(tenant) => Seeded(accounts, tenant, TEMPLATE)
    case Ensure(tenant, code, ty, parentCode) => Ensured(accounts, tenant, code, ty, parentCode)
  }

  function Run(events: seq<Event>): seq<Account> {
    if events == [] then [] else Next(Run(events[..|events| - 1]), events[|events| - 1])
  }

  /** What an opening adds to the tenant's chart fits the account it is hung under. Creation sees to it; seeding and
      automatic opening do not. */
  ghost predicate StepFits(accounts: seq<Account>, e: Event, tenant: nat) {
    e.tenant == tenant ==>
      match e
      case Create(_, _, _, _) => true
      case Seed(_) => SeedFits(accounts, tenant, TEMPLATE)
      case Ensure(_, code, ty, parentCode) => RowFits(accounts, tenant, TemplateRow(code, ty, Some(parentCode)))
  }

  ghost predicate AllFit(events: seq<Event>, tenant: nat) {
    events != [] ==>
      var init := events[..|events| - 1];
      AllFit(init, tenant) && StepFits(Run(init), events[|events| - 1], tenant)
  }

  /** After any run, the types of a tenant's accounts match along parent links exactly when every opening fitted. */
  lemma {:induction false} RunKeeps(events: seq<Event>, tenant: nat)
    ensures WellFormed(Run(events))
    ensures TypesMatch(Run(events), tenant) <==> AllFit(events, tenant)
  {
    hide WellFormed, TypesMatch, FindCode, TEMPLATE, Next, StepFits;
    if events == [] {
      EmptyChart(tenant);
    } else {
      RunKeeps(events[..|events| - 1], tenant);
      StepTypes(Run(events[..|events| - 1]), events[|events| - 1], tenant);
    }
  }

  lemma {:induction false} StepTypes(accounts: seq<Account>, e: Event, tenant: nat)
    requires WellFormed(accounts)
    ensures WellFormed(Next(accounts, e))
    ensures TypesMatch(Next(accounts, e), tenant) <==> TypesMatch(accounts, tenant) && StepFits(accounts, e, tenant)
  {
    hide WellFormed, TypesMatch, FindCode, TEMPLATE, SeedFits, RowFits;
    match e
    case Create(owner, code, ty, parent) =>
      if CreateError(accounts, owner, code, ty, parent).None? {
        CreateKeeps(accounts, owner, code, ty, parent, tenant);
        TypesOfPrefix(accounts, accounts + [Account(owner, code, ty, parent, true)], tenant);
      }
    case Seed(owner) =>
      TemplateTidy();
      SeededKeeps(accounts, owner, TEMPLATE);
      if owner == tenant {
        SeedTypes(accounts, tenant, TEMPLATE);
      } else {
        SeedElsewhere(accounts, owner, TEMPLATE, tenant);
        TypesOfPrefix(accounts, Seeded(accounts, owner, TEMPLATE), tenant);
      }
    case Ensure(owner, code, ty, parentCode) =>
      EnsureKeeps(accounts, owner, code, ty, parentCode, tenant);
  }

  lemma TypesOfPrefix(accounts: seq<Account>, longer: seq<Account>, tenant: nat)
    requires WellFormed(accounts) && WellFormed(longer) && accounts <= longer
    ensures TypesMatch(longer, tenant) ==> TypesMatch(accounts, tenant)
  {
    if TypesMatch(longer, tenant) {
      forall i | 0 <= i < |accounts| && accounts[i].tenant == tenant && accounts[i].parent.Some?
        ensures accounts[accounts[i].parent.value].ty == accounts[i].ty
      {
        assert longer[i] == accounts[i];
      }
    }
  }

  lemma EmptyChart(tenant: nat)
    ensures WellFormed([]) && TypesMatch([], tenant)
  {
  }

  /** Seeding an empty chart fits. */
  lemma EmptyFits(accounts: seq<Account>, tenant: nat)
    requires forall i :: 0 <= i < |accounts| ==> accounts[i].tenant != tenant
    ensures StepFits(accounts, Seed(tenant), tenant)
  {
    hide TEMPLATE;
  }

  /** In a chart seeded while empty, however it has grown, the accounts that payroll and end-of-service accruals
      open fit. */
  lemma {:induction false} SeededTakesOpenings(accounts: seq<Account>, chart: seq<Account>, tenant: nat, code: string)
    requires WellFormed(accounts) && forall i :: 0 <= i < |accounts| ==> accounts[i].tenant != tenant
    requires Seeded(accounts, tenant, TEMPLATE) <= chart
    ensures StepFits(chart, Ensure(tenant, code, Expense, "5100"), tenant)
    ensures StepFits(chart, Ensure(tenant, code, Liability, "2100"), tenant)
  {
    hide FindCode, Seeded, WellFormed, Tidy;
    var t := Seeded(accounts, tenant, TEMPLATE);
    TemplateTidy();
    SeededKeeps(accounts, tenant, TEMPLATE);
    assert TEMPLATE[16] == TemplateRow("5100", Expense, Some("5000"));
    assert TEMPLATE[6] == TemplateRow("2100", Liability, Some("2000"));
    assert RowFound(accounts, t, tenant, TEMPLATE[16]) && RowFound(accounts, t, tenant, TEMPLATE[6]);
    FoundInPrefix(t, chart, tenant, "5100");
    FoundInPrefix(t, chart, tenant, "2100");
  }

  lemma {:induction false} SeedElsewhere(accounts: seq<Account>, owner: nat, rows: seq<TemplateRow>, tenant: nat)
    requires WellFormed(accounts) && Tidy(rows) && owner != tenant
    ensures var t := Seeded(accounts, owner, rows);
            WellFormed(t) && (TypesMatch(accounts, tenant) ==> TypesMatch(t, tenant))
  {
    hide Tidy, FindCode, Seeded;
    SeededKeeps(accounts, owner, rows);
    var t := Seeded(accounts, owner, rows);
    if TypesMatch(accounts, tenant) {
      forall i | 0 <= i < |t| && t[i].tenant == tenant && t[i].parent.Some?
        ensures t[t[i].parent.value].ty == t[i].ty
      {
        assert i < |accounts| && t[i] == accounts[i];
      }
    }
  }

  lemma EnsureKeeps(accounts: seq<Account>, owner: nat, code: string, ty: AccountType, parent: string, tenant: nat)
    requires WellFormed(accounts)
    ensures var t := Ensured(accounts, owner, code, ty, parent);
            WellFormed(t)
            && (TypesMatch(t, tenant)
                <==> TypesMatch(accounts, tenant)
                     && (owner == tenant ==> RowFits(accounts, tenant, TemplateRow(code, ty, Some(parent)))))
  {
    hide FindCode;
    if FindCode(accounts, owner, code).None? {
      var a := Account(owner, code, ty, FindCode(accounts, owner, parent), true);
      AppendKeeps(accounts, a);
      if owner == tenant { AppendTypes(accounts, a, tenant); } else { OthersTypes(accounts, a, tenant); }
    }
  }

  lemma OthersTypes(accounts: seq<Account>, a: Account, tenant: nat)
    requires WellFormed(accounts) && WellFormed(accounts + [a]) && a.tenant != tenant
    ensures TypesMatch(accounts + [a], tenant) <==> TypesMatch(accounts, tenant)
  {
    TypesOfPrefix(accounts, accounts + [a], tenant);
  }

  /** After any run of account openings, the tree view of a tenant is a forest in which each of its accounts
      occurs exactly once, each under its own parent and those without one on top; and every tree has a single type
      exactly when every opening fitted the account it was hung under. */
  lemma {:induction false} TreeOfRun(events: seq<Event>, tenant: nat, ids: seq<nat>)
    requires Listing(Run(events), tenant, ids)
    ensures WellFormed(Run(events)) && forall i :: 0 <= i < |ids| ==> ids[i] < |Run(events)|
    ensures var accounts := Run(events);
            var forest := Forest(accounts, ids);
            && (forall x: nat :: x < |accounts| ==>
                  OccurrencesIn(x, forest) == if accounts[x].tenant == tenant then 1 else 0)
            && (forall i :: 0 <= i < |forest| ==>
                  Placed(accounts, forest[i]) && accounts[forest[i].id].parent.None?)
            && ((forall i :: 0 <= i < |forest| ==> SingleType(accounts, forest[i])) <==> AllFit(events, tenant))
  {
    hide Run, WellFormed, TypesMatch, OccurrencesIn, AllFit;
    var accounts := Run(events);
    RunKeeps(events, tenant);
    assert forall i :: 0 <= i < |ids| ==> ids[i] in ids;
    forall x: nat | x < |accounts|
      ensures OccurrencesIn(x, Forest(accounts, ids)) == if accounts[x].tenant == tenant then 1 else 0
    {
      OccursOnce(accounts, ids, x);
    }
    ForestPlaced(accounts, tenant, ids);
    ForestTyped(accounts, tenant, ids);
  }

  lemma {:induction false} ForestPlaced(accounts: seq<Account>, tenant: nat, ids: seq<nat>)
    requires WellFormed(accounts) && Listing(accounts, tenant, ids)
    requires forall i :: 0 <= i < |ids| ==> ids[i] < |accounts|
    ensures var forest := Forest(accounts, ids);
            forall i :: 0 <= i < |forest| ==> Placed(accounts, forest[i]) && accounts[forest[i].id].parent.None?
  {
    var roots := RootsOf(accounts, ids, ids);
    TreesAt(accounts, ids, roots, 0);
    forall i | 0 <= i < |roots|
      ensures Placed(accounts, TreeOf(accounts, ids, roots[i])) && accounts[roots[i]].parent.None?
    {
      assert roots[i] in roots && roots[i] in ids;
      TreePlaced(accounts, ids, roots[i]);
    }
  }

  lemma {:induction false} ForestTyped(accounts: seq<Account>, tenant: nat, ids: seq<nat>)
    requires WellFormed(accounts) && Listing(accounts, tenant, ids)
    requires forall i :: 0 <= i < |ids| ==> ids[i] < |accounts|
    ensures var forest := Forest(accounts, ids);
            (forall i :: 0 <= i < |forest| ==> SingleType(accounts, forest[i])) <==> TypesMatch(accounts, tenant)
  {
    var roots, forest := RootsOf(accounts, ids, ids), Forest(accounts, ids);
    TreesAt(accounts, ids, roots, 0);
    assert forall i :: 0 <= i < |ids| ==> ids[i] in ids;
    if TypesMatch(accounts, tenant) {
      forall i | 0 <= i < |forest|
        ensures SingleType(accounts, forest[i])
      {
        TreeTyped(accounts, ids, roots[i], tenant);
      }
    }
    if forall i :: 0 <= i < |forest| ==> SingleType(accounts, forest[i]) {
      forall x | 0 <= x < |accounts| && accounts[x].tenant == tenant && accounts[x].parent.Some?
        ensures accounts[accounts[x].parent.value].ty == accounts[x].ty
      {
        TypeBelow(accounts, ids, x);
      }
    }
  }

  ghost predicate SingleType(accounts: seq<Account>, t: Tree) {
    t.id < |accounts| && OneType(accounts, t, accounts[t.id].ty)
  }

  /** What may happen to a tenant's chart after seeding: creation, and the openings of payroll and accruals. */
  predicate Ordinary(e: Event, tenant: nat) {
    e.tenant == tenant ==>
      match e
      case Create(_, _, _, _) => true
      case Seed(_) => false
      case Ensure(_, _, ty, parentCode) =>
        (ty == Expense && parentCode == "5100") || (ty == Liability && parentCode == "2100")
  }

  lemma {:induction false} OthersOnly(events: seq<Event>, tenant: nat)
    requires forall i :: 0 <= i < |events| ==> events[i].tenant != tenant
    ensures forall i :: 0 <= i < |Run(events)| ==> Run(events)[i].tenant != tenant
    ensures AllFit(events, tenant)
  {
    hide FindCode, TEMPLATE, StepFits, Seeded;
    if events != [] {
      var init, e := events[..|events| - 1], events[|events| - 1];
      OthersOnly(init, tenant);
      OtherStep(Run(init), e, tenant);
      StepOwner(Run(init), e);
    }
  }

  /** What was added belongs to one tenant. */
  ghost predicate Extends(accounts: seq<Account>, t: seq<Account>, owner: nat) {
    accounts <= t && forall i :: |accounts| <= i < |t| ==> t[i].tenant == owner
  }

  lemma StepOwner(accounts: seq<Account>, e: Event)
    ensures Extends(accounts, Next(accounts, e), e.tenant)
  {
    hide FindCode, TEMPLATE, Seeded;
    if e.Seed? { SeededOwner(accounts, e.tenant, TEMPLATE); }
  }

  lemma OtherStep(accounts: seq<Account>, e: Event, tenant: nat)
    requires e.tenant != tenant
    ensures StepFits(accounts, e, tenant)
  {
  }

  lemma {:induction false} SeededOwner(accounts: seq<Account>, owner: nat, rows: seq<TemplateRow>)
    ensures Extends(accounts, Seeded(accounts, owner, rows), owner)
  {
    hide FindCode;
    if rows != [] {
      var init, t := rows[..|rows| - 1], Seeded(accounts, owner, rows);
      SeededOwner(accounts, owner, init);
      assert t[..|Seeded(accounts, owner, init)|] == Seeded(accounts, owner, init);
      forall i | |accounts| <= i < |t|
        ensures t[i].tenant == owner
      {
        if i < |Seeded(accounts, owner, init)| { assert t[i] == Seeded(accounts, owner, init)[i]; }
      }
    }
  }

  /** A tenant whose chart was seeded while empty has trees of one type, whatever is created afterwards and whatever
      payroll and accruals open. */
  lemma {:induction false} SeededChartFits(before: seq<Event>, after: seq<Event>, tenant: nat)
    requires forall i :: 0 <= i < |before| ==> before[i].tenant != tenant
    requires forall i :: 0 <= i < |after| ==> Ordinary(after[i], tenant)
    ensures AllFit(before + [Seed(tenant)] + after, tenant)
    ensures Seeded(Run(before), tenant, TEMPLATE) <= Run(before + [Seed(tenant)] + after)
  {
    hide FindCode, TEMPLATE, StepFits, Seeded;
    OthersOnly(before, tenant);
    var events := before + [Seed(tenant)] + after;
    if after == [] {
      assert events == before + [Seed(tenant)] && events[..|before|] == before;
      EmptyFits(Run(before), tenant);
    } else {
      var init, e := after[..|after| - 1], after[|after| - 1];
      SeededChartFits(before, init, tenant);
      RunKeeps(before, tenant);
      assert events[..|events| - 1] == before + [Seed(tenant)] + init && events[|events| - 1] == e;
      OrdinaryFits(Run(before), Run(before + [Seed(tenant)] + init), e, tenant);
    }
  }

  lemma {:induction false} OrdinaryFits(accounts: seq<Account>, chart: seq<Account>, e: Event, tenant: nat)
    requires WellFormed(accounts) && forall i :: 0 <= i < |accounts| ==> accounts[i].tenant != tenant
    requires Seeded(accounts, tenant, TEMPLATE) <= chart && Ordinary(e, tenant)
    ensures StepFits(chart, e, tenant) && chart <= Next(chart, e)
  {
    hide WellFormed, FindCode, TEMPLATE, Seeded, SeedFits, RowFits;
    if e.Ensure? && e.tenant == tenant { SeededTakesOpenings(accounts, chart, tenant, e.code); }
  }

  /** Seeding a chart whose account 1000 was opened as an expense mixes types in one tree. */
  lemma SeedingCanMixTypes()
    ensures var chart := [Account(0, "1000", Expense, None, true)];
            && CreateError([], 0, "1000", Expense, None) == None && WellFormed(Seeded(chart, 0, TEMPLATE))
            && !TypesMatch(Seeded(chart, 0, TEMPLATE), 0)
  {
    hide Seeded, Tidy;
    var chart := [Account(0, "1000", Expense, None, true)];
    TemplateTidy();
    SeedTypes(chart, 0, TEMPLATE);
    SecondRowMisfits(chart);
  }

  lemma SecondRowMisfits(chart: seq<Account>)
    requires chart == [Account(0, "1000", Expense, None, true)]
    ensures !SeedFits(chart, 0, TEMPLATE)
  {
    assert chart[..0] == [] && FindCode([], 0, "1000") == None && FindCode([], 0, "1100") == None;
    assert "1000"[1] != "1100"[1];
    assert TEMPLATE[1] == TemplateRow("1100", Asset, Some("1000"));
    assert !RowFits(chart, 0, TEMPLATE[1]);
  }
}
