/** The view-building loop of `processar_planilha_integrado`: for each plan
    with accounts and linked data sources, and each of its linked data
    sources with periods, a fresh cache, every account resolved for every
    period, its level attached, its links dropped, the zero filter applied,
    and one view appended. */
module Views {
  import opened Basics
  import opened Text
  import opened Sorting
  import opened Model
  import opened Hierarchy
  import opened Resolver

  /** `account_calculated_values`: one value per period of the data
      source, a repeated period keeping the value of its last occurrence. */
  function ValuesOf(ctx: Context, rank: map<string, nat>, code: string, periods: seq<string>): map<string, real>
    requires Ranked(ctx.h, rank)
  {
    if periods == [] then map[]
    else
      var n := |periods| - 1;
      ValuesOf(ctx, rank, code, periods[..n])[periods[n] := Value(ctx, rank, code, periods[n])]
  }

  /** Each kept account has exactly one value per period, and it is the
      account's value at that period. */
  lemma {:induction false} ValuesOfPeriods(ctx: Context, rank: map<string, nat>, code: string, periods: seq<string>)
    requires Ranked(ctx.h, rank)
    ensures ValuesOf(ctx, rank, code, periods).Keys == set p | p in periods
    ensures forall p :: p in ValuesOf(ctx, rank, code, periods) ==>
      ValuesOf(ctx, rank, code, periods)[p] == Value(ctx, rank, code, p)
  {
    if periods != [] {
      var n := |periods| - 1;
      ValuesOfPeriods(ctx, rank, code, periods[..n]);
      assert periods == periods[..n] + [periods[n]];
    }
  }

  /** The account as emitted: its links dropped, its values and its level attached. */
  function ViewAccountOf(ctx: Context, rank: map<string, nat>, a: Account, periods: seq<string>): ViewAccount
    requires Ranked(ctx.h, rank)
  {
    ViewAccount(a.code, a.description, a.tipo, a.formula, ValuesOf(ctx, rank, a.code, periods), Get(ctx.h.levels, a.code, 1))
  }

  /** The zero filter: an `analitica` or `sintetica` account whose values
      are all 0 is left out of the view. */
  predicate Suppressed(va: ViewAccount)
  {
    (Lower(va.tipo) == "sintetica" || Lower(va.tipo) == "analitica") && forall p :: p in va.values ==> va.values[p] == 0.0
  }

  /** `calculated_accounts_for_view`. */
  function ViewAccounts(ctx: Context, rank: map<string, nat>, accs: seq<Account>, periods: seq<string>): seq<ViewAccount>
    requires Ranked(ctx.h, rank)
  {
    if accs == [] then []
    else
      var n := |accs| - 1;
      var va := ViewAccountOf(ctx, rank, accs[n], periods);
      ViewAccounts(ctx, rank, accs[..n], periods) + (if Suppressed(va) then [] else [va])
  }

  /** The views of one plan over the data sources `dss`, in that order; a
      data source without periods gives none. */
  function SourceViews(plan: Plan, h: Hierarchy, rank: map<string, nat>, sources: map<string, DataSource>, dss: seq<string>)
    : seq<View>
    requires Ranked(h, rank)
    requires forall ds :: ds in dss ==> ds in sources
  {
    if dss == [] then []
    else
      var n := |dss| - 1;
      var ds := dss[n];
      var src := sources[ds];
      var ctx := Context(h, src.data, ds);
      SourceViews(plan, h, rank, sources, dss[..n]) +
        (if src.periods == [] then [] else [View(plan.name, ds, src.periods, ViewAccounts(ctx, rank, plan.accounts, src.periods))])
  }

  /** The plan's accounts have no reference cycle, as `rank` witnesses,
      and every linked data source of the plan was loaded. */
  ghost predicate PlanReady(plan: Plan, rank: map<string, nat>, sources: map<string, DataSource>)
  {
    Ranked(HierarchyOf(plan.accounts), rank) && forall ds :: ds in plan.linked ==> ds in sources
  }

  /** Every plan is ready, `ranks[i]` witnessing plan `i`. */
  ghost predicate PlansReady(plans: seq<Plan>, sources: map<string, DataSource>, ranks: seq<map<string, nat>>)
  {
    |ranks| == |plans| && forall i :: 0 <= i < |plans| ==> PlanReady(plans[i], ranks[i], sources)
  }

  /** The views of one plan: none for a plan without accounts or without
      linked data sources. The views of a plan that is not ready are left
      unspecified (empty); the calculation stage requires every plan ready. */
  ghost function PlanViews(plan: Plan, rank: map<string, nat>, sources: map<string, DataSource>): seq<View>
  {
    if !PlanReady(plan, rank, sources) || plan.accounts == [] || plan.linked == [] then []
    else
      assert forall ds :: ds in SortBy(plan.linked, StrLess) ==> ds in multiset(plan.linked);
      SourceViews(plan, HierarchyOf(plan.accounts), rank, sources, SortBy(plan.linked, StrLess))
  }

  /** `PlanViews` against the loaded data sources, as a function value. */
  ghost function PlanViewer(sources: map<string, DataSource>): (Plan, map<string, nat>) -> seq<View>
  {
    (p, r) => PlanViews(p, r, sources)
  }

  /** `f` applied to the pairs of `xs` and `ys`, in order. */
  ghost function MapPairs<A, B, C>(f: (A, B) -> C, xs: seq<A>, ys: seq<B>): (zs: seq<C>)
    requires |xs| == |ys|
    ensures |zs| == |xs|
    ensures forall i :: 0 <= i < |xs| ==> zs[i] == f(xs[i], ys[i])
  {
    seq(|xs|, i requires 0 <= i < |xs| => f(xs[i], ys[i]))
  }

  /** The runs of `vss` one after the other. */
  function Concat<T>(vss: seq<seq<T>>): seq<T>
  {
    if vss == [] then [] else Concat(vss[..|vss| - 1]) + vss[|vss| - 1]
  }

  /** `calculated_views`: the views of every plan, in plan order. */
  ghost function AllViews(plans: seq<Plan>, sources: map<string, DataSource>, ranks: seq<map<string, nat>>): seq<View>
    requires |ranks| == |plans|
  {
    Concat(MapPairs(PlanViewer(sources), plans, ranks))
  }

  // ---------------------------------------------------------------------
  // Properties of the views

  /** `x` is `a`, `b` and `c` in a row, and `y` is `b` then `c`. */
  lemma ConcatAssociative<T>(x: seq<T>, a: seq<T>, b: seq<T>, c: seq<T>, y: seq<T>)
    requires x == (a + b) + c && y == b + c
    ensures x == a + y
  {
  }

  lemma {:induction false} ConcatAppend<T>(a: seq<seq<T>>, b: seq<seq<T>>)
    ensures Concat(a + b) == Concat(a) + Concat(b)
    decreases |b|
  {
    if b == [] {
      assert a + b == a;
    } else {
      var n := |b| - 1;
      ConcatAppend(a, b[..n]);
      assert (a + b)[..|a + b| - 1] == a + b[..n];
      assert (a + b)[|a + b| - 1] == b[n];
      ConcatAssociative(Concat(a + b), Concat(a), Concat(b[..n]), b[n], Concat(b));
    }
  }

  lemma MapPairsAppend<A, B, C>(f: (A, B) -> C, x1: seq<A>, x2: seq<A>, y1: seq<B>, y2: seq<B>)
    requires |x1| == |y1| && |x2| == |y2|
    ensures MapPairs(f, x1 + x2, y1 + y2) == MapPairs(f, x1, y1) + MapPairs(f, x2, y2)
  {
    var zs, z1, z2 := MapPairs(f, x1 + x2, y1 + y2), MapPairs(f, x1, y1), MapPairs(f, x2, y2);
    forall i | 0 <= i < |zs| ensures zs[i] == (z1 + z2)[i] {
      if i < |x1| {
        assert (x1 + x2)[i] == x1[i] && (y1 + y2)[i] == y1[i];
      } else {
        assert (x1 + x2)[i] == x2[i - |x1|] && (y1 + y2)[i] == y2[i - |x1|];
      }
    }
  }

  /** Views come out plan by plan: the views of two runs of plans are the
      views of the first followed by the views of the second. */
  lemma AllViewsAppend(p1: seq<Plan>, p2: seq<Plan>, sources: map<string, DataSource>,
                       r1: seq<map<string, nat>>, r2: seq<map<string, nat>>)
    requires |r1| == |p1| && |r2| == |p2|
    ensures AllViews(p1 + p2, sources, r1 + r2) == AllViews(p1, sources, r1) + AllViews(p2, sources, r2)
  {
    MapPairsAppend(PlanViewer(sources), p1, p2, r1, r2);
    ConcatAppend(MapPairs(PlanViewer(sources), p1, r1), MapPairs(PlanViewer(sources), p2, r2));
  }

  /** A single plan contributes exactly its own views. */
  lemma AllViewsSingle(p: Plan, sources: map<string, DataSource>, r: map<string, nat>)
    ensures AllViews([p], sources, [r]) == PlanViews(p, r, sources)
  {
    var vs := MapPairs(PlanViewer(sources), [p], [r]);
    assert vs[0] == PlanViews(p, r, sources);
    assert vs[..0] == [];
    assert Concat(vs) == Concat(vs[..0]) + vs[0];
  }

  /** Whether a data source was loaded with at least one period. */
  function WithPeriods(sources: map<string, DataSource>): string -> bool
  {
    ds => ds in sources && sources[ds].periods != []
  }

  /** The data source names of the views, in order. */
  function DsNames(vs: seq<View>): (ns: seq<string>)
    ensures |ns| == |vs|
  {
    seq(|vs|, i requires 0 <= i < |vs| => vs[i].dsName)
  }

  lemma DsNamesAppend(a: seq<View>, b: seq<View>)
    ensures DsNames(a + b) == DsNames(a) + DsNames(b)
  {
    assert forall i :: 0 <= i < |a| ==> (a + b)[i] == a[i];
    assert forall i :: 0 <= i < |b| ==> (a + b)[|a| + i] == b[i];
  }

  /** Every view of one plan names that plan and a linked data source, and
      carries that data source's periods, of which there is at least one. */
  lemma {:induction false} SourceViewsFields(plan: Plan, h: Hierarchy, rank: map<string, nat>,
                                             sources: map<string, DataSource>, dss: seq<string>)
    requires Ranked(h, rank)
    requires forall ds :: ds in dss ==> ds in sources
    ensures forall v :: v in SourceViews(plan, h, rank, sources, dss) ==>
      v.planName == plan.name && v.dsName in dss && v.periods == sources[v.dsName].periods && v.periods != []
  {
    if dss != [] {
      var n := |dss| - 1;
      SourceViewsFields(plan, h, rank, sources, dss[..n]);
      assert forall ds :: ds in dss[..n] ==> ds in dss;
    }
  }

  /** The last data source of `dss` adds its view when it has periods. */
  lemma SourceViewsLastName(plan: Plan, h: Hierarchy, rank: map<string, nat>, sources: map<string, DataSource>, dss: seq<string>)
    requires Ranked(h, rank)
    requires forall ds :: ds in dss ==> ds in sources
    requires dss != []
    ensures forall ds :: ds in dss[..|dss| - 1] ==> ds in sources
    ensures DsNames(SourceViews(plan, h, rank, sources, dss)) ==
      DsNames(SourceViews(plan, h, rank, sources, dss[..|dss| - 1])) + Filter([dss[|dss| - 1]], WithPeriods(sources))
  {
    var n := |dss| - 1;
    assert forall ds :: ds in dss[..n] ==> ds in dss;
    var ds := dss[n];
    var init := SourceViews(plan, h, rank, sources, dss[..n]);
    FilterFront([ds], WithPeriods(sources));
    assert [ds][1..] == [];
    if sources[ds].periods == [] {
      assert !WithPeriods(sources)(ds);
      assert Filter([ds], WithPeriods(sources)) == [];
      assert SourceViews(plan, h, rank, sources, dss) == init;
      assert DsNames(init) + [] == DsNames(init);
    } else {
      var ctx := Context(h, sources[ds].data, ds);
      var v := View(plan.name, ds, sources[ds].periods, ViewAccounts(ctx, rank, plan.accounts, sources[ds].periods));
      assert SourceViews(plan, h, rank, sources, dss) == init + [v];
      DsNamesAppend(init, [v]);
      assert DsNames([v]) == [ds];
      assert WithPeriods(sources)(ds);
      assert Filter([ds], WithPeriods(sources)) == [ds];
    }
  }

  /** The views of one plan come one per linked data source that has
      periods, in the order of `dss`, each data source once per occurrence. */
  lemma {:induction false} SourceViewsOrder(plan: Plan, h: Hierarchy, rank: map<string, nat>,
                                            sources: map<string, DataSource>, dss: seq<string>)
    requires Ranked(h, rank)
    requires forall ds :: ds in dss ==> ds in sources
    ensures DsNames(SourceViews(plan, h, rank, sources, dss)) == Filter(dss, WithPeriods(sources))
  {
    if dss != [] {
      var n := |dss| - 1;
      SourceViewsLastName(plan, h, rank, sources, dss);
      SourceViewsOrder(plan, h, rank, sources, dss[..n]);
      FilterAppend(dss[..n], [dss[n]], WithPeriods(sources));
      assert dss[..n] + [dss[n]] == dss;
    }
  }

  lemma {:induction false} FilterAppend<T(!new)>(a: seq<T>, b: seq<T>, keep: T -> bool)
    ensures Filter(a + b, keep) == Filter(a, keep) + Filter(b, keep)
  {
    if a == [] {
      assert a + b == b;
    } else {
      assert (a + b)[0] == a[0] && (a + b)[1..] == a[1..] + b;
      FilterAppend(a[1..], b, keep);
    }
  }

  /** The zero filter keeps exactly the accounts that are not suppressed,
      in plan order. */
  lemma {:induction false} ViewAccountsKept(ctx: Context, rank: map<string, nat>, accs: seq<Account>, periods: seq<string>)
    requires Ranked(ctx.h, rank)
    ensures forall va :: va in ViewAccounts(ctx, rank, accs, periods) <==>
      !Suppressed(va) && exists a :: a in accs && va == ViewAccountOf(ctx, rank, a, periods)
  {
    if accs != [] {
      var n := |accs| - 1;
      ViewAccountsKept(ctx, rank, accs[..n], periods);
      assert accs == accs[..n] + [accs[n]];
      forall va | !Suppressed(va) && (exists a :: a in accs && va == ViewAccountOf(ctx, rank, a, periods))
        ensures va in ViewAccounts(ctx, rank, accs, periods)
      {
        var a :| a in accs && va == ViewAccountOf(ctx, rank, a, periods);
        if a != accs[n] {
          assert a in accs[..n];
        }
      }
    }
  }

  /** The zero filter keeps the plan order and every row: the view
      accounts of two runs of accounts are those of the first run followed
      by those of the second. */
  lemma {:induction false} ViewAccountsAppend(ctx: Context, rank: map<string, nat>, xs: seq<Account>, ys: seq<Account>,
                                              periods: seq<string>)
    requires Ranked(ctx.h, rank)
    ensures ViewAccounts(ctx, rank, xs + ys, periods) == ViewAccounts(ctx, rank, xs, periods) + ViewAccounts(ctx, rank, ys, periods)
  {
    if ys == [] {
      assert xs + ys == xs;
    } else {
      var n := |ys| - 1;
      var zs := xs + ys;
      assert zs[..|zs| - 1] == xs + ys[..n] && zs[|zs| - 1] == ys[n];
      ViewAccountsAppend(ctx, rank, xs, ys[..n], periods);
      var va := ViewAccountOf(ctx, rank, ys[n], periods);
      var tail := if Suppressed(va) then [] else [va];
      ConcatAssociative(ViewAccounts(ctx, rank, zs, periods), ViewAccounts(ctx, rank, xs, periods),
                        ViewAccounts(ctx, rank, ys[..n], periods), tail, ViewAccounts(ctx, rank, ys, periods));
    }
  }

  /** One account gives one view account, or none when it is suppressed;
      two rows with the same code give two view accounts. */
  lemma ViewAccountsOne(ctx: Context, rank: map<string, nat>, a: Account, periods: seq<string>)
    requires Ranked(ctx.h, rank)
    ensures Suppressed(ViewAccountOf(ctx, rank, a, periods)) ==> ViewAccounts(ctx, rank, [a], periods) == []
    ensures !Suppressed(ViewAccountOf(ctx, rank, a, periods)) ==>
      ViewAccounts(ctx, rank, [a], periods) == [ViewAccountOf(ctx, rank, a, periods)]
    ensures !Suppressed(ViewAccountOf(ctx, rank, a, periods)) ==>
      |ViewAccounts(ctx, rank, [a, a], periods)| == 2
  {
    assert [a][..0] == [];
    assert [a, a] == [a] + [a];
    ViewAccountsAppend(ctx, rank, [a], [a], periods);
  }

  /** An account whose type is neither `analitica` nor `sintetica` (a
      formula account, or one of any other type) is never filtered out,
      even when all its values are 0. */
  lemma {:induction false} OtherTypesAlwaysKept(ctx: Context, rank: map<string, nat>, accs: seq<Account>, periods: seq<string>, k: nat)
    requires Ranked(ctx.h, rank)
    requires k < |accs|
    requires Lower(accs[k].tipo) != "sintetica" && Lower(accs[k].tipo) != "analitica"
    ensures ViewAccountOf(ctx, rank, accs[k], periods) in ViewAccounts(ctx, rank, accs, periods)
  {
    ViewAccountsKept(ctx, rank, accs, periods);
    assert accs[k] in accs;
  }

  /** A kept account carries its level: one more than the number of dots
      in its code. */
  lemma ViewAccountLevel(accs: seq<Account>, raw: map<string, RawRecord>, ds: string, rank: map<string, nat>,
                         a: Account, periods: seq<string>)
    requires Ranked(HierarchyOf(accs), rank)
    requires a in accs
    ensures ViewAccountOf(Context(HierarchyOf(accs), raw, ds), rank, a, periods).level == Count(a.code, '.') + 1
  {
    ByCodeKeys(accs);
    var k :| 0 <= k < |accs| && accs[k] == a;
    assert a.code in ByCode(accs);
  }

  // ---------------------------------------------------------------------
  // The loop

  /** The period loop of one account. */
  method AccountValues(e: Engine, code: string, periods: seq<string>, ctx: Context, ghost rank: map<string, nat>)
    returns (values: map<string, real>)
    requires Ranked(ctx.h, rank)
    requires e.CacheSound(ctx, rank)
    modifies e
    ensures values == ValuesOf(ctx, rank, code, periods)
    ensures e.CacheSound(ctx, rank)
  {
    values := map[];
    var i := 0;
    while i < |periods|
      invariant 0 <= i <= |periods|
      invariant e.CacheSound(ctx, rank)
      invariant values == ValuesOf(ctx, rank, code, periods[..i])
    {
      assert periods[..i + 1][..i] == periods[..i];
      var v := e.GetCalculatedValue(code, periods[i], ctx, rank);
      values := values[periods[i] := v];
      i := i + 1;
    }
    assert periods[..i] == periods;
  }

  /** One (plan, data source) pass: the cache is emptied, then every
      account is resolved and kept unless the zero filter drops it. */
  method BuildView(e: Engine, plan: Plan, h: Hierarchy, ds: string, src: DataSource, ghost rank: map<string, nat>)
    returns (view: View)
    requires Ranked(h, rank)
    modifies e
    ensures view == View(plan.name, ds, src.periods, ViewAccounts(Context(h, src.data, ds), rank, plan.accounts, src.periods))
  {
    e.Reset();
    var ctx := Context(h, src.data, ds);
    var kept: seq<ViewAccount> := [];
    var i := 0;
    while i < |plan.accounts|
      invariant 0 <= i <= |plan.accounts|
      invariant e.CacheSound(ctx, rank)
      invariant kept == ViewAccounts(ctx, rank, plan.accounts[..i], src.periods)
    {
      var a := plan.accounts[i];
      assert plan.accounts[..i + 1][..i] == plan.accounts[..i];
      var values := AccountValues(e, a.code, src.periods, ctx, rank);
      var va := ViewAccount(a.code, a.description, a.tipo, a.formula, values, Get(h.levels, a.code, 1));
      var keep := Kept(va);
      if keep {
        kept := kept + [va];
      }
      i := i + 1;
    }
    assert plan.accounts[..i] == plan.accounts;
    view := View(plan.name, ds, src.periods, kept);
  }

  /** The zero filter for one account: only an `analitica` or `sintetica`
      account has its values checked. */
  method Kept(va: ViewAccount) returns (keep: bool)
    ensures keep <==> !Suppressed(va)
  {
    var t := Lower(va.tipo);
    keep := true;
    if t == "sintetica" || t == "analitica" {
      var allZero := AllZero(va.values);
      if allZero {
        keep := false;
      }
    }
  }

  /** `all(val == 0.0 for val in values.values())`. */
  method AllZero(values: map<string, real>) returns (b: bool)
    ensures b <==> forall p :: p in values ==> values[p] == 0.0
  {
    b := true;
    var rest := values.Keys;
    while rest != {}
      invariant rest <= values.Keys
      invariant b <==> forall p :: p in values && p !in rest ==> values[p] == 0.0
      decreases |rest|
    {
      var p :| p in rest;
      if values[p] != 0.0 {
        b := false;
      }
      rest := rest - {p};
    }
  }

  /** The loop over the sorted linked data sources of one plan. */
  method BuildPlanViews(e: Engine, plan: Plan, h: Hierarchy, sources: map<string, DataSource>, dss: seq<string>,
                        ghost rank: map<string, nat>)
    returns (views: seq<View>)
    requires Ranked(h, rank)
    requires forall ds :: ds in dss ==> ds in sources
    modifies e
    ensures views == SourceViews(plan, h, rank, sources, dss)
  {
    views := [];
    var i := 0;
    while i < |dss|
      invariant 0 <= i <= |dss|
      invariant views == SourceViews(plan, h, rank, sources, dss[..i])
    {
      assert dss[..i + 1][..i] == dss[..i];
      var ds := dss[i];
      var src := sources[ds];
      if src.periods != [] {
        var view := BuildView(e, plan, h, ds, src, rank);
        views := views + [view];
      }
      i := i + 1;
    }
    assert dss[..i] == dss;
  }

  /** The views of all plans up to and including plan `i`. */
  lemma AllViewsStep(plans: seq<Plan>, sources: map<string, DataSource>, ranks: seq<map<string, nat>>, i: nat)
    requires |ranks| == |plans| && i < |plans|
    ensures AllViews(plans[..i + 1], sources, ranks[..i + 1]) ==
      AllViews(plans[..i], sources, ranks[..i]) + PlanViews(plans[i], ranks[i], sources)
  {
    assert plans[..i + 1] == plans[..i] + [plans[i]] && ranks[..i + 1] == ranks[..i] + [ranks[i]];
    AllViewsAppend(plans[..i], [plans[i]], sources, ranks[..i], [ranks[i]]);
    AllViewsSingle(plans[i], sources, ranks[i]);
  }

  /** The views of a ready plan with accounts and linked data sources are
      those of its linked data sources in sorted order, all of them loaded. */
  lemma ReadyPlanViews(plan: Plan, rank: map<string, nat>, sources: map<string, DataSource>)
    requires PlanReady(plan, rank, sources) && plan.accounts != [] && plan.linked != []
    ensures forall ds :: ds in SortBy(plan.linked, StrLess) ==> ds in sources
    ensures PlanViews(plan, rank, sources) == SourceViews(plan, HierarchyOf(plan.accounts), rank, sources, SortBy(plan.linked, StrLess))
  {
    assert forall ds :: ds in SortBy(plan.linked, StrLess) ==> ds in multiset(plan.linked);
  }

  /** The views of a ready plan come one per linked data source with
      periods, in sorted order. */
  lemma PlanViewsOrder(plan: Plan, rank: map<string, nat>, sources: map<string, DataSource>)
    requires PlanReady(plan, rank, sources) && plan.accounts != [] && plan.linked != []
    ensures DsNames(PlanViews(plan, rank, sources)) == Filter(SortBy(plan.linked, StrLess), WithPeriods(sources))
  {
    ReadyPlanViews(plan, rank, sources);
    SourceViewsOrder(plan, HierarchyOf(plan.accounts), rank, sources, SortBy(plan.linked, StrLess));
  }

  /** A plan without accounts or without linked data sources has no views. */
  lemma EmptyPlanViews(plan: Plan, rank: map<string, nat>, sources: map<string, DataSource>)
    requires plan.accounts == [] || plan.linked == []
    ensures PlanViews(plan, rank, sources) == []
  {
  }

  /** The body of the plan loop: the views of one plan, built only when it
      has accounts and linked data sources. */
  method BuildPlan(e: Engine, plan: Plan, sources: map<string, DataSource>, ghost rank: map<string, nat>)
    returns (pv: seq<View>)
    requires PlanReady(plan, rank, sources)
    modifies e
    ensures pv == PlanViews(plan, rank, sources)
  {
    if plan.accounts != [] && plan.linked != [] {
      ReadyPlanViews(plan, rank, sources);
      var h := BuildHierarchy(plan.accounts);
      var dss := SortBy(plan.linked, StrLess);
      pv := BuildPlanViews(e, plan, h, sources, dss, rank);
    } else {
      EmptyPlanViews(plan, rank, sources);
      pv := [];
    }
  }

  /** The calculation stage: the views of every plan, in plan order. */
  method CalculateViews(e: Engine, plans: seq<Plan>, sources: map<string, DataSource>, ghost ranks: seq<map<string, nat>>)
    returns (views: seq<View>)
    requires PlansReady(plans, sources, ranks)
    modifies e
    ensures views == AllViews(plans, sources, ranks)
  {
    views := [];
    var i := 0;
    while i < |plans|
      invariant 0 <= i <= |plans|
      invariant views == AllViews(plans[..i], sources, ranks[..i])
    {
      AllViewsStep(plans, sources, ranks, i);
      var pv := BuildPlan(e, plans[i], sources, ranks[i]);
      views := views + pv;
      i := i + 1;
    }
    assert plans[..i] == plans && ranks[..i] == ranks;
  }
}
