/** `get_calculated_value`: the value of an account code for a period
    within one (plan, data source) pass, stated once as a recursive
    definition (`Value`) and once as the memoised procedure over the
    pass's cache (`Engine.GetCalculatedValue`), which is proved to return
    the defined value and to keep only defined values in its cache. */
module Resolver {
  import opened Basics
  import opened Text
  import opened Model
  import opened Sorting
  import opened Hierarchy
  import opened Formula

  /** What a pass resolves against: the plan's hierarchy, the rows of the
      data source by raw code, and the data source's name. */
  datatype Context = Context(h: Hierarchy, raw: map<string, RawRecord>, ds: string)

  /** How an account's value is found, from its lower-cased type label. */
  datatype Kind = Leaf | RollUp | Calc(formula: string) | Unrecognised

  function KindOf(a: Account): (k: Kind)
    ensures k.Leaf? <==> Lower(a.tipo) == "analitica"
    ensures k.RollUp? <==> Lower(a.tipo) == "sintetica"
    ensures k.Calc? <==> StartsWith(Lower(a.tipo), "calculo") && a.formula.Some? && a.formula.value != ""
    ensures k.Calc? ==> a.formula == Some(k.formula)
  {
    var t := Lower(a.tipo);
    if t == "analitica" then Leaf
    else if t == "sintetica" then RollUp
    else if StartsWith(t, "calculo") && a.formula.Some? && a.formula.value != "" then Calc(a.formula.value)
    else
      assert t != "sintetica" && t != "analitica";
      assert StartsWith(t, "calculo") ==> t[0] == 'c';
      Unrecognised
  }

  // ---------------------------------------------------------------------
  // Leaf accounts

  /** The stripped, non-empty pieces of the link pieces `ps`. */
  function CodesOfPieces(ps: seq<string>): (codes: seq<string>)
    ensures |codes| <= |ps|
  {
    if ps == [] then []
    else
      var c := Strip(ps[0]);
      (if c != "" then [c] else []) + CodesOfPieces(ps[1..])
  }

  /** The raw codes a link string names: `[c.strip() for c in
      link.split(';') if c.strip()]`. */
  function LinkedCodes(link: string): seq<string>
  {
    CodesOfPieces(Split(link, ';'))
  }

  /** A code is well-formed for a link string: non-empty, without `;` and
      without surrounding whitespace. */
  ghost predicate LinkCode(c: string)
  {
    c != "" && ';' !in c && Strip(c) == c
  }

  lemma {:induction false} CodesOfPiecesWellFormed(ps: seq<string>)
    requires forall k :: 0 <= k < |ps| ==> ';' !in ps[k]
    ensures forall c :: c in CodesOfPieces(ps) ==> LinkCode(c)
  {
    if ps != [] {
      StripSubset(ps[0]);
      StripIdempotent(ps[0]);
      var c := Strip(ps[0]);
      assert ';' !in c;
      CodesOfPiecesWellFormed(ps[1..]);
      assert forall k :: 0 <= k < |ps[1..]| ==> ps[1..][k] == ps[k + 1];
    }
  }

  /** Every code a link string names is non-empty, free of `;` and stripped. */
  lemma LinkedCodesWellFormed(link: string)
    ensures forall c :: c in LinkedCodes(link) ==> LinkCode(c)
  {
    CodesOfPiecesWellFormed(Split(link, ';'));
  }

  /** The first separator is found where it first occurs. */
  lemma IndexOfFirst(s: string, c: char, j: nat)
    requires j < |s| && s[j] == c && c !in s[..j]
    ensures IndexOf(s, c) == j
  {
    var k := IndexOf(s, c);
    PrefixIndex(s, j);
    PrefixIndex(s, k);
  }

  /** Splitting a text that starts with a separator-free piece and a
      separator yields that piece and then the pieces of the rest. */
  lemma SplitFront(s: string, d: char, x: string, y: string)
    requires d !in x && s == x + [d] + y
    ensures Split(s, d) == [x] + Split(y, d)
  {
    assert s[|x|] == d;
    assert s[..|x|] == x;
    IndexOfFirst(s, d, |x|);
    assert s[|x| + 1..] == y;
  }

  lemma {:induction false} SplitJoin(ps: seq<string>, d: char)
    requires |ps| > 0
    requires forall k :: 0 <= k < |ps| ==> d !in ps[k]
    ensures Split(Join(ps, d), d) == ps
  {
    if |ps| > 1 {
      var tail := Join(ps[1..], d);
      assert Join(ps, d) == ps[0] + [d] + tail;
      SplitFront(Join(ps, d), d, ps[0], tail);
      PrefixFree(ps, d);
      SplitJoin(ps[1..], d);
      assert ps == [ps[0]] + ps[1..];
    }
  }

  lemma PrefixFree(ps: seq<string>, d: char)
    requires |ps| > 0
    requires forall k :: 0 <= k < |ps| ==> d !in ps[k]
    ensures forall k :: 0 <= k < |ps[1..]| ==> d !in ps[1..][k]
  {
    assert forall k :: 0 <= k < |ps[1..]| ==> ps[1..][k] == ps[k + 1];
  }

  /** Round trip: the codes written as a `;`-separated link string are read
      back as exactly those codes. */
  lemma {:induction false} LinkedCodesJoin(codes: seq<string>)
    requires |codes| > 0
    requires forall k :: 0 <= k < |codes| ==> LinkCode(codes[k])
    ensures LinkedCodes(Join(codes, ';')) == codes
  {
    SplitJoin(codes, ';');
    CodesOfPiecesFixed(codes);
  }

  lemma {:induction false} CodesOfPiecesFixed(codes: seq<string>)
    requires forall k :: 0 <= k < |codes| ==> LinkCode(codes[k])
    ensures CodesOfPieces(codes) == codes
  {
    if codes != [] {
      assert forall k :: 0 <= k < |codes[1..]| ==> codes[1..][k] == codes[k + 1];
      CodesOfPiecesFixed(codes[1..]);
      assert codes == [codes[0]] + codes[1..];
    }
  }

  /** What one linked raw code adds at a period: the value of the raw
      row's cell for the period as `safe_float_conversion` reads it, and 0
      for a code with no row or a row with no cell for the period. */
  function Contribution(raw: map<string, RawRecord>, code: string, period: string): (r: real)
    ensures code in raw && period in raw[code].values ==> r == SafeFloat(raw[code].values[period])
    ensures !(code in raw && period in raw[code].values) ==> r == 0.0
  {
    if code in raw && period in raw[code].values then SafeFloat(raw[code].values[period]) else 0.0
  }

  /** The sum of the contributions of `codes`, accumulated from the left. */
  function SumContributions(raw: map<string, RawRecord>, codes: seq<string>, period: string): real
  {
    if codes == [] then 0.0
    else SumContributions(raw, codes[..|codes| - 1], period) + Contribution(raw, codes[|codes| - 1], period)
  }

  lemma {:induction false} SumContributionsAppend(raw: map<string, RawRecord>, a: seq<string>, b: seq<string>, period: string)
    ensures SumContributions(raw, a + b, period) == SumContributions(raw, a, period) + SumContributions(raw, b, period)
  {
    if b == [] {
      assert a + b == a;
    } else {
      var n := |b| - 1;
      assert (a + b)[..|a + b| - 1] == a + b[..n];
      SumContributionsAppend(raw, a, b[..n], period);
    }
  }

  /** Codes that add nothing (no row, no cell, or an empty or non-numeric
      cell) can be dropped from a link without changing the sum. */
  lemma {:induction false} SumContributionsZero(raw: map<string, RawRecord>, codes: seq<string>, period: string)
    requires forall k :: 0 <= k < |codes| ==>
      !(codes[k] in raw && period in raw[codes[k]].values && raw[codes[k]].values[period].Num?)
    ensures SumContributions(raw, codes, period) == 0.0
  {
    if codes != [] {
      var n := |codes| - 1;
      assert forall k :: 0 <= k < n ==> codes[..n][k] == codes[k];
      SumContributionsZero(raw, codes[..n], period);
    }
  }

  /** The codes whose row holds a numeric cell for `period`. */
  predicate Numeric(raw: map<string, RawRecord>, period: string, code: string)
  {
    code in raw && period in raw[code].values && raw[code].values[period].Num?
  }

  /** Only numeric cells count: the leaf sum is the sum over the codes
      with a numeric cell, each adding its number, so a missing row, a
      missing or empty cell and a non-numeric cell all add 0. */
  lemma {:induction false} SumContributionsNumeric(raw: map<string, RawRecord>, codes: seq<string>, period: string)
    ensures SumContributions(raw, codes, period) == SumContributions(raw, Filter(codes, c => Numeric(raw, period, c)), period)
    ensures forall c :: Numeric(raw, period, c) ==> Contribution(raw, c, period) == raw[c].values[period].x
  {
    var keep := c => Numeric(raw, period, c);
    if codes != [] {
      var x := codes[0];
      var rest := codes[1..];
      assert codes == [x] + rest;
      assert [x][..0] == [];
      SumContributionsAppend(raw, [x], rest, period);
      SumContributionsNumeric(raw, rest, period);
      var fr := Filter(rest, keep);
      assert Filter(codes, keep) == (if keep(x) then [x] else []) + fr;
      if keep(x) {
        SumContributionsAppend(raw, [x], fr, period);
      } else {
        assert Filter(codes, keep) == fr;
      }
    }
  }

  /** The value of a leaf account for the data source of `ctx`. */
  function LeafValue(ctx: Context, a: Account, period: string): real
  {
    if ctx.ds in a.links && a.links[ctx.ds] != "" && ctx.raw != map[] then
      SumContributions(ctx.raw, LinkedCodes(a.links[ctx.ds]), period)
    else 0.0
  }

  /** The loop over the linked raw codes of a leaf account. */
  method SumLinked(raw: map<string, RawRecord>, codes: seq<string>, period: string) returns (total: real)
    ensures total == SumContributions(raw, codes, period)
  {
    total := 0.0;
    var i := 0;
    while i < |codes|
      invariant 0 <= i <= |codes|
      invariant total == SumContributions(raw, codes[..i], period)
    {
      assert codes[..i + 1][..i] == codes[..i];
      var code := codes[i];
      if code in raw && |raw[code].values| > 0 {
        var cell := Get(raw[code].values, period, Null);
        total := total + SafeFloat(cell);
      } else {
        assert code !in raw || period !in raw[code].values;
      }
      i := i + 1;
    }
    assert codes[..i] == codes;
  }

  // ---------------------------------------------------------------------
  // The recursive definition

  /** The codes the value of `c` is computed from: its children for a
      roll-up, the codes its formula references for a formula account. */
  function Deps(h: Hierarchy, c: string): seq<string>
    requires c in h.byCode
  {
    match KindOf(h.byCode[c])
    case RollUp => Children(h, c)
    case Calc(f) => FindCodes(f)
    case _ => []
  }

  /** `rank` orders the plan's accounts so that every account ranks above
      the accounts it is computed from: the plan has no reference cycle. */
  ghost predicate Ranked(h: Hierarchy, rank: map<string, nat>)
  {
    forall c :: c in h.byCode ==> c in rank && forall d :: d in Deps(h, c) && d in h.byCode ==> d in rank && rank[d] < rank[c]
  }

  function Measure(h: Hierarchy, rank: map<string, nat>, c: string): nat
  {
    if c in h.byCode && c in rank then rank[c] + 1 else 0
  }

  lemma DepsDecrease(h: Hierarchy, rank: map<string, nat>, c: string, d: string)
    requires Ranked(h, rank) && c in h.byCode && d in Deps(h, c)
    ensures Measure(h, rank, d) < Measure(h, rank, c)
  {
  }

  /** The value of code `c` at `period`: 0 for a code the plan does not
      hold; the sum of the linked raw values for `analitica`; the sum of
      the children's values for `sintetica`; the formula's value over the
      values of the codes it references for `calculo` with a formula; and
      0 for any other type. */
  function Value(ctx: Context, rank: map<string, nat>, c: string, period: string): real
    requires Ranked(ctx.h, rank)
    decreases Measure(ctx.h, rank, c), 1, 0
  {
    if c !in ctx.h.byCode then 0.0
    else
      var a := ctx.h.byCode[c];
      match KindOf(a)
      case Leaf => LeafValue(ctx, a, period)
      case RollUp => SumOf(ctx, rank, c, Children(ctx.h, c), period)
      case Calc(f) => FormulaValue(f, Env(ctx, rank, c, FindCodes(f), period))
      case Unrecognised => 0.0
  }

  /** The sum of the values of `cs`, codes `parent` is computed from. */
  function SumOf(ctx: Context, rank: map<string, nat>, parent: string, cs: seq<string>, period: string): real
    requires Ranked(ctx.h, rank)
    requires forall d :: d in cs ==> Measure(ctx.h, rank, d) < Measure(ctx.h, rank, parent)
    decreases Measure(ctx.h, rank, parent), 0, |cs|
  {
    if cs == [] then 0.0
    else SumOf(ctx, rank, parent, cs[..|cs| - 1], period) + Value(ctx, rank, cs[|cs| - 1], period)
  }

  /** `local_vars`: the variable of each referenced code bound to its value. */
  function Env(ctx: Context, rank: map<string, nat>, parent: string, ts: seq<string>, period: string): map<string, real>
    requires Ranked(ctx.h, rank)
    requires forall d :: d in ts ==> Measure(ctx.h, rank, d) < Measure(ctx.h, rank, parent)
    decreases Measure(ctx.h, rank, parent), 0, |ts|
  {
    if ts == [] then map[]
    else
      var last := ts[|ts| - 1];
      Env(ctx, rank, parent, ts[..|ts| - 1], period)[VarName(last) := Value(ctx, rank, last, period)]
  }

  /** `local_vars` binds the variable of every referenced code to that
      code's value and holds no other variable: distinct codes have
      distinct variables, so no binding overwrites another code's. */
  lemma {:induction false} EnvBinds(ctx: Context, rank: map<string, nat>, parent: string, ts: seq<string>, period: string)
    requires Ranked(ctx.h, rank)
    requires forall d :: d in ts ==> Measure(ctx.h, rank, d) < Measure(ctx.h, rank, parent)
    requires forall d :: d in ts ==> CodeToken(d)
    ensures forall d :: d in ts ==>
      VarName(d) in Env(ctx, rank, parent, ts, period) && Env(ctx, rank, parent, ts, period)[VarName(d)] == Value(ctx, rank, d, period)
    ensures forall k :: k in Env(ctx, rank, parent, ts, period) ==> exists d :: d in ts && k == VarName(d)
  {
    if ts != [] {
      var n := |ts| - 1;
      var init := ts[..n];
      assert forall d :: d in init ==> d in ts;
      EnvBinds(ctx, rank, parent, init, period);
      var val := ValueAt(ctx, rank, period);
      var prev := Env(ctx, rank, parent, init, period);
      assert Env(ctx, rank, parent, ts, period) == prev[VarName(ts[n]) := val(ts[n])];
      EnvStep(ts, init, prev, Env(ctx, rank, parent, ts, period), ts[n], val(ts[n]), val);
    }
  }

  /** The values of a pass at `period`, as a function value. */
  ghost function ValueAt(ctx: Context, rank: map<string, nat>, period: string): string -> real
    requires Ranked(ctx.h, rank)
  {
    d => Value(ctx, rank, d, period)
  }

  /** One binding more: the step of `EnvBinds`. */
  lemma EnvStep(ts: seq<string>, init: seq<string>, prev: map<string, real>, env: map<string, real>,
                last: string, v: real, val: string -> real)
    requires ts == init + [last] && env == prev[VarName(last) := v] && v == val(last)
    requires forall d :: d in ts ==> CodeToken(d)
    requires forall d :: d in init ==> VarName(d) in prev && prev[VarName(d)] == val(d)
    requires forall k :: k in prev ==> exists d :: d in init && k == VarName(d)
    ensures forall d :: d in ts ==> VarName(d) in env && env[VarName(d)] == val(d)
    ensures forall k :: k in env ==> exists d :: d in ts && k == VarName(d)
  {
    forall d | d in ts ensures VarName(d) in env && env[VarName(d)] == val(d) {
      if VarName(d) == VarName(last) {
        VarNameInjective(d, last);
      } else {
        assert d in init;
      }
    }
    forall k | k in env ensures exists d :: d in ts && k == VarName(d) {
      if k != VarName(last) {
        var d :| d in init && k == VarName(d);
        assert d in ts;
      } else {
        assert last in ts;
      }
    }
  }

  /** The value of a code does not depend on which ranking witnesses that
      the plan has no cycle: any two rankings give the same values. */
  lemma {:induction false} ValueRankIndependent(ctx: Context, r1: map<string, nat>, r2: map<string, nat>,
                                                c: string, period: string)
    requires Ranked(ctx.h, r1) && Ranked(ctx.h, r2)
    ensures Value(ctx, r1, c, period) == Value(ctx, r2, c, period)
    decreases Measure(ctx.h, r1, c), 1, 0
  {
    if c in ctx.h.byCode {
      match KindOf(ctx.h.byCode[c])
      case RollUp =>
        SumOfRankIndependent(ctx, r1, r2, c, Children(ctx.h, c), period);
      case Calc(f) =>
        EnvRankIndependent(ctx, r1, r2, c, FindCodes(f), period);
      case _ =>
    }
  }

  lemma {:induction false} SumOfRankIndependent(ctx: Context, r1: map<string, nat>, r2: map<string, nat>,
                                                parent: string, cs: seq<string>, period: string)
    requires Ranked(ctx.h, r1) && Ranked(ctx.h, r2)
    requires parent in ctx.h.byCode && forall d :: d in cs ==> d in Deps(ctx.h, parent)
    ensures forall d :: d in cs ==> Measure(ctx.h, r1, d) < Measure(ctx.h, r1, parent)
    ensures forall d :: d in cs ==> Measure(ctx.h, r2, d) < Measure(ctx.h, r2, parent)
    ensures SumOf(ctx, r1, parent, cs, period) == SumOf(ctx, r2, parent, cs, period)
    decreases Measure(ctx.h, r1, parent), 0, |cs|
  {
    if cs != [] {
      var n := |cs| - 1;
      assert forall d :: d in cs[..n] ==> d in cs;
      SumOfRankIndependent(ctx, r1, r2, parent, cs[..n], period);
      DepsDecrease(ctx.h, r1, parent, cs[n]);
      ValueRankIndependent(ctx, r1, r2, cs[n], period);
    }
  }

  lemma {:induction false} EnvRankIndependent(ctx: Context, r1: map<string, nat>, r2: map<string, nat>,
                                              parent: string, ts: seq<string>, period: string)
    requires Ranked(ctx.h, r1) && Ranked(ctx.h, r2)
    requires parent in ctx.h.byCode && forall d :: d in ts ==> d in Deps(ctx.h, parent)
    ensures forall d :: d in ts ==> Measure(ctx.h, r1, d) < Measure(ctx.h, r1, parent)
    ensures forall d :: d in ts ==> Measure(ctx.h, r2, d) < Measure(ctx.h, r2, parent)
    ensures Env(ctx, r1, parent, ts, period) == Env(ctx, r2, parent, ts, period)
    decreases Measure(ctx.h, r1, parent), 0, |ts|
  {
    if ts != [] {
      var n := |ts| - 1;
      assert forall d :: d in ts[..n] ==> d in ts;
      EnvRankIndependent(ctx, r1, r2, parent, ts[..n], period);
      DepsDecrease(ctx.h, r1, parent, ts[n]);
      ValueRankIndependent(ctx, r1, r2, ts[n], period);
    }
  }

  /** A `sintetica` account adds up the values of the plan's accounts whose
      parent code is its code, in plan order, and is 0 when it has none. */
  lemma RollUpSumsChildren(accs: seq<Account>, ctx: Context, rank: map<string, nat>, c: string, period: string)
    requires ctx.h == HierarchyOf(accs) && Ranked(ctx.h, rank)
    requires c in ctx.h.byCode && KindOf(ctx.h.byCode[c]).RollUp?
    ensures Children(ctx.h, c) == ChildCodes(accs, ctx.h.byCode.Keys, c)
    ensures Value(ctx, rank, c, period) == SumOf(ctx, rank, c, Children(ctx.h, c), period)
    ensures ChildCodes(accs, ctx.h.byCode.Keys, c) == [] ==> Value(ctx, rank, c, period) == 0.0
  {
    ChildrenMapIsChildCodes(accs, ctx.h.byCode.Keys, c);
  }

  // ---------------------------------------------------------------------
  // The memoised procedure

  /** `(account_code, period, ds_name)`. */
  datatype CacheKey = CacheKey(code: string, period: string, ds: string)

  /** The pass state: `calculation_cache`. */
  class Engine {
    var cache: map<CacheKey, real>

    constructor()
      ensures cache == map[]
    {
      cache := map[];
    }

    /** Every cached value belongs to this pass's data source and is the
        value the definition gives. */
    ghost predicate CacheSound(ctx: Context, rank: map<string, nat>)
      reads this
      requires Ranked(ctx.h, rank)
    {
      forall k :: k in cache ==> k.ds == ctx.ds && cache[k] == Value(ctx, rank, k.code, k.period)
    }

    /** `calculation_cache = {}` before each (plan, data source) pair. */
    method Reset()
      modifies this
      ensures cache == map[]
    {
      cache := map[];
    }

    /** `get_calculated_value`: a cached value is returned as is; otherwise
        the value is computed (recursively for children and referenced
        codes), stored under `(code, period, ds_name)` and returned. */
    method GetCalculatedValue(c: string, period: string, ctx: Context, ghost rank: map<string, nat>) returns (v: real)
      requires Ranked(ctx.h, rank)
      requires CacheSound(ctx, rank)
      modifies this
      ensures v == Value(ctx, rank, c, period)
      ensures CacheSound(ctx, rank)
      ensures CacheKey(c, period, ctx.ds) in cache && cache[CacheKey(c, period, ctx.ds)] == v
      ensures old(cache).Keys <= cache.Keys
      decreases Measure(ctx.h, rank, c), 1
    {
      var key := CacheKey(c, period, ctx.ds);
      if key in cache {
        return cache[key];
      }
      if c !in ctx.h.byCode {
        cache := cache[key := 0.0];
        return 0.0;
      }
      var a := ctx.h.byCode[c];
      var value := 0.0;
      var t := Lower(a.tipo);
      if t == "analitica" {
        if ctx.ds in a.links && a.links[ctx.ds] != "" && ctx.raw != map[] {
          value := SumLinked(ctx.raw, LinkedCodes(a.links[ctx.ds]), period);
        }
      } else if t == "sintetica" {
        value := SumChildren(c, period, ctx, rank);
      } else if StartsWith(t, "calculo") && a.formula.Some? && a.formula.value != "" {
        value := EvaluateFormula(c, a.formula.value, period, ctx, rank);
      } else {
        assert KindOf(a).Unrecognised?;
      }
      cache := cache[key := value];
      v := value;
    }

    /** The loop over the direct children of a roll-up account. */
    method SumChildren(c: string, period: string, ctx: Context, ghost rank: map<string, nat>) returns (total: real)
      requires Ranked(ctx.h, rank)
      requires CacheSound(ctx, rank)
      requires c in ctx.h.byCode && KindOf(ctx.h.byCode[c]).RollUp?
      modifies this
      ensures total == SumOf(ctx, rank, c, Children(ctx.h, c), period)
      ensures CacheSound(ctx, rank)
      ensures old(cache).Keys <= cache.Keys
      decreases Measure(ctx.h, rank, c), 0
    {
      var children := Children(ctx.h, c);
      assert forall d :: d in children ==> Measure(ctx.h, rank, d) < Measure(ctx.h, rank, c);
      total := 0.0;
      var i := 0;
      while i < |children|
        invariant 0 <= i <= |children|
        invariant CacheSound(ctx, rank)
        invariant old(cache).Keys <= cache.Keys
        invariant total == SumOf(ctx, rank, c, children[..i], period)
      {
        assert children[..i + 1][..i] == children[..i];
        var cv := GetCalculatedValue(children[i], period, ctx, rank);
        total := total + cv;
        i := i + 1;
      }
      assert children[..i] == children;
    }

    /** The formula branch: resolves every referenced code into the
        variable environment, replaces the codes longest first and
        evaluates the result; any failure gives 0. */
    method EvaluateFormula(c: string, f: string, period: string, ctx: Context, ghost rank: map<string, nat>)
      returns (value: real)
      requires Ranked(ctx.h, rank)
      requires CacheSound(ctx, rank)
      requires c in ctx.h.byCode && KindOf(ctx.h.byCode[c]) == Calc(f)
      modifies this
      ensures value == FormulaValue(f, Env(ctx, rank, c, FindCodes(f), period))
      ensures CacheSound(ctx, rank)
      ensures old(cache).Keys <= cache.Keys
      decreases Measure(ctx.h, rank, c), 0
    {
      var refs := FindCodes(f);
      assert forall d :: d in refs ==> Measure(ctx.h, rank, d) < Measure(ctx.h, rank, c);
      var env: map<string, real> := map[];
      var i := 0;
      while i < |refs|
        invariant 0 <= i <= |refs|
        invariant CacheSound(ctx, rank)
        invariant old(cache).Keys <= cache.Keys
        invariant env == Env(ctx, rank, c, refs[..i], period)
      {
        assert refs[..i + 1][..i] == refs[..i];
        var rv := GetCalculatedValue(refs[i], period, ctx, rank);
        env := env[VarName(refs[i]) := rv];
        i := i + 1;
      }
      assert refs[..i] == refs;
      var order := ReplacementOrder(f);
      var s := SubstituteCodes(f, order);
      var r := Evaluate(s, env);
      value := if r.Ok? then r.value else 0.0;
    }
  }

  /** The replacement loop: each code of `order` in turn is replaced by its
      variable wherever it stands as a whole token. */
  method SubstituteCodes(f: string, order: seq<string>) returns (s: string)
    requires forall t :: t in order ==> |t| > 0
    ensures s == SubstituteAll(f, order)
  {
    s := f;
    var i := 0;
    while i < |order|
      invariant 0 <= i <= |order|
      invariant s == SubstituteAll(f, order[..i])
    {
      assert order[..i + 1][..i] == order[..i];
      s := Substitute(s, order[i], VarName(order[i]));
      i := i + 1;
    }
    assert order[..i] == order;
  }
}
