/** The value of a formula account. A number in a formula is read as an
    account code, not as a constant: the formula `1 + 100` of a `calculo`
    account adds the values of the accounts `1` and `100`, and when the
    plan has no account `100` that term is 0. */
module NumberCodes {
  import opened Basics
  import opened Formula
  import opened PlainFormula
  import opened Resolver

  const OneHundred := "1 + 100"

  /** The value of a `calculo` account whose formula has no letter and no
      `_`: every referenced code's variable is bound to that code's value
      and no other variable is bound, the replaced formula is the formula
      with each code written as its variable, and the value is what that
      text evaluates to, 0 on any error. */
  lemma PlainFormulaValue(ctx: Context, rank: map<string, nat>, c: string, f: string, period: string)
    requires Ranked(ctx.h, rank)
    requires c in ctx.h.byCode && KindOf(ctx.h.byCode[c]) == Calc(f)
    requires Plain(f)
    ensures forall d :: d in FindCodes(f) ==> Measure(ctx.h, rank, d) < Measure(ctx.h, rank, c)
    ensures forall d :: d in FindCodes(f) ==>
      VarName(d) in Env(ctx, rank, c, FindCodes(f), period) &&
      Env(ctx, rank, c, FindCodes(f), period)[VarName(d)] == Value(ctx, rank, d, period)
    ensures forall k :: k in Env(ctx, rank, c, FindCodes(f), period) ==> exists d :: d in FindCodes(f) && k == VarName(d)
    ensures Substituted(f) == Renamed(Lex(f, 0))
    ensures Evaluate(Renamed(Lex(f, 0)), Env(ctx, rank, c, FindCodes(f), period)).Ok? ==>
      Value(ctx, rank, c, period) == Evaluate(Renamed(Lex(f, 0)), Env(ctx, rank, c, FindCodes(f), period)).value
    ensures Evaluate(Renamed(Lex(f, 0)), Env(ctx, rank, c, FindCodes(f), period)).Err? ==>
      Value(ctx, rank, c, period) == 0.0
  {
    forall d | d in FindCodes(f) ensures Measure(ctx.h, rank, d) < Measure(ctx.h, rank, c) {
      DepsDecrease(ctx.h, rank, c, d);
    }
    FindCodesAreTokens(f);
    EnvBinds(ctx, rank, c, FindCodes(f), period);
    SubstitutedIsRenamed(f);
  }

  /** Both numbers of the formula are lexed as codes. */
  lemma LexOneHundred(s: string)
    requires s == OneHundred
    ensures Lex(s, 0) == [Code("1"), Sym(' '), Sym('+'), Sym(' '), Code("100")]
    ensures FindCodes(s) == ["1", "100"]
  {
    assert DigitsEnd(s, 1) == 1;
    assert CodeEnd(s, 0) == 1;
    assert DigitsEnd(s, 7) == 7;
    assert DigitsEnd(s, 4) == 7;
    assert CodeEnd(s, 4) == 7;
    assert s[0..1] == "1" && s[4..7] == "100";
    assert Lex(s, 4) == [Code("100")];
    assert Lex(s, 1) == [Sym(' '), Sym('+'), Sym(' '), Code("100")];
    CodesOneHundred(Lex(s, 0));
  }

  /** The codes of the pieces of `1 + 100`. */
  lemma CodesOneHundred(ps: seq<Piece>)
    requires ps == [Code("1"), Sym(' '), Sym('+'), Sym(' '), Code("100")]
    ensures CodesOf(ps) == ["1", "100"]
  {
    assert ps[4..][1..] == [];
    assert CodesOf(ps[4..]) == ["100"];
    assert ps[3..][1..] == ps[4..] && ps[2..][1..] == ps[3..] && ps[1..][1..] == ps[2..];
    assert CodesOf(ps[3..]) == ["100"];
    assert CodesOf(ps[2..]) == ["100"];
    assert CodesOf(ps[1..]) == ["100"];
  }

  /** Both codes are renamed to variables. */
  lemma RenamedOneHundred(ps: seq<Piece>)
    requires ps == [Code("1"), Sym(' '), Sym('+'), Sym(' '), Code("100")]
    ensures Renamed(ps) == "v_1 + v_100"
  {
    assert VarName("1") == "v_1" && VarName("100") == "v_100";
    var p4 := ps[4..];
    assert p4 == [Code("100")] && p4[1..] == [];
    assert Renamed(p4) == "v_100";
    var p3 := ps[3..];
    assert p3[0] == Sym(' ') && p3[1..] == p4;
    var p2 := ps[2..];
    assert p2[0] == Sym('+') && p2[1..] == p3;
    var p1 := ps[1..];
    assert p1[0] == Sym(' ') && p1[1..] == p2;
    assert ps[0] == Code("1") && ps[1..] == p1;
    assert Renamed(p3) == " v_100";
    assert Renamed(p2) == "+ v_100";
    assert Renamed(p1) == " + v_100";
    assert Renamed(ps) == "v_1" + " + v_100";
  }

  /** The formula once its codes are replaced: `v_1 + v_100`. */
  lemma SubstitutedOneHundred(f: string)
    requires f == OneHundred
    ensures Substituted(f) == "v_1 + v_100"
  {
    LexOneHundred(f);
    assert Plain(f);
    SubstitutedIsRenamed(f);
    RenamedOneHundred(Lex(f, 0));
  }

  /** The tokens of the substituted formula. */
  lemma TokenizeOneHundred(s: string)
    requires s == "v_1 + v_100"
    ensures Tokenize(s, 0) == Ok([TIdent("v_1"), TPlus, TIdent("v_100")])
  {
    assert WordEnd(s, 3) == 3 && WordEnd(s, 1) == 3;
    assert WordEnd(s, 11) == 11 && WordEnd(s, 7) == 11;
    assert s[0..3] == "v_1" && s[6..11] == "v_100";
    assert s[6] == 'v' && s[0] == 'v' && s[4] == '+' && s[3] == ' ' && s[5] == ' ';
    var t6 := [TIdent("v_100")];
    assert Tokenize(s, 11) == Ok([]);
    assert [TIdent(s[6..11])] + [] == t6;
    assert Tokenize(s, 6) == Ok(t6);
    assert Tokenize(s, 5) == Ok(t6);
    assert Tokenize(s, 4) == Ok([TPlus] + t6);
    assert Tokenize(s, 3) == Ok([TPlus] + t6);
    assert [TIdent(s[0..3])] + ([TPlus] + t6) == [TIdent("v_1"), TPlus, TIdent("v_100")];
  }

  /** The tokens parse as the sum of the two variables. */
  lemma ParseOneHundred(ts: seq<Tok>)
    requires ts == [TIdent("v_1"), TPlus, TIdent("v_100")]
    ensures ParseAll(ts) == Ok(Bin(Add, Var("v_1"), Var("v_100")))
  {
    var a := Var("v_1");
    var b := Var("v_100");
    var t1 := ts[1..];
    var t2 := t1[1..];
    assert t2 == [TIdent("v_100")] && t2[1..] == [];
    assert ParseAtom(t2) == Ok(Parsed(b, []));
    assert ParseFactor(t2) == Ok(Parsed(b, []));
    assert ParseTerm(t2) == Ok(Parsed(b, []));
    assert ParseAtom(ts) == Ok(Parsed(a, t1));
    assert ParseFactor(ts) == Ok(Parsed(a, t1));
    assert t1[0] == TPlus;
    assert ParseTermTail(a, t1) == Ok(Parsed(a, t1));
    assert ParseTerm(ts) == Ok(Parsed(a, t1));
    assert ParseExprTail(Bin(Add, a, b), []) == Ok(Parsed(Bin(Add, a, b), []));
    assert ParseExprTail(a, t1) == Ok(Parsed(Bin(Add, a, b), []));
    assert ParseExpr(ts) == Ok(Parsed(Bin(Add, a, b), []));
  }

  /** The replaced formula evaluates to the sum of the two variables. */
  lemma EvaluateOneHundred(s: string, env: map<string, real>)
    requires s == "v_1 + v_100"
    requires "v_1" in env && "v_100" in env
    ensures Evaluate(s, env) == Ok(env["v_1"] + env["v_100"])
  {
    TokenizeOneHundred(s);
    var ts := [TIdent("v_1"), TPlus, TIdent("v_100")];
    ParseOneHundred(ts);
    var e := Bin(Add, Var("v_1"), Var("v_100"));
    assert Eval(Var("v_1"), env) == Ok(env["v_1"]) && Eval(Var("v_100"), env) == Ok(env["v_100"]);
    assert Eval(e, env) == Ok(env["v_1"] + env["v_100"]);
    assert Tokenize(s, 0) == Ok(ts) && ParseAll(ts) == Ok(e);
  }

  lemma VarNamesOfNumbers()
    ensures VarName("1") == "v_1" && VarName("100") == "v_100"
  {
  }

  /** The variables bound for the formula: the value of account `1`, and 0
      for the code `100` the plan does not hold. */
  lemma EnvOneHundred(ctx: Context, rank: map<string, nat>, c: string, ts: seq<string>, period: string)
    requires Ranked(ctx.h, rank)
    requires forall d :: d in ts ==> Measure(ctx.h, rank, d) < Measure(ctx.h, rank, c)
    requires ts == ["1", "100"] && "100" !in ctx.h.byCode
    ensures "v_1" in Env(ctx, rank, c, ts, period) && "v_100" in Env(ctx, rank, c, ts, period)
    ensures Env(ctx, rank, c, ts, period)["v_1"] == Value(ctx, rank, "1", period)
    ensures Env(ctx, rank, c, ts, period)["v_100"] == 0.0
  {
    VarNamesOfNumbers();
    assert ts[..1] == ["1"] && ts[..1][..0] == [];
  }

  /** The value of the formula is the sum of the two referenced values. */
  lemma FormulaValueOneHundred(f: string, env: map<string, real>)
    requires f == OneHundred
    requires "v_1" in env && "v_100" in env
    ensures FormulaValue(f, env) == env["v_1"] + env["v_100"]
  {
    SubstitutedOneHundred(f);
    EvaluateOneHundred(Substituted(f), env);
  }

  /** A `calculo` account with formula `1 + 100` has the value of account
      `1` when the plan has no account `100`. */
  lemma OneHundredIsACode(ctx: Context, rank: map<string, nat>, c: string, period: string)
    requires Ranked(ctx.h, rank)
    requires c in ctx.h.byCode && KindOf(ctx.h.byCode[c]) == Calc(OneHundred)
    requires "100" !in ctx.h.byCode
    ensures Value(ctx, rank, c, period) == Value(ctx, rank, "1", period)
  {
    LexOneHundred(OneHundred);
    var ts := FindCodes(OneHundred);
    EnvOneHundred(ctx, rank, c, ts, period);
    FormulaValueOneHundred(OneHundred, Env(ctx, rank, c, ts, period));
  }
}
