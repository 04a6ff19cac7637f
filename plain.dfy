/** What the code replacement and the evaluation of a `calculo` formula
    amount to when the formula holds no letter and no `_` (codes,
    operators, brackets and blanks only): every code token is replaced by
    its own variable exactly where it stands, and the formula is evaluated
    as the token sequence it reads as, each code being one operand. In
    particular a number in a formula is always an account reference. */
module PlainFormula {
  import opened Basics
  import opened Text
  import opened Sorting
  import opened Formula

  /** No word character of the formula is anything but a digit. */
  predicate Plain(f: string)
  {
    forall k :: 0 <= k < |f| ==> !IsLetter(f[k]) && f[k] != '_'
  }

  /** The text of one piece once the codes in `done` have been replaced. */
  function Seg(p: Piece, done: set<string>): string
  {
    match p
    case Code(t) => if t in done then VarName(t) else t
    case Sym(c) => [c]
  }

  function Render(ps: seq<Piece>, done: set<string>): string
  {
    if ps == [] then [] else Seg(ps[0], done) + Render(ps[1..], done)
  }

  /** Every code piece replaced by its variable, everything else kept. */
  function Renamed(ps: seq<Piece>): string
  {
    if ps == [] then []
    else (match ps[0] case Code(t) => VarName(t) case Sym(c) => [c]) + Renamed(ps[1..])
  }

  /** The shape of the pieces of a plain formula: codes are whole tokens,
      other pieces are not word characters, a code is followed by a
      non-code, and a code followed by `.` is not followed by a code. */
  ghost predicate Shaped(ps: seq<Piece>)
  {
    ps == [] ||
    (&& (ps[0].Code? ==> CodeToken(ps[0].token))
     && (ps[0].Code? && |ps| > 1 ==> ps[1].Sym?)
     && (ps[0].Code? && |ps| > 2 && ps[1] == Sym('.') ==> ps[2].Sym?)
     && (ps[0].Sym? ==> !IsWordChar(ps[0].c))
     && Shaped(ps[1..]))
  }

  lemma {:induction false} ShapedPieces(ps: seq<Piece>)
    requires Shaped(ps)
    ensures forall k :: 0 <= k < |ps| && ps[k].Sym? ==> !IsWordChar(ps[k].c)
    ensures forall k :: 0 <= k < |ps| && ps[k].Code? ==> CodeToken(ps[k].token)
  {
    if ps != [] {
      ShapedPieces(ps[1..]);
      assert forall k :: 0 < k < |ps| ==> ps[k] == ps[1..][k - 1];
    }
  }

  lemma {:induction false} LexShaped(f: string, i: nat)
    requires Plain(f) && i <= |f|
    ensures Shaped(Lex(f, i))
    decreases |f| - i
  {
    if i < |f| {
      if IsDigit(f[i]) {
        var e := CodeEnd(f, i);
        CodeEndToken(f, i);
        LexShaped(f, e);
        if e + 1 < |f| && f[e] == '.' {
          assert Lex(f, e) == [Sym('.')] + Lex(f, e + 1);
          assert Lex(f, e + 1)[0] == Sym(f[e + 1]);
        }
      } else {
        LexShaped(f, i + 1);
      }
    }
  }

  /** Scanning over positions where `t` does not match copies the text. */
  lemma {:induction false} SubFromCopy(s: string, t: string, v: string, i: nat, j: nat)
    requires |t| > 0 && i <= j <= |s|
    requires forall m :: i <= m < j ==> !MatchesAt(s, t, m)
    ensures SubFrom(s, t, v, i) == s[i..j] + SubFrom(s, t, v, j)
    decreases j - i
  {
    if i < j {
      assert !MatchesAt(s, t, i);
      SubFromCopy(s, t, v, i + 1, j);
      assert s[i..j] == [s[i]] + s[i + 1..j];
      Prepend(SubFrom(s, t, v, i), SubFrom(s, t, v, i + 1), [s[i]], s[i + 1..j], SubFrom(s, t, v, j), s[i..j]);
    }
  }

  /** `a` is `x` then `b`, and `b` is `y` then `c`: `a` is `x + y` then `c`. */
  lemma Prepend(a: string, b: string, x: string, y: string, c: string, xy: string)
    requires a == x + b && b == y + c && xy == x + y
    ensures a == xy + c
  {
  }

  /** `t` does not match anywhere inside a variable name. */
  lemma NoMatchInVar(s: string, t: string, i: nat, u: string)
    requires CodeToken(t) && CodeToken(u)
    requires i + |VarName(u)| <= |s| && s[i..i + |VarName(u)|] == VarName(u)
    ensures forall m :: i <= m < i + |VarName(u)| ==> !MatchesAt(s, t, m)
  {
    var w := VarName(u);
    assert forall k :: 0 <= k < |w| ==> s[i + k] == w[k] && IsWordChar(w[k]);
    assert forall p :: i <= p < i + |w| ==> IsWordChar(s[p]) by {
      forall p | i <= p < i + |w| ensures IsWordChar(s[p]) {
        assert s[i + (p - i)] == w[p - i];
      }
    }
    forall m | i <= m < i + |w| ensures !MatchesAt(s, t, m) {
      if m == i {
        assert s[m] == 'v';
        assert m + |t| <= |s| ==> s[m..m + |t|][0] == s[m];
      } else {
        assert IsWordChar(s[m - 1]) && IsWordChar(s[m]);
        assert WordAt(s, m - 1) && WordAt(s, m);
      }
    }
  }

  /** `t` does not match anywhere inside an occurrence of another code `u`
      that is not longer than `t`, when what follows `u` cannot extend
      it to a longer token. */
  lemma NoMatchInCode(s: string, t: string, i: nat, u: string)
    requires CodeToken(t) && CodeToken(u) && |u| <= |t| && u != t
    requires i + |u| <= |s| && s[i..i + |u|] == u
    requires i + |u| < |s| ==> !IsWordChar(s[i + |u|])
    requires i + |u| + 1 < |s| && s[i + |u|] == '.' ==> !IsDigit(s[i + |u| + 1])
    ensures forall m :: i <= m < i + |u| ==> !MatchesAt(s, t, m)
  {
    forall m | i <= m < i + |u| ensures !MatchesAt(s, t, m) {
      var q := i + |u| - m;
      assert m == i && |t| == |u| && m + |t| <= |s| ==> s[m..m + |t|] == u;
    }
  }

  /** The scan over a character that is not a word character: it is copied. */
  lemma StepSym(s: string, i: nat, c: char, t: string)
    requires CodeToken(t)
    requires i < |s| && s[i] == c && !IsWordChar(c)
    ensures SubFrom(s, t, VarName(t), i) == [c] + SubFrom(s, t, VarName(t), i + 1)
  {
    assert !MatchesAt(s, t, i) by {
      assert i + |t| <= |s| ==> s[i..i + |t|][0] == s[i];
    }
  }

  /** The scan over a variable name already in place: it is copied. */
  lemma StepVar(s: string, i: nat, u: string, t: string)
    requires CodeToken(t) && CodeToken(u)
    requires i + |VarName(u)| <= |s| && s[i..i + |VarName(u)|] == VarName(u)
    ensures SubFrom(s, t, VarName(t), i) == VarName(u) + SubFrom(s, t, VarName(t), i + |VarName(u)|)
  {
    NoMatchInVar(s, t, i, u);
    SubFromCopy(s, t, VarName(t), i, i + |VarName(u)|);
  }

  /** The scan over an occurrence of `t` standing as a whole token: it is replaced. */
  lemma StepMatch(s: string, i: nat, t: string)
    requires CodeToken(t)
    requires i + |t| <= |s| && s[i..i + |t|] == t
    requires 0 < i ==> !IsWordChar(s[i - 1])
    requires i + |t| < |s| ==> !IsWordChar(s[i + |t|])
    ensures SubFrom(s, t, VarName(t), i) == VarName(t) + SubFrom(s, t, VarName(t), i + |t|)
  {
    assert s[i] == t[0] && s[i + |t| - 1] == t[|t| - 1];
    assert MatchesAt(s, t, i);
  }

  /** The scan over another code not longer than `t`: it is copied. */
  lemma StepOther(s: string, i: nat, u: string, t: string)
    requires CodeToken(t) && CodeToken(u) && |u| <= |t| && u != t
    requires i + |u| <= |s| && s[i..i + |u|] == u
    requires i + |u| < |s| ==> !IsWordChar(s[i + |u|])
    requires i + |u| + 1 < |s| && s[i + |u|] == '.' ==> !IsDigit(s[i + |u| + 1])
    ensures SubFrom(s, t, VarName(t), i) == u + SubFrom(s, t, VarName(t), i + |u|)
  {
    NoMatchInCode(s, t, i, u);
    SubFromCopy(s, t, VarName(t), i, i + |u|);
  }

  lemma RenderFront(ps: seq<Piece>, done: set<string>)
    requires ps != []
    ensures Render(ps, done) == Seg(ps[0], done) + Render(ps[1..], done)
  {
  }

  /** A suffix of `s` that is `x + y` holds `x` first and `y` right after it. */
  lemma SliceSplit(s: string, i: nat, x: string, y: string)
    requires i <= |s| && s[i..] == x + y
    ensures i + |x| <= |s| && s[i..i + |x|] == x && s[i + |x|..] == y
  {
    assert s[i..][..|x|] == s[i..i + |x|];
    assert s[i..][|x|..] == s[i + |x|..];
  }

  /** The rendered pieces from `i` on: the first piece, then the rest. */
  lemma SplitRendered(s: string, i: nat, ps: seq<Piece>, done: set<string>)
    requires ps != [] && i <= |s| && s[i..] == Render(ps, done)
    ensures i + |Seg(ps[0], done)| <= |s|
    ensures s[i..i + |Seg(ps[0], done)|] == Seg(ps[0], done)
    ensures s[i + |Seg(ps[0], done)|..] == Render(ps[1..], done)
    ensures ps[0].Sym? ==> s[i] == ps[0].c
  {
    RenderFront(ps, done);
    SliceSplit(s, i, Seg(ps[0], done), Render(ps[1..], done));
    if ps[0].Sym? {
      assert s[i] == s[i..i + 1][0];
    }
  }

  /** What follows a code piece in the rendered text: a character that is
      not a word character, and no digit right after a `.`. */
  lemma CodeFollowers(s: string, i: nat, ps: seq<Piece>, done: set<string>)
    requires Shaped(ps) && ps != [] && ps[0].Code?
    requires i <= |s| && s[i..] == Render(ps, done)
    ensures i + |Seg(ps[0], done)| <= |s|
    ensures i + |Seg(ps[0], done)| < |s| ==> !IsWordChar(s[i + |Seg(ps[0], done)|])
    ensures i + |Seg(ps[0], done)| + 1 < |s| && s[i + |Seg(ps[0], done)|] == '.' ==>
      !IsDigit(s[i + |Seg(ps[0], done)| + 1])
  {
    var e := i + |Seg(ps[0], done)|;
    SplitRendered(s, i, ps, done);
    ShapedPieces(ps);
    if |ps| > 1 {
      SplitRendered(s, e, ps[1..], done);
      if |ps| > 2 && ps[1].c == '.' {
        assert ps[1..][1..][0] == ps[2];
        SplitRendered(s, e + 1, ps[1..][1..], done);
      }
    } else {
      assert Render(ps[1..], done) == [];
    }
  }

  /** No code still in place among the pieces is longer than `t`. */
  predicate Shorter(ps: seq<Piece>, done: set<string>, t: string)
  {
    forall k :: 0 <= k < |ps| && ps[k].Code? && ps[k].token !in done ==> |ps[k].token| <= |t|
  }

  /** What one replacement pass over the pieces rendered from `i` on in
      `s` relies on. */
  ghost predicate Ready(s: string, i: nat, ps: seq<Piece>, done: set<string>, t: string)
  {
    && Shaped(ps) && CodeToken(t) && Shorter(ps, done, t)
    && i <= |s| && s[i..] == Render(ps, done)
    && (ps != [] && ps[0].Code? && 0 < i ==> !IsWordChar(s[i - 1]))
  }

  /** The piece `q` is written at `i` in `s`, and what surrounds it keeps
      the scan for `t` from matching inside it. */
  ghost predicate PieceAt(s: string, i: nat, q: Piece, done: set<string>, t: string)
  {
    && CodeToken(t)
    && i + |Seg(q, done)| <= |s| && s[i..i + |Seg(q, done)|] == Seg(q, done)
    && (q.Sym? ==> !IsWordChar(q.c) && s[i] == q.c)
    && (q.Code? ==>
      && CodeToken(q.token)
      && (q.token !in done ==> |q.token| <= |t|)
      && (0 < i ==> !IsWordChar(s[i - 1]))
      && (i + |Seg(q, done)| < |s| ==> !IsWordChar(s[i + |Seg(q, done)|]))
      && (i + |Seg(q, done)| + 1 < |s| && s[i + |Seg(q, done)|] == '.' ==> !IsDigit(s[i + |Seg(q, done)| + 1])))
  }

  /** The scan over one piece written at `i`. */
  lemma StepPiece(s: string, i: nat, q: Piece, done: set<string>, t: string)
    requires PieceAt(s, i, q, done, t)
    ensures SubFrom(s, t, VarName(t), i) == Seg(q, done + {t}) + SubFrom(s, t, VarName(t), i + |Seg(q, done)|)
  {
    if q.Sym? {
      StepSym(s, i, q.c, t);
    } else {
      StepCode(s, i, q.token, done, t);
    }
  }

  /** The scan over a code piece written at `i`. */
  lemma StepCode(s: string, i: nat, u: string, done: set<string>, t: string)
    requires PieceAt(s, i, Code(u), done, t)
    ensures SubFrom(s, t, VarName(t), i) == Seg(Code(u), done + {t}) + SubFrom(s, t, VarName(t), i + |Seg(Code(u), done)|)
  {
    if u in done {
      StepVar(s, i, u, t);
    } else if u == t {
      StepMatch(s, i, t);
    } else {
      StepOther(s, i, u, t);
    }
  }

  /** The first of the pieces of a ready pass stands where the scan can
      step over it. */
  lemma FirstPieceAt(s: string, i: nat, ps: seq<Piece>, done: set<string>, t: string)
    requires ps != [] && Ready(s, i, ps, done, t)
    ensures PieceAt(s, i, ps[0], done, t)
  {
    SplitRendered(s, i, ps, done);
    if ps[0].Code? {
      CodeFollowers(s, i, ps, done);
    }
  }

  /** After the first piece, the pass over the rest is ready too. */
  lemma RestReady(s: string, i: nat, ps: seq<Piece>, done: set<string>, t: string)
    requires ps != [] && Ready(s, i, ps, done, t)
    ensures Ready(s, i + |Seg(ps[0], done)|, ps[1..], done, t)
  {
    SplitRendered(s, i, ps, done);
    assert forall k :: 0 <= k < |ps| - 1 ==> ps[1..][k] == ps[k + 1];
  }

  /** `a` is `x` then `b`, `b` is `r1` and `r` is `x` then `r1`. */
  lemma Chain(a: string, b: string, x: string, r1: string, r: string)
    requires a == x + b && b == r1 && r == x + r1
    ensures a == r
  {
  }

  /** The scan over the first piece, followed by the pass over the rest. */
  lemma PassFront(s: string, i: nat, ps: seq<Piece>, done: set<string>, t: string)
    requires ps != [] && Ready(s, i, ps, done, t)
    requires SubFrom(s, t, VarName(t), i + |Seg(ps[0], done)|) == Render(ps[1..], done + {t})
    ensures SubFrom(s, t, VarName(t), i) == Render(ps, done + {t})
  {
    FirstPieceAt(s, i, ps, done, t);
    StepPiece(s, i, ps[0], done, t);
    RenderFront(ps, done + {t});
    Chain(SubFrom(s, t, VarName(t), i), SubFrom(s, t, VarName(t), i + |Seg(ps[0], done)|), Seg(ps[0], done + {t}),
      Render(ps[1..], done + {t}), Render(ps, done + {t}));
  }

  /** One replacement pass over the rendered pieces written from `i` on
      in `s`: a code `t` not shorter than any code still in place is
      replaced exactly at the pieces that are `t`. */
  lemma {:induction false} SubstituteStep(s: string, i: nat, ps: seq<Piece>, done: set<string>, t: string)
    requires Ready(s, i, ps, done, t)
    ensures SubFrom(s, t, VarName(t), i) == Render(ps, done + {t})
    decreases |ps|
  {
    if ps != [] {
      RestReady(s, i, ps, done, t);
      SubstituteStep(s, i + |Seg(ps[0], done)|, ps[1..], done, t);
      PassFront(s, i, ps, done, t);
    }
  }

  /** With nothing replaced yet, the pieces render as the formula itself. */
  lemma {:induction false} RenderNone(ps: seq<Piece>)
    ensures Render(ps, {}) == Flatten(ps)
  {
    if ps != [] {
      RenderNone(ps[1..]);
    }
  }

  /** Once every code of the pieces is replaced, each code piece reads as
      its variable. */
  lemma {:induction false} RenderAllDone(ps: seq<Piece>, done: set<string>)
    requires forall k :: 0 <= k < |ps| && ps[k].Code? ==> ps[k].token in done
    ensures Render(ps, done) == Renamed(ps)
  {
    if ps != [] {
      assert forall k :: 0 <= k < |ps| - 1 ==> ps[1..][k] == ps[k + 1];
      RenderAllDone(ps[1..], done);
    }
  }

  /** A code piece contributes its token to the referenced codes. */
  lemma {:induction false} CodeInCodesOf(ps: seq<Piece>, k: nat)
    requires k < |ps| && ps[k].Code?
    ensures ps[k].token in CodesOf(ps)
  {
    if k > 0 {
      assert ps[1..][k - 1] == ps[k];
      CodeInCodesOf(ps[1..], k - 1);
    }
  }

  /** The codes replaced by the first `k` passes. */
  function Done(ts: seq<string>): set<string>
  {
    set t | t in ts
  }

  /** The formula after the first `k` passes of the replacement loop. */
  function AfterPasses(f: string, k: nat): string
    requires k <= |ReplacementOrder(f)|
  {
    var ts := ReplacementOrder(f)[..k];
    assert forall t :: t in ts ==> t in ReplacementOrder(f);
    SubstituteAll(f, ts)
  }

  /** Pass `k` replaces the `k`-th code of the replacement order. */
  lemma PassStep(f: string, k: nat)
    requires 0 < k <= |ReplacementOrder(f)|
    ensures AfterPasses(f, k) ==
      Substitute(AfterPasses(f, k - 1), ReplacementOrder(f)[k - 1], VarName(ReplacementOrder(f)[k - 1]))
  {
    var order := ReplacementOrder(f);
    assert order[..k][..k - 1] == order[..k - 1];
    assert order[..k][k - 1] == order[k - 1];
  }

  lemma DoneStep(ts: seq<string>, k: nat)
    requires 0 < k <= |ts|
    ensures Done(ts[..k]) == Done(ts[..k - 1]) + {ts[k - 1]}
  {
    assert ts[..k] == ts[..k - 1] + [ts[k - 1]];
  }

  /** The `k`-th code in replacement order is not shorter than any code
      the earlier passes left in place. */
  lemma OrderShorter(f: string, k: nat)
    requires k < |ReplacementOrder(f)|
    ensures Shorter(Lex(f, 0), Done(ReplacementOrder(f)[..k]), ReplacementOrder(f)[k])
  {
    var ps := Lex(f, 0);
    var order := ReplacementOrder(f);
    forall j | 0 <= j < |ps| && ps[j].Code? && ps[j].token !in Done(order[..k])
      ensures |ps[j].token| <= |order[k]|
    {
      CodeInCodesOf(ps, j);
      assert ps[j].token in multiset(order);
      var m :| 0 <= m < |order| && order[m] == ps[j].token;
      if m > k {
        ReplacementOrderLongestFirst(f, k, m);
      }
    }
  }

  /** Pass `k` starts on the rendered pieces with what the scan needs. */
  lemma ReadyAtPass(f: string, k: nat)
    requires Plain(f) && k < |ReplacementOrder(f)|
    ensures Ready(Render(Lex(f, 0), Done(ReplacementOrder(f)[..k])), 0, Lex(f, 0),
      Done(ReplacementOrder(f)[..k]), ReplacementOrder(f)[k])
  {
    LexShaped(f, 0);
    OrderShorter(f, k);
    var r := Render(Lex(f, 0), Done(ReplacementOrder(f)[..k]));
    assert r[0..] == r;
  }

  /** The scan `re.sub` performs is the scan from the first position. */
  lemma SubstituteIsScan(s: string, t: string, v: string)
    requires |t| > 0
    ensures Substitute(s, t, v) == SubFrom(s, t, v, 0)
  {
  }

  /** `a` is the scan of `r`, which gives `r2`, and `b` is `r2`. */
  lemma Link(a: string, scan: string, r2: string, b: string)
    requires a == scan && scan == r2 && b == r2
    ensures a == b
  {
  }

  /** After the first `k` passes of the replacement loop, exactly the codes
      replaced so far read as their variables, each where it stood. */
  lemma {:induction false} SubstitutePrefix(f: string, k: nat)
    requires Plain(f) && k <= |ReplacementOrder(f)|
    ensures AfterPasses(f, k) == Render(Lex(f, 0), Done(ReplacementOrder(f)[..k]))
  {
    var order := ReplacementOrder(f);
    var ps := Lex(f, 0);
    if k == 0 {
      assert order[..0] == [];
      assert Done(order[..0]) == {};
      RenderNone(ps);
      LexFlatten(f, 0);
      assert f[0..] == f;
    } else {
      var t := order[k - 1];
      var d := Done(order[..k - 1]);
      SubstitutePrefix(f, k - 1);
      ReadyAtPass(f, k - 1);
      SubstituteStep(Render(ps, d), 0, ps, d, t);
      SubstituteIsScan(Render(ps, d), t, VarName(t));
      PassStep(f, k);
      DoneStep(order, k);
      Link(AfterPasses(f, k), Substitute(Render(ps, d), t, VarName(t)), Render(ps, d + {t}),
        Render(ps, Done(order[..k])));
    }
  }

  /** The formula once every referenced code is replaced: each code
      token, and only a code token, reads as its own variable. */
  lemma SubstitutedIsRenamed(f: string)
    requires Plain(f)
    ensures Substituted(f) == Renamed(Lex(f, 0))
  {
    var order := ReplacementOrder(f);
    var ps := Lex(f, 0);
    SubstitutePrefix(f, |order|);
    assert order[..|order|] == order;
    forall j | 0 <= j < |ps| && ps[j].Code? ensures ps[j].token in Done(order) {
      CodeInCodesOf(ps, j);
      assert ps[j].token in multiset(order);
    }
    RenderAllDone(ps, Done(order));
  }
}
