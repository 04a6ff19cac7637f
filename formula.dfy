/** Formula evaluation of `calculo` accounts: the code tokens a formula
    references (`re.findall(r'(\d+(\.\d+)*)', formula)`), the renaming of
    each token into a variable (`v_` plus the token with `.` turned into
    `_`), the whole-token replacement `re.sub(r'\b' + code + r'\b', ...)`
    applied longest token first, and the evaluation of what results over
    a closed arithmetic grammar: identifiers, `+ - * /`, unary `+`/`-`,
    parentheses and blanks. Any text outside that grammar, an unknown
    identifier or a division by zero is an error. */
module Formula {
  import opened Basics
  import opened Text
  import opened Sorting

  // ---------------------------------------------------------------------
  // Code tokens: `\d+(\.\d+)*`

  /** `t` is a whole match of `\d+(\.\d+)*`: digit groups joined by single dots. */
  ghost predicate CodeToken(t: string)
  {
    && |t| > 0
    && IsDigit(t[0]) && IsDigit(t[|t| - 1])
    && (forall k :: 0 <= k < |t| ==> IsDigit(t[k]) || t[k] == '.')
    && (forall k :: 0 <= k < |t| - 1 && t[k] == '.' ==> IsDigit(t[k + 1]))
  }

  /** The end of the run of digits that starts at `i`. */
  function DigitsEnd(s: string, i: nat): (e: nat)
    requires i <= |s|
    ensures i <= e <= |s|
    ensures forall m :: i <= m < e ==> IsDigit(s[m])
    ensures e < |s| ==> !IsDigit(s[e])
    decreases |s| - i
  {
    if i < |s| && IsDigit(s[i]) then DigitsEnd(s, i + 1) else i
  }

  /** After a digit run ending at `e`, the greedy `(\.\d+)*` part. */
  function GroupsEnd(s: string, e: nat): (r: nat)
    requires e <= |s|
    requires e < |s| ==> !IsDigit(s[e])
    ensures e <= r <= |s|
    ensures r < |s| ==> !IsDigit(s[r])
    ensures !(r + 1 < |s| && s[r] == '.' && IsDigit(s[r + 1]))
    decreases |s| - e
  {
    if e + 1 < |s| && s[e] == '.' && IsDigit(s[e + 1]) then GroupsEnd(s, DigitsEnd(s, e + 1)) else e
  }

  lemma {:induction false} GroupsEndToken(s: string, i: nat, e: nat)
    requires i < e <= |s|
    requires e < |s| ==> !IsDigit(s[e])
    requires CodeToken(s[i..e])
    ensures CodeToken(s[i..GroupsEnd(s, e)])
    decreases |s| - e
  {
    if e + 1 < |s| && s[e] == '.' && IsDigit(s[e + 1]) {
      var e' := DigitsEnd(s, e + 1);
      GroupExtends(s, i, e, e');
      GroupsEndToken(s, i, e');
    }
  }

  /** A token followed by `.` and a run of digits is a longer token. */
  lemma GroupExtends(s: string, i: nat, e: nat, e': nat)
    requires i < e && e + 1 < e' <= |s| && s[e] == '.'
    requires forall m :: e < m < e' ==> IsDigit(s[m])
    requires CodeToken(s[i..e])
    ensures CodeToken(s[i..e'])
  {
    var u := s[i..e];
    var t := s[i..e'];
    assert forall k :: 0 <= k < |u| ==> u[k] == s[i + k];
    assert forall k :: 0 <= k < |t| ==> t[k] == s[i + k];
    assert IsDigit(s[e - 1]) by {
      assert u[|u| - 1] == s[e - 1];
    }
    forall k | 0 <= k < |t| - 1 && t[k] == '.' ensures IsDigit(t[k + 1]) {
      if i + k < e - 1 {
        assert u[k] == '.';
        assert IsDigit(u[k + 1]);
      }
    }
    forall k | 0 <= k < |t| ensures IsDigit(t[k]) || t[k] == '.' {
      if i + k < e {
        assert u[k] == t[k];
      }
    }
    assert t[0] == u[0];
  }

  /** The end of the leftmost-longest token match starting at the digit `s[i]`. */
  function CodeEnd(s: string, i: nat): (e: nat)
    requires i < |s| && IsDigit(s[i])
    ensures i < e <= |s|
    ensures e < |s| ==> !IsDigit(s[e])
    ensures !(e + 1 < |s| && s[e] == '.' && IsDigit(s[e + 1]))
  {
    GroupsEnd(s, DigitsEnd(s, i))
  }

  lemma CodeEndToken(s: string, i: nat)
    requires i < |s| && IsDigit(s[i])
    ensures CodeToken(s[i..CodeEnd(s, i)])
  {
    var d := DigitsEnd(s, i);
    assert CodeToken(s[i..d]) by {
      assert forall k :: 0 <= k < d - i ==> s[i..d][k] == s[i + k];
    }
    GroupsEndToken(s, i, d);
  }

  /** A formula cut into the matches of the token pattern and the characters
      between them, as `re.findall` scans it from left to right. */
  datatype Piece = Code(token: string) | Sym(c: char)

  function Lex(s: string, i: nat): (ps: seq<Piece>)
    requires i <= |s|
    decreases |s| - i
  {
    if i == |s| then []
    else if IsDigit(s[i]) then [Code(s[i..CodeEnd(s, i)])] + Lex(s, CodeEnd(s, i))
    else [Sym(s[i])] + Lex(s, i + 1)
  }

  /** The text the pieces were cut from. */
  function Flatten(ps: seq<Piece>): string
  {
    if ps == [] then []
    else (match ps[0] case Code(t) => t case Sym(c) => [c]) + Flatten(ps[1..])
  }

  /** Cutting loses nothing: the pieces put together give back the formula. */
  lemma {:induction false} LexFlatten(s: string, i: nat)
    requires i <= |s|
    ensures Flatten(Lex(s, i)) == s[i..]
    decreases |s| - i
  {
    if i < |s| {
      var ps := Lex(s, i);
      assert ps[1..] == Lex(s, if IsDigit(s[i]) then CodeEnd(s, i) else i + 1);
      if IsDigit(s[i]) {
        LexFlatten(s, CodeEnd(s, i));
        assert s[i..] == s[i..CodeEnd(s, i)] + s[CodeEnd(s, i)..];
      } else {
        LexFlatten(s, i + 1);
        assert s[i..] == [s[i]] + s[i + 1..];
      }
    }
  }

  /** Every code piece is a whole token, and every other piece is a non-digit. */
  lemma {:induction false} LexPieces(s: string, i: nat)
    requires i <= |s|
    ensures forall p :: p in Lex(s, i) && p.Code? ==> CodeToken(p.token)
    ensures forall p :: p in Lex(s, i) && p.Sym? ==> !IsDigit(p.c)
    decreases |s| - i
  {
    if i < |s| {
      if IsDigit(s[i]) {
        CodeEndToken(s, i);
        LexPieces(s, CodeEnd(s, i));
      } else {
        LexPieces(s, i + 1);
      }
    }
  }

  function CodesOf(ps: seq<Piece>): (ts: seq<string>)
    ensures |ts| <= |ps|
  {
    if ps == [] then []
    else (if ps[0].Code? then [ps[0].token] else []) + CodesOf(ps[1..])
  }

  /** `re.findall(r'(\d+(\.\d+)*)', formula)`, whole matches in order. */
  function FindCodes(f: string): (ts: seq<string>)
  {
    CodesOf(Lex(f, 0))
  }

  lemma {:induction false} CodesOfTokens(ps: seq<Piece>)
    requires forall p :: p in ps && p.Code? ==> CodeToken(p.token)
    ensures forall t :: t in CodesOf(ps) ==> CodeToken(t)
  {
    if ps != [] {
      CodesOfTokens(ps[1..]);
    }
  }

  /** Every referenced code is a whole token: a non-empty run of digit
      groups joined by single dots. */
  lemma FindCodesAreTokens(f: string)
    ensures forall t :: t in FindCodes(f) ==> CodeToken(t)
  {
    LexPieces(f, 0);
    CodesOfTokens(Lex(f, 0));
  }

  // ---------------------------------------------------------------------
  // Variable names

  function Mangle(t: string): (r: string)
    ensures |r| == |t|
    ensures forall k :: 0 <= k < |t| ==> r[k] == (if t[k] == '.' || t[k] == '-' then '_' else t[k])
  {
    if t == [] then [] else [if t[0] == '.' || t[0] == '-' then '_' else t[0]] + Mangle(t[1..])
  }

  /** `f"v_{ref_code.replace('.', '_').replace('-', '_')}"`. */
  function VarName(t: string): string
  {
    "v_" + Mangle(t)
  }

  /** Distinct code tokens get distinct variable names, so no value is
      overwritten by another code's value. */
  lemma VarNameInjective(a: string, b: string)
    requires CodeToken(a) && CodeToken(b)
    requires VarName(a) == VarName(b)
    ensures a == b
  {
    assert Mangle(a) == VarName(a)[2..] && Mangle(b) == VarName(b)[2..];
    assert |a| == |b|;
    forall k | 0 <= k < |a| ensures a[k] == b[k] {
      assert Mangle(a)[k] == Mangle(b)[k];
    }
  }

  // ---------------------------------------------------------------------
  // Whole-token replacement: `re.sub(r'\b' + re.escape(t) + r'\b', v, s)`

  predicate WordAt(s: string, p: int)
  {
    0 <= p < |s| && IsWordChar(s[p])
  }

  /** `\b` at position `p`: a word character on exactly one side. */
  predicate Boundary(s: string, p: int)
  {
    WordAt(s, p - 1) != WordAt(s, p)
  }

  /** The pattern `\b t \b` matches at `i`. */
  predicate MatchesAt(s: string, t: string, i: nat)
  {
    i + |t| <= |s| && s[i..i + |t|] == t && Boundary(s, i) && Boundary(s, i + |t|)
  }

  /** The replacement scan from position `i` of the original text:
      matches are replaced left to right and never overlap. */
  function SubFrom(s: string, t: string, v: string, i: nat): string
    requires |t| > 0 && i <= |s|
    decreases |s| - i
  {
    if i == |s| then []
    else if MatchesAt(s, t, i) then v + SubFrom(s, t, v, i + |t|)
    else [s[i]] + SubFrom(s, t, v, i + 1)
  }

  lemma {:induction false} SubFromNoMatch(s: string, t: string, v: string, i: nat)
    requires |t| > 0 && i <= |s|
    requires forall j :: i <= j < |s| ==> !MatchesAt(s, t, j)
    ensures SubFrom(s, t, v, i) == s[i..]
    decreases |s| - i
  {
    if i < |s| {
      SubFromNoMatch(s, t, v, i + 1);
      assert s[i..] == [s[i]] + s[i + 1..];
    }
  }

  /** Replace every whole-token occurrence of `t` in `s` by `v`. */
  function Substitute(s: string, t: string, v: string): (r: string)
    requires |t| > 0
    ensures (forall j :: 0 <= j < |s| ==> !MatchesAt(s, t, j)) ==> r == s
  {
    if forall j :: 0 <= j < |s| ==> !MatchesAt(s, t, j) then
      SubFromNoMatch(s, t, v, 0);
      SubFrom(s, t, v, 0)
    else
      SubFrom(s, t, v, 0)
  }

  /** Replacing each token of `ts` in turn, in the order given. */
  function SubstituteAll(f: string, ts: seq<string>): string
    requires forall t :: t in ts ==> |t| > 0
  {
    if ts == [] then f
    else
      var last := ts[|ts| - 1];
      Substitute(SubstituteAll(f, ts[..|ts| - 1]), last, VarName(last))
  }

  /** `referenced_codes.sort(key=lambda x: len(x[0]), reverse=True)`. */
  predicate LongerFirst(a: string, b: string)
  {
    |a| > |b|
  }

  lemma LongerFirstIsStrictWeakOrder()
    ensures StrictWeakOrder(LongerFirst)
  {
  }

  /** The referenced codes in replacement order: longest first, and codes of
      equal length in order of appearance. */
  function ReplacementOrder(f: string): (ts: seq<string>)
    ensures multiset(ts) == multiset(FindCodes(f))
    ensures forall t :: t in ts ==> CodeToken(t)
    ensures forall k :: 0 <= k < |ts| ==> |ts[k]| > 0
  {
    FindCodesAreTokens(f);
    var ts := SortBy(FindCodes(f), LongerFirst);
    assert forall t :: t in ts ==> t in multiset(FindCodes(f));
    assert forall k :: 0 <= k < |ts| ==> ts[k] in ts;
    ts
  }

  /** A longer token is always replaced before a shorter one. */
  lemma ReplacementOrderLongestFirst(f: string, i: nat, j: nat)
    requires i < j < |ReplacementOrder(f)|
    ensures |ReplacementOrder(f)[i]| >= |ReplacementOrder(f)[j]|
  {
    SortBySorted(FindCodes(f), LongerFirst);
  }

  /** The formula with every referenced code replaced by its variable. */
  function Substituted(f: string): string
  {
    var ts := ReplacementOrder(f);
    assert forall t :: t in ts ==> |t| > 0;
    SubstituteAll(f, ts)
  }

  // ---------------------------------------------------------------------
  // The closed grammar: tokens

  datatype Tok = TIdent(name: string) | TPlus | TMinus | TStar | TSlash | TLParen | TRParen

  predicate IsIdentStart(c: char)
  {
    IsLetter(c) || c == '_'
  }

  predicate IsBlank(c: char)
  {
    c == ' ' || c == '\t' || c == '\U{C}'
  }

  /** The end of the run of word characters starting at `i`. */
  function WordEnd(s: string, i: nat): (e: nat)
    requires i <= |s|
    ensures i <= e <= |s|
    ensures forall m :: i <= m < e ==> IsWordChar(s[m])
    ensures e < |s| ==> !IsWordChar(s[e])
    decreases |s| - i
  {
    if i < |s| && IsWordChar(s[i]) then WordEnd(s, i + 1) else i
  }

  function OpTok(c: char): Option<Tok>
  {
    if c == '+' then Some(TPlus)
    else if c == '-' then Some(TMinus)
    else if c == '*' then Some(TStar)
    else if c == '/' then Some(TSlash)
    else if c == '(' then Some(TLParen)
    else if c == ')' then Some(TRParen)
    else None
  }

  /** Tokens of `s[i..]`; any character outside the grammar (a digit that
      starts a number, a `.`, `%`, a quote, a newline, ...) is a syntax error. */
  function Tokenize(s: string, i: nat): (r: Result<seq<Tok>>)
    requires i <= |s|
    ensures r.Err? ==> r.error == SyntaxError
    decreases |s| - i
  {
    if i == |s| then Ok([])
    else if IsBlank(s[i]) then Tokenize(s, i + 1)
    else if IsIdentStart(s[i]) then
      var e := WordEnd(s, i + 1);
      match Tokenize(s, e)
      case Ok(ts) => Ok([TIdent(s[i..e])] + ts)
      case Err(x) => Err(x)
    else match OpTok(s[i])
      case None => Err(SyntaxError)
      case Some(tk) =>
        match Tokenize(s, i + 1)
        case Ok(ts) => Ok([tk] + ts)
        case Err(x) => Err(x)
  }

  /** A name the tokenizer reads back as one identifier. */
  ghost predicate ValidIdent(x: string)
  {
    |x| > 0 && IsIdentStart(x[0]) && forall k :: 0 <= k < |x| ==> IsWordChar(x[k])
  }

  function TokText(tk: Tok): string
  {
    match tk
    case TIdent(x) => x
    case TPlus => "+"
    case TMinus => "-"
    case TStar => "*"
    case TSlash => "/"
    case TLParen => "("
    case TRParen => ")"
  }

  /** Tokens written out, each followed by a blank. */
  function Unlex(ts: seq<Tok>): string
  {
    if ts == [] then [] else TokText(ts[0]) + " " + Unlex(ts[1..])
  }

  /** Tokenizing written-out tokens gives the tokens back. */
  lemma {:induction false} TokenizeUnlex(ts: seq<Tok>)
    requires forall tk :: tk in ts && tk.TIdent? ==> ValidIdent(tk.name)
    ensures Tokenize(Unlex(ts), 0) == Ok(ts)
  {
    if ts != [] {
      var w := TokText(ts[0]);
      var rest := Unlex(ts[1..]);
      var s := Unlex(ts);
      assert s == w + " " + rest;
      TokenizeUnlex(ts[1..]);
      TokenizeShift(w + " ", rest);
      if ts[0].TIdent? {
        assert forall m :: 1 <= m < |w| ==> s[m] == w[m];
        assert WordEnd(s, 1) == |w| by {
          WordEndAt(s, 1, |w|);
        }
        assert s[0..|w|] == w;
        assert s[|w|] == ' ';
        assert Tokenize(s, |w|) == Tokenize(s, |w| + 1);
        assert Tokenize(s, |w| + 1) == Ok(ts[1..]);
        assert Tokenize(s, 0) == Ok([TIdent(w)] + ts[1..]);
        assert [TIdent(w)] + ts[1..] == ts;
      } else {
        assert |w| == 1 && s[0] == w[0] && s[1] == ' ';
        assert OpTok(s[0]) == Some(ts[0]);
        assert Tokenize(s, 1) == Tokenize(s, 2);
        assert Tokenize(s, 0) == Ok([ts[0]] + ts[1..]);
        assert [ts[0]] + ts[1..] == ts;
      }
    }
  }

  lemma {:induction false} WordEndAt(s: string, i: nat, e: nat)
    requires i <= e <= |s|
    requires forall m :: i <= m < e ==> IsWordChar(s[m])
    requires e < |s| ==> !IsWordChar(s[e])
    ensures WordEnd(s, i) == e
    decreases e - i
  {
    if i < e {
      WordEndAt(s, i + 1, e);
    }
  }

  /** Tokenizing after a prefix that ends in a blank only depends on the rest. */
  lemma {:induction false} TokenizeShift(p: string, rest: string)
    requires |p| > 0 && IsBlank(p[|p| - 1])
    ensures Tokenize(p + rest, |p|) == Tokenize(rest, 0)
  {
    TokenizeShiftFrom(p, rest, 0);
  }

  lemma {:induction false} TokenizeShiftFrom(p: string, rest: string, i: nat)
    requires i <= |rest|
    ensures Tokenize(p + rest, |p| + i) == Tokenize(rest, i)
    decreases |rest| - i
  {
    var s := p + rest;
    if i < |rest| {
      assert s[|p| + i] == rest[i];
      if IsBlank(rest[i]) {
        TokenizeShiftFrom(p, rest, i + 1);
      } else if IsIdentStart(rest[i]) {
        var e := WordEnd(rest, i + 1);
        WordEndShift(p, rest, i + 1);
        TokenizeShiftFrom(p, rest, e);
        assert s[|p| + i..|p| + e] == rest[i..e];
      } else if OpTok(rest[i]).Some? {
        TokenizeShiftFrom(p, rest, i + 1);
      }
    }
  }

  lemma {:induction false} WordEndShift(p: string, rest: string, i: nat)
    requires i <= |rest|
    ensures WordEnd(p + rest, |p| + i) == |p| + WordEnd(rest, i)
    decreases |rest| - i
  {
    if i < |rest| {
      assert (p + rest)[|p| + i] == rest[i];
      if IsWordChar(rest[i]) {
        WordEndShift(p, rest, i + 1);
      }
    }
  }

  // ---------------------------------------------------------------------
  // The closed grammar: syntax and evaluation
  //   expr   := term (('+' | '-') term)*
  //   term   := factor (('*' | '/') factor)*
  //   factor := ('+' | '-') factor | atom
  //   atom   := identifier | '(' expr ')'

  datatype BinOp = Add | Sub | Mul | Div

  datatype Expr = Var(name: string) | Neg(e: Expr) | Pos(e: Expr) | Bin(op: BinOp, l: Expr, r: Expr)

  datatype Parsed = Parsed(e: Expr, rest: seq<Tok>)

  function ParseExpr(ts: seq<Tok>): (r: Result<Parsed>)
    ensures r.Ok? ==> |r.value.rest| < |ts|
    decreases |ts|, 4
  {
    match ParseTerm(ts)
    case Err(x) => Err(x)
    case Ok(p) => ParseExprTail(p.e, p.rest)
  }

  function ParseExprTail(lhs: Expr, ts: seq<Tok>): (r: Result<Parsed>)
    ensures r.Ok? ==> |r.value.rest| <= |ts|
    decreases |ts|, 5
  {
    if ts != [] && (ts[0] == TPlus || ts[0] == TMinus) then
      match ParseTerm(ts[1..])
      case Err(x) => Err(x)
      case Ok(p) => ParseExprTail(Bin(if ts[0] == TPlus then Add else Sub, lhs, p.e), p.rest)
    else Ok(Parsed(lhs, ts))
  }

  function ParseTerm(ts: seq<Tok>): (r: Result<Parsed>)
    ensures r.Ok? ==> |r.value.rest| < |ts|
    decreases |ts|, 2
  {
    match ParseFactor(ts)
    case Err(x) => Err(x)
    case Ok(p) => ParseTermTail(p.e, p.rest)
  }

  function ParseTermTail(lhs: Expr, ts: seq<Tok>): (r: Result<Parsed>)
    ensures r.Ok? ==> |r.value.rest| <= |ts|
    decreases |ts|, 3
  {
    if ts != [] && (ts[0] == TStar || ts[0] == TSlash) then
      match ParseFactor(ts[1..])
      case Err(x) => Err(x)
      case Ok(p) => ParseTermTail(Bin(if ts[0] == TStar then Mul else Div, lhs, p.e), p.rest)
    else Ok(Parsed(lhs, ts))
  }

  function ParseFactor(ts: seq<Tok>): (r: Result<Parsed>)
    ensures r.Ok? ==> |r.value.rest| < |ts|
    decreases |ts|, 1
  {
    if ts != [] && ts[0] == TMinus then
      match ParseFactor(ts[1..])
      case Err(x) => Err(x)
      case Ok(p) => Ok(Parsed(Neg(p.e), p.rest))
    else if ts != [] && ts[0] == TPlus then
      match ParseFactor(ts[1..])
      case Err(x) => Err(x)
      case Ok(p) => Ok(Parsed(Pos(p.e), p.rest))
    else ParseAtom(ts)
  }

  function ParseAtom(ts: seq<Tok>): (r: Result<Parsed>)
    ensures r.Ok? ==> |r.value.rest| < |ts|
    decreases |ts|, 0
  {
    if ts == [] then Err(SyntaxError)
    else match ts[0]
      case TIdent(x) => Ok(Parsed(Var(x), ts[1..]))
      case TLParen =>
        (match ParseExpr(ts[1..])
         case Err(x) => Err(x)
         case Ok(p) =>
           if p.rest != [] && p.rest[0] == TRParen then Ok(Parsed(p.e, p.rest[1..]))
           else Err(SyntaxError))
      case _ => Err(SyntaxError)
  }

  /** A whole token list is one expression. */
  function ParseAll(ts: seq<Tok>): Result<Expr>
  {
    match ParseExpr(ts)
    case Err(x) => Err(x)
    case Ok(p) => if p.rest == [] then Ok(p.e) else Err(SyntaxError)
  }

  function BinTok(op: BinOp): Tok
  {
    match op
    case Add => TPlus
    case Sub => TMinus
    case Mul => TStar
    case Div => TSlash
  }

  /** An expression written out with every operand in brackets. */
  function Print(e: Expr): seq<Tok>
  {
    match e
    case Var(x) => [TIdent(x)]
    case Neg(a) => [TMinus, TLParen] + Print(a) + [TRParen]
    case Pos(a) => [TPlus, TLParen] + Print(a) + [TRParen]
    case Bin(op, l, r) => [TLParen] + Print(l) + [TRParen, BinTok(op), TLParen] + Print(r) + [TRParen]
  }

  /** Nothing an expression could continue with. */
  predicate Stops(rest: seq<Tok>)
  {
    rest == [] || rest[0] == TRParen
  }

  lemma {:induction false} ParseParenPrint(e: Expr, rest: seq<Tok>)
    ensures ParseAtom([TLParen] + Print(e) + [TRParen] + rest) == Ok(Parsed(e, rest))
    decreases e, 2
  {
    var ts := [TLParen] + Print(e) + [TRParen] + rest;
    assert ts[1..] == Print(e) + ([TRParen] + rest);
    ParseExprPrint(e, [TRParen] + rest);
    assert ([TRParen] + rest)[1..] == rest;
  }

  /** Both operator loops stop in front of a token that cannot continue. */
  lemma TailsStop(e: Expr, rest: seq<Tok>)
    requires Stops(rest)
    ensures ParseTermTail(e, rest) == Ok(Parsed(e, rest))
    ensures ParseExprTail(e, rest) == Ok(Parsed(e, rest))
  {
  }

  /** The parser reads a printed expression back, whatever follows it that
      cannot continue an expression. */
  lemma {:induction false} ParseExprPrint(e: Expr, rest: seq<Tok>)
    requires Stops(rest)
    ensures ParseExpr(Print(e) + rest) == Ok(Parsed(e, rest))
    decreases e, 1
  {
    match e
    case Var(x) =>
      var ts := Print(e) + rest;
      assert ts == [TIdent(x)] + rest;
      assert ts[1..] == rest;
      assert ParseFactor(ts) == Ok(Parsed(e, rest));
      TailsStop(e, rest);
      assert ParseTerm(ts) == Ok(Parsed(e, rest));
    case Neg(a) => ParseUnaryPrint(e, rest);
    case Pos(a) => ParseUnaryPrint(e, rest);
    case Bin(op, l, r) => ParseBinPrint(e, rest);
  }

  lemma {:induction false} ParseUnaryPrint(e: Expr, rest: seq<Tok>)
    requires Stops(rest) && (e.Neg? || e.Pos?)
    ensures ParseExpr(Print(e) + rest) == Ok(Parsed(e, rest))
    decreases e, 0
  {
    var ts := Print(e) + rest;
    assert ts[1..] == [TLParen] + Print(e.e) + [TRParen] + rest;
    ParseParenPrint(e.e, rest);
    assert ParseFactor(ts[1..]) == Ok(Parsed(e.e, rest));
    assert ParseFactor(ts) == Ok(Parsed(e, rest));
    TailsStop(e, rest);
    assert ParseTerm(ts) == Ok(Parsed(e, rest));
  }

  lemma {:induction false} ParseBinPrint(e: Expr, rest: seq<Tok>)
    requires Stops(rest) && e.Bin?
    ensures ParseExpr(Print(e) + rest) == Ok(Parsed(e, rest))
    decreases e, 0
  {
    var ts := Print(e) + rest;
    var right := [TLParen] + Print(e.r) + [TRParen] + rest;
    var mid := [BinTok(e.op)] + right;
    assert ts == [TLParen] + Print(e.l) + [TRParen] + mid;
    ParseParenPrint(e.l, mid);
    ParseParenPrint(e.r, rest);
    assert ParseFactor(ts) == Ok(Parsed(e.l, mid));
    assert ParseFactor(right) == Ok(Parsed(e.r, rest));
    assert mid[1..] == right;
    TailsStop(e, rest);
    TailsStop(e.r, rest);
    if e.op == Mul || e.op == Div {
      assert ParseTermTail(e.l, mid) == Ok(Parsed(e, rest));
      assert ParseTerm(ts) == Ok(Parsed(e, rest));
    } else {
      assert ParseTermTail(e.l, mid) == Ok(Parsed(e.l, mid));
      assert ParseTerm(ts) == Ok(Parsed(e.l, mid));
      assert ParseTerm(right) == Ok(Parsed(e.r, rest));
    }
  }
  /** Round trip: parsing a printed expression gives the expression back. */
  lemma ParseAllPrint(e: Expr)
    ensures ParseAll(Print(e)) == Ok(e)
  {
    ParseExprPrint(e, []);
    assert Print(e) + [] == Print(e);
  }

  function Apply(op: BinOp, a: real, b: real): (r: Result<real>)
    ensures r.Err? <==> op == Div && b == 0.0
  {
    match op
    case Add => Ok(a + b)
    case Sub => Ok(a - b)
    case Mul => Ok(a * b)
    case Div => if b == 0.0 then Err(ZeroDivision) else Ok(a / b)
  }

  /** Evaluation over the variables `env`; an unknown name or a division by
      zero is an error. */
  function Eval(e: Expr, env: map<string, real>): Result<real>
  {
    match e
    case Var(x) => if x in env then Ok(env[x]) else Err(NameError)
    case Neg(a) => (match Eval(a, env) case Ok(v) => Ok(-v) case Err(x) => Err(x))
    case Pos(a) => Eval(a, env)
    case Bin(op, l, r) =>
      match Eval(l, env)
      case Err(x) => Err(x)
      case Ok(a) =>
        match Eval(r, env)
        case Err(x) => Err(x)
        case Ok(b) => Apply(op, a, b)
  }

  /** `eval(eval_formula, {}, local_vars)` restricted to the closed grammar. */
  function Evaluate(s: string, env: map<string, real>): Result<real>
  {
    match Tokenize(s, 0)
    case Err(x) => Err(x)
    case Ok(ts) =>
      match ParseAll(ts)
      case Err(x) => Err(x)
      case Ok(e) => Eval(e, env)
  }

  /** The value of a formula account: the formula with its codes replaced,
      evaluated over `env`; any failure gives 0. */
  function FormulaValue(f: string, env: map<string, real>): (v: real)
    ensures Evaluate(Substituted(f), env).Err? ==> v == 0.0
    ensures Evaluate(Substituted(f), env).Ok? ==> v == Evaluate(Substituted(f), env).value
  {
    match Evaluate(Substituted(f), env)
    case Ok(x) => x
    case Err(_) => 0.0
  }
}
