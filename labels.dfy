/** Text extracted from sheet names, column headers and type labels by the
    two lazy regular expressions of the source: `\((.*?)\)` and
    `calculo\s*\((.*?)\)` (case-insensitive). `.` does not match a newline,
    so a bracket pair only counts when no newline sits inside it. */
module Labels {
  import opened Basics
  import opened Text

  /** `s[i]` is an opening bracket and `s[j]` the first `)` after it, with
      no newline in between: `\((.*?)\)` matches `s[i..j + 1]`. */
  ghost predicate PairAt(s: string, i: int, j: int)
  {
    && 0 <= i < j < |s|
    && s[i] == '(' && s[j] == ')'
    && forall m :: i < m < j ==> s[m] != ')' && s[m] != '\n'
  }

  /** The first `)` at or after `k`, provided no newline comes first. */
  function CloseFrom(s: string, k: nat): (r: Option<nat>)
    requires k <= |s|
    ensures r.Some? ==> k <= r.value < |s| && s[r.value] == ')'
    ensures r.Some? ==> forall m :: k <= m < r.value ==> s[m] != ')' && s[m] != '\n'
    ensures r.None? ==> forall j :: k <= j < |s| && s[j] == ')' ==> exists m :: k <= m < j && s[m] == '\n'
    decreases |s| - k
  {
    if k == |s| then None
    else if s[k] == ')' then Some(k)
    else if s[k] == '\n' then None
    else CloseFrom(s, k + 1)
  }

  /** Leftmost match of `\((.*?)\)` starting at or after `i`. */
  function FindPair(s: string, i: nat): (r: Option<(nat, nat)>)
    requires i <= |s|
    ensures r.Some? ==> i <= r.value.0 && PairAt(s, r.value.0, r.value.1)
    ensures r.Some? ==> forall i', j' :: i <= i' < r.value.0 ==> !PairAt(s, i', j')
    ensures r.None? ==> forall i', j' :: i <= i' ==> !PairAt(s, i', j')
    decreases |s| - i
  {
    if i == |s| then None
    else if s[i] == '(' && CloseFrom(s, i + 1).Some? then Some((i, CloseFrom(s, i + 1).value))
    else
      assert forall j' :: !PairAt(s, i, j');
      FindPair(s, i + 1)
  }

  /** `get_name_in_parentheses`: the stripped text inside the first bracket
      pair, or nothing when the value is not text or holds no pair. `None`
      as input stands for any non-text value. */
  function NameInParentheses(text: Option<string>): (r: Option<string>)
    ensures r.Some? <==> text.Some? && exists i, j :: PairAt(text.value, i, j)
    ensures r.Some? ==> exists i, j ::
      && PairAt(text.value, i, j)
      && r.value == Strip(text.value[i + 1..j])
      && forall i', j' :: PairAt(text.value, i', j') ==> i <= i'
  {
    match text
    case None => None
    case Some(s) =>
      match FindPair(s, 0)
      case None => None
      case Some((i, j)) =>
        assert forall i', j' :: PairAt(s, i', j') ==> i <= i';
        Some(Strip(s[i + 1..j]))
  }

  /** What a bracket extraction returns never holds a closing bracket or a
      newline: an inner `(` is kept but the text stops at the first `)`. */
  lemma NameHasNoClosingBracket(text: Option<string>)
    requires NameInParentheses(text).Some?
    ensures ')' !in NameInParentheses(text).value
    ensures '\n' !in NameInParentheses(text).value
  {
    var s := text.value;
    var i, j :| PairAt(s, i, j) && NameInParentheses(text).value == Strip(s[i + 1..j]);
    assert ')' !in s[i + 1..j] && '\n' !in s[i + 1..j];
    StripSubset(s[i + 1..j]);
  }

  const CalculoWord := "calculo"

  /** `calculo\s*\((.*?)\)` with IGNORECASE matches at `i`: the word at `i`,
      whitespace up to the bracket at `k`, and the first `)` at `j`. */
  ghost predicate CalculoAt(s: string, i: int, k: int, j: int)
  {
    && 0 <= i && i + |CalculoWord| <= k < j < |s|
    && Lower(s[i..i + |CalculoWord|]) == CalculoWord
    && (forall m :: i + |CalculoWord| <= m < k ==> IsSpace(s[m]))
    && s[k] == '('
    && s[j] == ')'
    && forall m :: k < m < j ==> s[m] != ')' && s[m] != '\n'
  }

  /** The bracket and closing position of a match at exactly `i`, if any. */
  function CalculoMatch(s: string, i: nat): (r: Option<(nat, nat)>)
    ensures r.Some? ==> CalculoAt(s, i, r.value.0, r.value.1)
    ensures r.None? ==> forall k, j :: !CalculoAt(s, i, k, j)
  {
    if i + |CalculoWord| <= |s| && Lower(s[i..i + |CalculoWord|]) == CalculoWord then
      var k := SkipSpaces(s, i + |CalculoWord|);
      if k < |s| && s[k] == '(' then
        match CloseFrom(s, k + 1)
        case Some(j) => Some((k, j))
        case None =>
          assert forall k', j :: !CalculoAt(s, i, k', j);
          None
      else
        assert forall k', j :: !CalculoAt(s, i, k', j);
        None
    else None
  }

  /** Leftmost match of the `calculo(...)` pattern at or after `i`. */
  function FindCalculo(s: string, i: nat): (r: Option<(nat, nat, nat)>)
    requires i <= |s|
    ensures r.Some? ==> i <= r.value.0 && CalculoAt(s, r.value.0, r.value.1, r.value.2)
    ensures r.Some? ==> forall i', k, j :: i <= i' < r.value.0 ==> !CalculoAt(s, i', k, j)
    ensures r.None? ==> forall i', k, j :: i <= i' ==> !CalculoAt(s, i', k, j)
    decreases |s| - i
  {
    if i == |s| then None
    else match CalculoMatch(s, i)
      case Some((k, j)) => Some((i, k, j))
      case None => FindCalculo(s, i + 1)
  }

  /** The formula of a type label (`match_formula_in_type.group(1).strip()`):
      the stripped text inside the brackets of the leftmost `calculo(...)`. */
  function FormulaOfLabel(s: string): (r: Option<string>)
    ensures r.Some? <==> exists i, k, j :: CalculoAt(s, i, k, j)
    ensures r.Some? ==> exists i, k, j ::
      && CalculoAt(s, i, k, j)
      && r.value == Strip(s[k + 1..j])
      && forall i', k', j' :: CalculoAt(s, i', k', j') ==> i <= i'
  {
    match FindCalculo(s, 0)
    case None => None
    case Some((i, k, j)) =>
      assert forall i', k', j' :: CalculoAt(s, i', k', j') ==> i <= i';
      Some(Strip(s[k + 1..j]))
  }

  /** A formula never holds `)`: `calculo((1+2)*3)` yields `(1+2`. */
  lemma FormulaIsTruncatedAtFirstClose(s: string)
    requires FormulaOfLabel(s).Some?
    ensures ')' !in FormulaOfLabel(s).value
  {
    var i, k, j :| CalculoAt(s, i, k, j) && FormulaOfLabel(s).value == Strip(s[k + 1..j]);
    assert ')' !in s[k + 1..j];
    StripSubset(s[k + 1..j]);
  }
}
