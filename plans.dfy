/** Reading one plan sheet into a plan: the data source named by each link
    column header, one account per row, the accounts in code order, the
    sorted intersection of the referenced data sources with the loaded
    ones, and the plan dictionary keyed by plan name. */
module Plans {
  import opened Basics
  import opened Text
  import opened Sorting
  import opened Labels
  import opened Model

  /** The name of a plan sheet: the text in its first bracket pair, or the
      stripped sheet name when there is none or it is empty. */
  function PlanName(sheet: string): (r: string)
    ensures NameInParentheses(Some(sheet)).Some? && NameInParentheses(Some(sheet)).value != "" ==>
      r == NameInParentheses(Some(sheet)).value
    ensures NameInParentheses(Some(sheet)).None? || NameInParentheses(Some(sheet)).value == "" ==>
      r == Strip(sheet)
  {
    match NameInParentheses(Some(sheet))
    case Some(n) => if n != "" then n else Strip(sheet)
    case None => Strip(sheet)
  }

  /** A plan name never starts or ends with whitespace. */
  lemma PlanNameStripped(sheet: string)
    ensures Strip(PlanName(sheet)) == PlanName(sheet)
  {
    var t := Some(sheet);
    if NameInParentheses(t).Some? && NameInParentheses(t).value != "" {
      var i, j :| PairAt(sheet, i, j) && NameInParentheses(t).value == Strip(sheet[i + 1..j]);
      StripIdempotent(sheet[i + 1..j]);
    } else {
      StripIdempotent(sheet);
    }
  }

  /** A row of a plan sheet as the spreadsheet reader yields it: the text of
      the code cell (rows without a code are dropped before this point), the
      description and type cells (`None` when empty) and one cell per link
      column. */
  datatype PlanRow = PlanRow(
    code: string,
    description: Option<string>,
    tipo: Option<string>,
    links: seq<Option<string>>)

  /** The data source a link column header names: the text in its first
      bracket pair, when there is one and it is not empty. */
  function LinkSource(header: Option<string>): (r: Option<string>)
    ensures r.Some? <==> NameInParentheses(header).Some? && NameInParentheses(header).value != ""
    ensures r.Some? ==> r == NameInParentheses(header)
  {
    match NameInParentheses(header)
    case Some(n) => if n != "" then Some(n) else None
    case None => None
  }

  /** The data source of each link column (`data_source_columns_map`),
      `None` for a column whose header names none. */
  function ColumnSources(headers: seq<Option<string>>): (srcs: seq<Option<string>>)
    ensures |srcs| == |headers|
  {
    if headers == [] then []
    else
      var n := |headers| - 1;
      ColumnSources(headers[..n]) + [LinkSource(headers[n])]
  }

  /** Column `j`'s data source is the one its header names. */
  lemma {:induction false} ColumnSourcesAt(headers: seq<Option<string>>, j: nat)
    requires j < |headers|
    ensures ColumnSources(headers)[j] == LinkSource(headers[j])
  {
    var n := |headers| - 1;
    if j < n {
      assert headers[..n][j] == headers[j];
      ColumnSourcesAt(headers[..n], j);
    }
  }

  /** `linked_data_sources_in_plan`: the sources named by the columns. */
  function ReferencedSources(srcs: seq<Option<string>>): set<string>
  {
    if srcs == [] then {}
    else
      var n := |srcs| - 1;
      ReferencedSources(srcs[..n]) + (if srcs[n].Some? then {srcs[n].value} else {})
  }

  /** A data source is referenced exactly when some column names it. */
  lemma {:induction false} ReferencedSourcesNamed(srcs: seq<Option<string>>)
    ensures forall ds :: ds in ReferencedSources(srcs) <==> Some(ds) in srcs
  {
    if srcs != [] {
      var n := |srcs| - 1;
      ReferencedSourcesNamed(srcs[..n]);
      assert srcs == srcs[..n] + [srcs[n]];
    }
  }

  /** The header loop: the data source of every link column, and the set
      of the data sources the plan references. */
  method ScanLinkColumns(headers: seq<Option<string>>) returns (srcs: seq<Option<string>>, referenced: set<string>)
    ensures srcs == ColumnSources(headers)
    ensures forall ds :: ds in referenced <==> Some(ds) in srcs
  {
    srcs := [];
    referenced := {};
    var i := 0;
    while i < |headers|
      invariant 0 <= i <= |headers|
      invariant srcs == ColumnSources(headers[..i])
      invariant referenced == ReferencedSources(srcs)
    {
      assert headers[..i + 1][..i] == headers[..i];
      var ds := LinkSource(headers[i]);
      if ds.Some? {
        referenced := referenced + {ds.value};
      }
      srcs := srcs + [ds];
      assert srcs[..i] == srcs[..|srcs| - 1];
      i := i + 1;
    }
    assert headers[..i] == headers;
    ReferencedSourcesNamed(srcs);
  }

  /** `data_sources_map` of one row: for each named link column in order, a
      non-empty cell is stored stripped under the column's data source, so a
      later column naming the same source replaces an earlier one. */
  function LinkMapOf(srcs: seq<Option<string>>, cells: seq<Option<string>>): map<string, string>
    requires |cells| == |srcs|
  {
    if srcs == [] then map[]
    else
      var n := |srcs| - 1;
      var m := LinkMapOf(srcs[..n], cells[..n]);
      if srcs[n].Some? && cells[n].Some? then m[srcs[n].value := Strip(cells[n].value)] else m
  }

  /** Column `j` names data source `ds` and holds a cell. */
  ghost predicate Fills(srcs: seq<Option<string>>, cells: seq<Option<string>>, j: int, ds: string)
  {
    0 <= j < |srcs| && j < |cells| && srcs[j] == Some(ds) && cells[j].Some?
  }

  /** A row links to a data source exactly when a column naming it holds a
      cell. */
  lemma {:induction false} LinkMapOfKeys(srcs: seq<Option<string>>, cells: seq<Option<string>>, ds: string)
    requires |cells| == |srcs|
    ensures ds in LinkMapOf(srcs, cells) <==> exists j :: Fills(srcs, cells, j, ds)
  {
    if srcs != [] {
      var n := |srcs| - 1;
      var s', c' := srcs[..n], cells[..n];
      LinkMapOfKeys(s', c', ds);
      if j :| Fills(s', c', j, ds) {
        assert s'[j] == srcs[j] && c'[j] == cells[j];
        assert Fills(srcs, cells, j, ds);
      }
      if j :| Fills(srcs, cells, j, ds) && j < n {
        assert s'[j] == srcs[j] && c'[j] == cells[j];
        assert Fills(s', c', j, ds);
      }
      if srcs[n] == Some(ds) && cells[n].Some? {
        assert Fills(srcs, cells, n, ds);
      }
    }
  }

  /** The link stored for a data source is the stripped text of the last
      column naming it that holds a cell. */
  lemma {:induction false} LinkMapOfLastColumn(srcs: seq<Option<string>>, cells: seq<Option<string>>, ds: string, j: nat)
    requires |cells| == |srcs|
    requires Fills(srcs, cells, j, ds)
    requires forall j' :: j < j' < |srcs| ==> !Fills(srcs, cells, j', ds)
    ensures ds in LinkMapOf(srcs, cells) && LinkMapOf(srcs, cells)[ds] == Strip(cells[j].value)
  {
    var n := |srcs| - 1;
    if j < n {
      var s', c' := srcs[..n], cells[..n];
      assert !Fills(srcs, cells, n, ds);
      assert s'[j] == srcs[j] && c'[j] == cells[j];
      forall j' | j < j' < n ensures !Fills(s', c', j', ds) {
        assert !Fills(srcs, cells, j', ds);
        assert s'[j'] == srcs[j'] && c'[j'] == cells[j'];
      }
      LinkMapOfLastColumn(s', c', ds, j);
    }
  }

  /** The link loop of one row. */
  method BuildLinkMap(srcs: seq<Option<string>>, cells: seq<Option<string>>) returns (m: map<string, string>)
    requires |cells| == |srcs|
    ensures m == LinkMapOf(srcs, cells)
  {
    m := map[];
    var i := 0;
    while i < |srcs|
      invariant 0 <= i <= |srcs|
      invariant m == LinkMapOf(srcs[..i], cells[..i])
    {
      assert srcs[..i + 1][..i] == srcs[..i] && cells[..i + 1][..i] == cells[..i];
      if srcs[i].Some? && cells[i].Some? {
        m := m[srcs[i].value := Strip(cells[i].value)];
      }
      i := i + 1;
    }
    assert srcs[..i] == srcs && cells[..i] == cells;
  }

  /** The type label as the spreadsheet holds it, stripped, or `None` when
      the cell is empty. */
  function TypeText(tipo: Option<string>): Option<string>
  {
    match tipo
    case Some(t) => Some(Strip(t))
    case None => None
  }

  /** The formula a stripped type label carries (`extracted_formula`). */
  function FormulaOfType(t: Option<string>): Option<string>
  {
    if t.Some? && t.value != "" && StartsWith(Lower(t.value), "calculo") then FormulaOfLabel(t.value) else None
  }

  /** The type an account is stored with: the stripped label, or
      `sintetica` when the cell is empty or missing. */
  function TypeOrDefault(t: Option<string>): (r: string)
    ensures r != ""
  {
    if t.Some? && t.value != "" then t.value else "sintetica"
  }

  /** The account a plan row gives: code, description and type stripped, an
      empty or missing type stored as `sintetica`, a formula only for a
      type whose lower case starts with `calculo`, and the row's link map. */
  function AccountOf(row: PlanRow, srcs: seq<Option<string>>): (a: Account)
    requires |row.links| == |srcs|
    ensures a.tipo != ""
  {
    Account(
      Strip(row.code),
      TypeText(row.description),
      TypeOrDefault(TypeText(row.tipo)),
      FormulaOfType(TypeText(row.tipo)),
      LinkMapOf(srcs, row.links))
  }

  /** Only an empty or missing type cell is stored as `sintetica`; any
      other type is stored as the stripped cell text. */
  lemma StoredType(row: PlanRow, srcs: seq<Option<string>>)
    requires |row.links| == |srcs|
    ensures AccountOf(row, srcs).tipo == "sintetica" <==>
      TypeText(row.tipo).None? || TypeText(row.tipo).value == "" || TypeText(row.tipo).value == "sintetica"
    ensures AccountOf(row, srcs).tipo != "sintetica" ==> AccountOf(row, srcs).tipo == TypeText(row.tipo).value
  {
  }

  /** A formula is extracted exactly for a stored type whose lower case
      starts with `calculo` and that holds a `calculo(...)` match; it is
      the text of that match and never holds `)`. */
  lemma FormulaOnlyForCalculo(t: Option<string>)
    ensures FormulaOfType(t).Some? <==>
      StartsWith(Lower(TypeOrDefault(t)), "calculo") && FormulaOfLabel(TypeOrDefault(t)).Some?
    ensures FormulaOfType(t).Some? ==>
      FormulaOfType(t) == FormulaOfLabel(TypeOrDefault(t)) && ')' !in FormulaOfType(t).value
  {
    assert !StartsWith(Lower("sintetica"), "calculo") by {
      assert Lower("sintetica")[0] == 's';
    }
    if FormulaOfType(t).Some? {
      FormulaIsTruncatedAtFirstClose(t.value);
    }
  }

  /** The body of the row loop: one account from one row. */
  method MakeAccount(row: PlanRow, srcs: seq<Option<string>>) returns (a: Account)
    requires |row.links| == |srcs|
    ensures a == AccountOf(row, srcs)
  {
    var links := BuildLinkMap(srcs, row.links);
    var t := TypeText(row.tipo);
    var formula: Option<string> := None;
    if t.Some? && t.value != "" && StartsWith(Lower(t.value), "calculo") {
      formula := FormulaOfLabel(t.value);
    }
    var tipo := if t.Some? && t.value != "" then t.value else "sintetica";
    a := Account(Strip(row.code), TypeText(row.description), tipo, formula, links);
  }

  /** `accounts_list.sort(key=lambda x: x['codigo'])`. */
  predicate CodeBefore(a: Account, b: Account)
  {
    StrLess(a.code, b.code)
  }

  lemma CodeBeforeIsStrictWeakOrder()
    ensures StrictWeakOrder(CodeBefore)
  {
    forall a: Account ensures !CodeBefore(a, a) {
      StrLessIrreflexive(a.code);
    }
    forall a: Account, b: Account, c: Account | CodeBefore(a, b) && CodeBefore(b, c) ensures CodeBefore(a, c) {
      StrLessTransitive(a.code, b.code, c.code);
    }
    forall a: Account, b: Account, c: Account | !CodeBefore(a, b) && !CodeBefore(b, c) ensures !CodeBefore(a, c) {
      if a.code == b.code {
      } else if b.code == c.code {
      } else {
        StrLessTotal(a.code, b.code);
        StrLessTotal(b.code, c.code);
        StrLessTransitive(c.code, b.code, a.code);
        StrLessAsymmetric(a.code, c.code);
      }
    }
  }

  /** The accounts of the rows, in row order. */
  function AccountsOf(rows: seq<PlanRow>, srcs: seq<Option<string>>): (accs: seq<Account>)
    requires forall k :: 0 <= k < |rows| ==> |rows[k].links| == |srcs|
    ensures |accs| == |rows|
  {
    if rows == [] then []
    else
      var n := |rows| - 1;
      PrefixIndex(rows, n);
      AccountsOf(rows[..n], srcs) + [AccountOf(rows[n], srcs)]
  }

  /** One account per row, each the account of its row. */
  lemma {:induction false} AccountsOfRows(rows: seq<PlanRow>, srcs: seq<Option<string>>, k: nat)
    requires forall k :: 0 <= k < |rows| ==> |rows[k].links| == |srcs|
    requires k < |rows|
    ensures AccountsOf(rows, srcs)[k] == AccountOf(rows[k], srcs)
  {
    var n := |rows| - 1;
    PrefixIndex(rows, n);
    if k < n {
      AccountsOfRows(rows[..n], srcs, k);
      AppendIndex(AccountsOf(rows[..n], srcs), [AccountOf(rows[n], srcs)]);
    }
  }

  /** Sorting the accounts puts them in code order, keeps every account, and
      keeps accounts with the same code in row order (so the code index, in
      which the last one wins, picks the last such row). */
  lemma PlanAccountOrder(accs: seq<Account>, code: string)
    ensures Sorted(SortBy(accs, CodeBefore), CodeBefore)
    ensures multiset(SortBy(accs, CodeBefore)) == multiset(accs)
    ensures Filter(SortBy(accs, CodeBefore), (a: Account) => a.code == code) == Filter(accs, (a: Account) => a.code == code)
  {
    CodeBeforeIsStrictWeakOrder();
    SortBySorted(accs, CodeBefore);
    forall a: Account, b: Account | a.code == code && b.code == code ensures !CodeBefore(a, b) {
      StrLessIrreflexive(code);
    }
    SortByStable(accs, CodeBefore, (a: Account) => a.code == code);
  }

  /** Strictly increasing in code-point order: sorted and free of repeats. */
  ghost predicate StrictlySorted(s: seq<string>)
  {
    forall i, j :: 0 <= i < j < |s| ==> StrLess(s[i], s[j])
  }

  /** Puts `x` into a strictly sorted list that does not hold it. */
  function InsertName(x: string, s: seq<string>): (r: seq<string>)
    requires StrictlySorted(s) && x !in s
    ensures StrictlySorted(r)
    ensures forall n :: n in r <==> n == x || n in s
  {
    if s == [] then [x]
    else
      StrLessTotal(x, s[0]);
      if StrLess(x, s[0]) then
        forall j | 0 < j < |s| ensures StrLess(x, s[j]) {
          StrLessTransitive(x, s[0], s[j]);
        }
        [x] + s
      else
        assert StrictlySorted(s[1..]) by {
          forall i, j | 0 <= i < j < |s[1..]| ensures StrLess(s[1..][i], s[1..][j]) {
            assert s[1..][i] == s[i + 1] && s[1..][j] == s[j + 1];
          }
        }
        var t := InsertName(x, s[1..]);
        assert s == [s[0]] + s[1..];
        forall j | 0 <= j < |t| ensures StrLess(s[0], t[j]) {
          assert t[j] in t;
          if t[j] != x {
            var k :| 0 <= k < |s[1..]| && s[1..][k] == t[j];
            assert s[k + 1] == t[j];
          }
        }
        [s[0]] + t
  }

  /** `sorted(list(names))`. */
  method SortedNames(names: set<string>) returns (r: seq<string>)
    ensures StrictlySorted(r)
    ensures forall n :: n in r <==> n in names
  {
    r := [];
    var rest := names;
    while rest != {}
      invariant rest <= names
      invariant StrictlySorted(r)
      invariant forall n :: n in r <==> n in names && n !in rest
      decreases |rest|
    {
      var x :| x in rest;
      r := InsertName(x, r);
      rest := rest - {x};
    }
  }

  /** The head of a strictly sorted list is below everything after it. */
  lemma SortedTail(s: seq<string>)
    requires StrictlySorted(s) && s != []
    ensures StrictlySorted(s[1..])
    ensures forall n :: n in s[1..] ==> StrLess(s[0], n)
    ensures forall n :: n in s <==> n == s[0] || n in s[1..]
    ensures s[0] !in s[1..]
  {
    forall i, j | 0 <= i < j < |s| - 1 ensures StrLess(s[1..][i], s[1..][j]) {
      assert s[1..][i] == s[i + 1] && s[1..][j] == s[j + 1];
    }
    forall n | n in s[1..] ensures StrLess(s[0], n) {
      var k :| 0 <= k < |s| - 1 && s[1..][k] == n;
      assert s[k + 1] == n;
    }
    assert s == [s[0]] + s[1..];
    StrLessIrreflexive(s[0]);
  }

  /** Only one list is strictly sorted and holds exactly given names, so
      the linked data sources of a plan are determined by the two sets. */
  lemma {:induction false} StrictlySortedUnique(a: seq<string>, b: seq<string>)
    requires StrictlySorted(a) && StrictlySorted(b)
    requires forall n :: n in a <==> n in b
    ensures a == b
  {
    assert a != [] ==> a[0] in b;
    assert b != [] ==> b[0] in a;
    if a != [] && b != [] {
      SortedTail(a);
      SortedTail(b);
      StrLessAsymmetric(a[0], b[0]);
      assert a[0] == b[0];
      assert forall n :: n in a[1..] <==> n in b[1..];
      StrictlySortedUnique(a[1..], b[1..]);
      assert a == [a[0]] + a[1..] && b == [b[0]] + b[1..];
    }
  }

  /** Sorting the already sorted linked list again, as the view loop does,
      changes nothing. */
  lemma ResortLinked(s: seq<string>)
    requires StrictlySorted(s)
    ensures SortBy(s, StrLess) == s
  {
    forall i, j | 0 <= i < j < |s| ensures !StrLess(s[j], s[i]) {
      StrLessAsymmetric(s[i], s[j]);
    }
    SortBySortedIsIdentity(s, StrLess);
  }

  /** The plan-sheet body: builds the accounts of the rows, sorts them by
      code, and keeps the plan only when it has accounts, linked to the
      loaded data sources it references. */
  method ReadPlan(name: string, headers: seq<Option<string>>, rows: seq<PlanRow>, loaded: set<string>)
    returns (p: Option<Plan>)
    requires forall k :: 0 <= k < |rows| ==> |rows[k].links| == |headers|
    ensures p.None? <==> rows == []
    ensures p.Some? ==> p.value.name == name
    ensures p.Some? ==> p.value.accounts == SortBy(AccountsOf(rows, ColumnSources(headers)), CodeBefore)
    ensures p.Some? ==> StrictlySorted(p.value.linked)
    ensures p.Some? ==> forall n :: n in p.value.linked <==> n in loaded && Some(n) in ColumnSources(headers)
  {
    var srcs, referenced := ScanLinkColumns(headers);
    var accounts: seq<Account> := [];
    var i := 0;
    while i < |rows|
      invariant 0 <= i <= |rows|
      invariant accounts == AccountsOf(rows[..i], srcs)
    {
      assert rows[..i + 1][..i] == rows[..i];
      var a := MakeAccount(rows[i], srcs);
      accounts := accounts + [a];
      i := i + 1;
    }
    assert rows[..i] == rows;
    accounts := SortBy(accounts, CodeBefore);
    if |accounts| > 0 {
      var linked := SortedNames(referenced * loaded);
      p := Some(Plan(name, accounts, linked));
    } else {
      p := None;
    }
  }

  /** No plan of the list has the name. */
  predicate NoneNamed(plans: seq<Plan>, name: string)
  {
    forall k :: 0 <= k < |plans| ==> plans[k].name != name
  }

  /** The plan at `i` is the first one with the name. */
  predicate FirstNamed(plans: seq<Plan>, name: string, i: int)
  {
    0 <= i < |plans| && plans[i].name == name && forall k :: 0 <= k < i ==> plans[k].name != name
  }

  /** `all_plans[plan_name] = ...`: a plan whose name is already present
      replaces that entry in its place; a new name goes at the end. */
  function StorePlan(plans: seq<Plan>, p: Plan): (r: seq<Plan>)
    ensures NoneNamed(plans, p.name) ==> r == plans + [p]
    ensures forall i :: FirstNamed(plans, p.name, i) ==> r == plans[i := p]
  {
    if plans == [] then [p]
    else if plans[0].name == p.name then
      assert [p] + plans[1..] == plans[0 := p];
      [p] + plans[1..]
    else
      var t := StorePlan(plans[1..], p);
      StoreBehind(plans, p, t);
      [plans[0]] + t
  }

  /** Storing behind a first plan of another name. */
  lemma StoreBehind(plans: seq<Plan>, p: Plan, t: seq<Plan>)
    requires plans != [] && plans[0].name != p.name
    requires NoneNamed(plans[1..], p.name) ==> t == plans[1..] + [p]
    requires forall i :: FirstNamed(plans[1..], p.name, i) ==> t == plans[1..][i := p]
    ensures NoneNamed(plans, p.name) ==> [plans[0]] + t == plans + [p]
    ensures forall i :: FirstNamed(plans, p.name, i) ==> [plans[0]] + t == plans[i := p]
  {
    var rest := plans[1..];
    assert forall k :: 0 <= k < |rest| ==> rest[k] == plans[k + 1];
    if NoneNamed(plans, p.name) {
      assert NoneNamed(rest, p.name);
      assert plans == [plans[0]] + rest;
    }
    forall i | FirstNamed(plans, p.name, i) ensures [plans[0]] + t == plans[i := p] {
      assert FirstNamed(rest, p.name, i - 1);
      assert t == rest[i - 1 := p];
      assert forall k :: 0 <= k < |plans| ==> ([plans[0]] + t)[k] == plans[i := p][k];
    }
  }

  ghost predicate DistinctNames(plans: seq<Plan>)
  {
    forall i, j :: 0 <= i < j < |plans| ==> plans[i].name != plans[j].name
  }

  /** The dictionary holds one plan per name: storing keeps names distinct,
      and the stored plan is found under its name. */
  lemma StorePlanDistinct(plans: seq<Plan>, p: Plan)
    requires DistinctNames(plans)
    ensures DistinctNames(StorePlan(plans, p))
    ensures p in StorePlan(plans, p)
  {
    if i :| 0 <= i < |plans| && plans[i].name == p.name {
      assert FirstNamed(plans, p.name, i);
      assert StorePlan(plans, p) == plans[i := p];
    } else {
      assert StorePlan(plans, p) == plans + [p];
    }
  }
}
