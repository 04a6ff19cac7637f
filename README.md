# Account-resolution engine of `processar_dados.py`

This project models, in Dafny, the calculation core of `processar_dados.py`.
The program reads charts of accounts ("plans") and raw data sheets ("data
sources") from a spreadsheet and turns them into calculated views: for each
plan and each data source it links to, the value of every account for every
period of that data source.

The model covers:

- **Labels.** The bracket extraction `get_name_in_parentheses` and the
  `calculo(...)` formula extraction from a type label (module `Labels`, over
  the string helpers of `Text`).
- **Plans.** Reading a plan sheet into a plan (module `Plans`):
  - the plan name;
  - the data source named by each link column;
  - one account per row: the type stored as is, an empty type defaulted to
    `sintetica`, the formula, the link map;
  - the code-ordered account list;
  - the sorted intersection of referenced and loaded data sources;
  - the plan dictionary.
- **Hierarchy.** `get_parent_code` and `build_account_hierarchy` (module
  `Hierarchy`): the code index, the ordered direct children and the levels.
- **Values.** `safe_float_conversion` (module `Model`, over a `Cell`
  datatype for raw values).
- **Resolution.** `get_calculated_value` (module `Resolver`):
  - A recursive definition `Value` dispatches on the lower-cased type label:
    `analitica` sums the linked raw codes; `sintetica` sums the direct
    children; `calculo...` with a formula evaluates the formula; anything
    else, or an unknown code, is 0.
  - The memoised procedure `Engine.GetCalculatedValue` works over the pass's
    cache (a map field keyed by code, period and data-source name).
  - It is proved to return `Value` and to keep only values `Value` gives in
    its cache.
- **Formulas.** Formula evaluation (modules `Formula`, `PlainFormula`,
  `NumberCodes`):
  - `re.findall(r'(\d+(\.\d+)*)')` as a lexer;
  - the `v_` renaming;
  - the longest-first, whole-token (`\b`) replacement loop;
  - a closed-grammar tokenizer, parser and evaluator (identifiers, `+ - * /`,
    unary `+`/`-`, parentheses) standing for `eval`. Any error gives 0.
- **Views.** The view-building loop (module `Views`):
  - the cache is cleared per (plan, data source) pair;
  - every account is resolved for every period and gets its `nivel`;
  - its links are dropped;
  - all-zero `analitica`/`sintetica` accounts are suppressed;
  - views are emitted in plan order, then in sorted data-source order.

Termination of the recursive resolution is not guaranteed by the program: a
formula may reference any code, so cycles are possible. `Ranked(h, rank)`
states the plan is acyclic: a ranking of the codes in which every account
ranks above the accounts its value is computed from. Every resolution
member requires it. `Resolver.ValueRankIndependent` proves that the values
do not depend on which ranking is chosen.

Numbers in formulas are account codes. Every digit-and-dot run a formula
holds is looked up as a code (processar_dados.py:149, :157), and a code the
plan lacks is 0 (:93-97). So for the formula `1 + 100`, with no account
`100`, the value is the value of account `1`; it is not that value plus the
number 100. `NumberCodes.OneHundredIsACode` proves it.

## Model

| member | source | states |
|---|---|---|
| Text.SkipSpaces | processar_dados.py:356 | the `\s*` of the `calculo` pattern: the end of the whitespace run, with every skipped character whitespace and the next one not |
| Text.LeadingSpaces | processar_dados.py:14 | `lstrip` removes exactly the leading whitespace run, and the first kept character is not whitespace |
| Text.KeptEnd | processar_dados.py:14 | `rstrip` keeps a prefix, and everything after it is whitespace |
| Text.StripSlice | processar_dados.py:14 | `strip()` keeps one contiguous slice and removes only whitespace on either side |
| Text.StripEnds | processar_dados.py:14 | a stripped text is empty or starts and ends with a non-space |
| Text.StripSubset | processar_dados.py:14 | stripping adds no character |
| Text.StripIdempotent | processar_dados.py:14 | stripping twice is stripping once |
| Text.Lower | processar_dados.py:101 | `lower()` keeps the length and lower-cases each character (ASCII) |
| Text.Count | processar_dados.py:63 | `count('.')` is at most the length and 0 exactly when the character is absent |
| Text.CountAppend | processar_dados.py:63 | counting distributes over concatenation |
| Text.IndexOf | processar_dados.py:107 | the index of the first occurrence of the separator |
| Text.LastIndexOf | processar_dados.py:35-37 | the index of the last occurrence, after which the character no longer occurs |
| Text.Split | processar_dados.py:35 | `split(d)` gives one piece more than there are separators, no piece holds `d`, and joining gives back the text |
| Text.StrLessIrreflexive | processar_dados.py:384 | the code-point order used by `sort`/`sorted` is irreflexive |
| Text.StrLessAsymmetric | processar_dados.py:384 | the order is asymmetric |
| Text.StrLessTransitive | processar_dados.py:384 | the order is transitive |
| Text.StrLessTotal | processar_dados.py:384 | distinct strings are comparable |
| Sorting.Insert | processar_dados.py:165 | inserting one element adds it and nothing else (multiset) |
| Sorting.SortBy | processar_dados.py:165 | Python's stable sort keeps the multiset of elements |
| Sorting.SortBySorted | processar_dados.py:165 | for a strict weak order the result is sorted and a permutation |
| Sorting.SortByStable | processar_dados.py:165 | elements the order cannot tell apart keep their relative order |
| Sorting.SortBySortedIsIdentity | processar_dados.py:421 | sorting an already sorted list changes nothing |
| Sorting.Filter | processar_dados.py:107 | filtering keeps exactly the elements satisfying the predicate |
| Labels.CloseFrom | processar_dados.py:12 | the lazy `.*?\)`: the first `)` with no newline before it, or none exactly when every `)` is preceded by a newline |
| Labels.FindPair | processar_dados.py:12 | `re.search(r'\((.*?)\)')`: the leftmost bracket pair, with no pair starting earlier, or none when no pair exists |
| Labels.NameInParentheses | processar_dados.py:9-15 | a name exactly when the value is text holding a bracket pair; it is the stripped inside of the leftmost pair |
| Labels.NameHasNoClosingBracket | processar_dados.py:12-14 | an extracted name never holds `)` or a newline |
| Labels.CalculoMatch | processar_dados.py:356 | the case-insensitive `calculo\s*\(...\)` match at one position, or none exactly when none matches there |
| Labels.FindCalculo | processar_dados.py:356 | the leftmost `calculo(...)` match, or none when there is none |
| Labels.FormulaOfLabel | processar_dados.py:356-358 | a formula exactly when the label matches; it is the stripped bracket text of the leftmost match |
| Labels.FormulaIsTruncatedAtFirstClose | processar_dados.py:356-358 | the formula stops at the first `)`, so a nested formula is truncated |
| Hierarchy.ParentCode | processar_dados.py:32-38 | a parent exactly when the code holds `.`; it is the code before its last `.` |
| Hierarchy.ParentOfChild | processar_dados.py:32-38 | `p.seg`, with `seg` dot-free, has parent `p` |
| Hierarchy.ParentIsShorter | processar_dados.py:32-38 | a parent code is shorter than its child |
| Hierarchy.Level | processar_dados.py:63 | the level is at least 1, and 1 exactly for a dot-free code |
| Hierarchy.LevelOfChild | processar_dados.py:32-63 | a child is one level below its parent |
| Hierarchy.ByCodeKeys | processar_dados.py:43 | the code index holds exactly the codes of the list |
| Hierarchy.ByCodeLastWins | processar_dados.py:43 | for a repeated code the last account wins |
| Hierarchy.ChildCodes | processar_dados.py:50-58 | the children of `p`: exactly the listed codes whose non-empty parent is `p` and indexed |
| Hierarchy.ChildrenMapIsChildCodes | processar_dados.py:50-58 | the loop's `children_map[p]` is exactly the children of `p` in list order, empty for every other code |
| Hierarchy.LevelMap | processar_dados.py:63 | the level map covers the indexed codes with `count('.') + 1` |
| Hierarchy.ChildrenAreIndexed | processar_dados.py:55-58 | a listed child and its parent are both indexed, the parent is non-empty and the child code is longer |
| Hierarchy.BuildHierarchy | processar_dados.py:40-65 | the loop builds the index, the children map and the level map the definition gives |
| Plans.PlanName | processar_dados.py:304-306 | the bracket name of the sheet, or the stripped sheet name when there is none or it is empty |
| Plans.PlanNameStripped | processar_dados.py:304-306 | a plan name has no surrounding whitespace |
| Plans.LinkSource | processar_dados.py:325-328 | a link column names its non-empty bracket name, or nothing |
| Plans.ColumnSources | processar_dados.py:324-332 | one entry per link column |
| Plans.ColumnSourcesAt | processar_dados.py:324-328 | column `j`'s data source is the one its header names |
| Plans.ReferencedSourcesNamed | processar_dados.py:329-330 | a data source is referenced exactly when some column names it |
| Plans.ScanLinkColumns | processar_dados.py:321-332 | the header loop yields each column's data source and the set of referenced data sources |
| Plans.LinkMapOfKeys | processar_dados.py:365-371 | a row links to a data source exactly when a column naming it holds a cell |
| Plans.LinkMapOfLastColumn | processar_dados.py:367-371 | the stored link is the stripped cell of the last such column |
| Plans.BuildLinkMap | processar_dados.py:365-371 | the link loop builds that map |
| Plans.TypeOrDefault | processar_dados.py:361-363 | the stored type is never empty |
| Plans.AccountOf | processar_dados.py:346-381 | a row's account never has an empty type |
| Plans.StoredType | processar_dados.py:348-363 | the type is `sintetica` exactly when the cell is empty or missing or says `sintetica`; otherwise it is the stripped cell text |
| Plans.FormulaOnlyForCalculo | processar_dados.py:353-358 | a formula exactly for a stored type starting with `calculo` that matches `calculo(...)`; it never holds `)` |
| Plans.MakeAccount | processar_dados.py:346-381 | the row body builds that account |
| Plans.CodeBeforeIsStrictWeakOrder | processar_dados.py:384 | ordering by code is a strict weak order |
| Plans.AccountsOf | processar_dados.py:343-381 | one account per row |
| Plans.AccountsOfRows | processar_dados.py:343-381 | account `k` is the account of row `k` |
| Plans.PlanAccountOrder | processar_dados.py:384 | sorting by code gives code order and a permutation, and keeps accounts with equal codes in row order |
| Plans.InsertName | processar_dados.py:390 | inserting a new name keeps the list strictly sorted, and adds exactly that name |
| Plans.SortedNames | processar_dados.py:390 | `sorted(list(s))` is strictly sorted and holds exactly the names of `s` |
| Plans.SortedTail | processar_dados.py:390 | the head of a strictly sorted list is below everything after it |
| Plans.StrictlySortedUnique | processar_dados.py:390 | only one strictly sorted list holds given names |
| Plans.ResortLinked | processar_dados.py:390 | sorting the linked list again in the view loop changes nothing |
| Plans.ReadPlan | processar_dados.py:343-391 | a plan exactly when it has rows; its accounts sorted by code; its linked sources strictly sorted, exactly the referenced ones that are loaded |
| Plans.StorePlan | processar_dados.py:388-391 | storing under a new name appends; under an existing name it replaces that entry in place |
| Plans.StoreBehind | processar_dados.py:388-391 | storing behind a first plan of another name leaves that plan in front |
| Plans.StorePlanDistinct | processar_dados.py:388-391 | plan names stay distinct, and the stored plan is present |
| Formula.DigitsEnd | processar_dados.py:149 | the end of the digit run `\d+` |
| Formula.GroupsEnd | processar_dados.py:149 | the greedy `(\.\d+)*` stops where no further dot-digit group follows |
| Formula.CodeEnd | processar_dados.py:149 | the end of the leftmost-longest token match at a digit |
| Formula.GroupsEndToken | processar_dados.py:149 | extending a token by its dot-digit groups gives a token |
| Formula.GroupExtends | processar_dados.py:149 | one more `.` plus digits extends a token |
| Formula.CodeEndToken | processar_dados.py:149 | each match is a whole `\d+(\.\d+)*` token |
| Formula.LexFlatten | processar_dados.py:149 | the scan loses nothing: its pieces put together give back the formula |
| Formula.LexPieces | processar_dados.py:149 | every code piece is a token, and every other piece is a non-digit |
| Formula.CodesOf | processar_dados.py:149 | there are no more codes than pieces |
| Formula.CodesOfTokens | processar_dados.py:149 | every code of token pieces is a token |
| Formula.FindCodesAreTokens | processar_dados.py:149 | every referenced code is a whole token |
| Formula.Mangle | processar_dados.py:159 | each `.` or `-` becomes `_`, and the length is kept |
| Formula.VarNameInjective | processar_dados.py:159-160 | distinct codes get distinct variables, so no value overwrites another's |
| Formula.SubFromNoMatch | processar_dados.py:170 | with no match the scan copies the text |
| Formula.Substitute | processar_dados.py:170 | `re.sub` with `\b...\b` leaves a text without whole-token matches unchanged |
| Formula.LongerFirstIsStrictWeakOrder | processar_dados.py:165 | ordering by decreasing length is a strict weak order |
| Formula.ReplacementOrder | processar_dados.py:165 | the replacement order is a permutation of the referenced codes, all of them non-empty tokens |
| Formula.ReplacementOrderLongestFirst | processar_dados.py:164-165 | a longer code is always replaced before a shorter one |
| Formula.WordEnd | processar_dados.py:173 | the end of an identifier's run of word characters |
| Formula.Tokenize | processar_dados.py:173 | the only tokenizer error is a syntax error |
| Formula.TokenizeUnlex | processar_dados.py:173 | tokens written out are tokenized back to themselves |
| Formula.WordEndAt | processar_dados.py:173 | the identifier run ends at the first non-word character |
| Formula.TokenizeShift | processar_dados.py:173 | after a prefix ending in a blank, tokenizing depends only on the rest |
| Formula.TokenizeShiftFrom | processar_dados.py:173 | tokenizing a suffix is tokenizing its own text |
| Formula.WordEndShift | processar_dados.py:173 | identifier ends shift with a prefix |
| Formula.ParseExpr | processar_dados.py:173 | a parse consumes at least one token |
| Formula.ParseExprTail | processar_dados.py:173 | a tail parse never grows the input |
| Formula.ParseTerm | processar_dados.py:173 | a term consumes at least one token |
| Formula.ParseTermTail | processar_dados.py:173 | a term tail never grows the input |
| Formula.ParseFactor | processar_dados.py:173 | a factor consumes at least one token |
| Formula.ParseAtom | processar_dados.py:173 | an atom consumes at least one token |
| Formula.ParseParenPrint | processar_dados.py:173 | a parenthesised printed expression parses back as an atom |
| Formula.TailsStop | processar_dados.py:173 | at `)` or the end, the tails return their input |
| Formula.ParseExprPrint | processar_dados.py:173 | a printed expression parses back to itself |
| Formula.ParseUnaryPrint | processar_dados.py:173 | a printed unary expression parses back to itself |
| Formula.ParseBinPrint | processar_dados.py:173 | a printed binary expression parses back to itself |
| Formula.ParseAllPrint | processar_dados.py:173 | round trip: parsing a printed expression gives the expression |
| Formula.Apply | processar_dados.py:173-180 | an operator fails exactly on division by zero |
| PlainFormula.ShapedPieces | processar_dados.py:149-170 | in shaped pieces every non-code piece is a non-word character and every code piece a token |
| PlainFormula.LexShaped | processar_dados.py:149-170 | the pieces of a formula without letters or `_` are shaped |
| PlainFormula.SubFromCopy | processar_dados.py:170 | the scan copies text without matches |
| PlainFormula.NoMatchInVar | processar_dados.py:170 | a code never matches inside an inserted variable |
| PlainFormula.NoMatchInCode | processar_dados.py:170 | a code never matches inside a different code piece that is no longer than it |
| PlainFormula.SubstituteStep | processar_dados.py:166-170 | one pass of the replacement scan over a prepared text renames exactly the pieces of its code |
| PlainFormula.RenderAllDone | processar_dados.py:166-170 | once every code has been renamed the text is the fully renamed formula |
| PlainFormula.SubstitutePrefix | processar_dados.py:166-170 | after `k` passes the text is the formula with exactly the first `k` codes of the replacement order renamed |
| PlainFormula.SubstitutedIsRenamed | processar_dados.py:162-170 | for a formula without letters or `_`, the longest-first whole-token loop renames every code in place and nothing else |
| Resolver.KindOf | processar_dados.py:101-143 | `analitica`, `sintetica` and `calculo...`-with-formula are told apart by the lower-cased type; everything else is unrecognised |
| Resolver.CodesOfPieces | processar_dados.py:107 | stripping and dropping empties never adds a piece |
| Resolver.CodesOfPiecesWellFormed | processar_dados.py:107 | every stripped non-empty piece is a link code |
| Resolver.LinkedCodesWellFormed | processar_dados.py:107 | every linked code is non-empty, `;`-free and stripped |
| Resolver.IndexOfFirst | processar_dados.py:107 | the first separator is found where it first occurs |
| Resolver.SplitFront | processar_dados.py:107 | splitting peels off the first piece |
| Resolver.SplitJoin | processar_dados.py:107 | round trip: splitting joined pieces gives them back |
| Resolver.LinkedCodesJoin | processar_dados.py:103-107 | round trip: codes written as a `;` link are read back as exactly those codes |
| Resolver.CodesOfPiecesFixed | processar_dados.py:107 | clean codes pass the strip-and-filter unchanged |
| Resolver.SumContributionsAppend | processar_dados.py:109-119 | the leaf sum over two link lists is the sum of the two sums |
| Resolver.SumContributionsNumeric | processar_dados.py:71-80 | `safe_float_conversion` in the leaf sum: only codes with a numeric cell add anything, each its number, so dropping the rest leaves the sum unchanged |
| Resolver.SumContributionsZero | processar_dados.py:112-122 | links with no row, no cell, or an empty or non-numeric cell add up to 0 |
| Resolver.SumLinked | processar_dados.py:109-124 | the accumulator loop computes the sum of the contributions |
| Resolver.DepsDecrease | processar_dados.py:132-157 | under a ranking every child or referenced code has a smaller measure |
| Resolver.ValueRankIndependent | processar_dados.py:82-185 | the resolved value does not depend on the ranking witnessing acyclicity |
| Resolver.SumOfRankIndependent | processar_dados.py:130-140 | likewise for the sum over children |
| Resolver.EnvRankIndependent | processar_dados.py:152-160 | likewise for the formula's variable bindings |
| Resolver.RollUpSumsChildren | processar_dados.py:130-140 | a `sintetica` account is the sum of its direct children in plan order, and 0 with none |
| Resolver.Engine.constructor | processar_dados.py:69 | the cache starts empty |
| Resolver.Engine.Reset | processar_dados.py:433 | the cache is emptied |
| Resolver.Engine.GetCalculatedValue | processar_dados.py:82-185 | it returns the defined value, stores it under `(code, period, ds_name)`, keeps every earlier key, and keeps the cache sound (every stored value is the defined one), so a cache hit returns what the uncached definition gives |
| Resolver.Engine.SumChildren | processar_dados.py:130-140 | the children loop computes the sum of the children's values |
| Resolver.EnvBinds | processar_dados.py:153-160 | `local_vars` binds the variable of every referenced code to that code's value and binds nothing else |
| Resolver.Engine.EvaluateFormula | processar_dados.py:143-180 | the formula branch binds every referenced code to its value, replaces and evaluates, with any error giving 0 |
| Resolver.SubstituteCodes | processar_dados.py:163-170 | the replacement loop applies each code's whole-token replacement in the given order |
| NumberCodes.LexOneHundred | processar_dados.py:149 | `1 + 100` references the codes `1` and `100` |
| NumberCodes.RenamedOneHundred | processar_dados.py:159 | the two codes become `v_1` and `v_100` |
| NumberCodes.SubstitutedOneHundred | processar_dados.py:162-170 | the replaced formula is `v_1 + v_100` |
| NumberCodes.TokenizeOneHundred | processar_dados.py:173 | it tokenizes as two identifiers around `+` |
| NumberCodes.ParseOneHundred | processar_dados.py:173 | those tokens parse as a sum of the two variables |
| NumberCodes.EvaluateOneHundred | processar_dados.py:173 | it evaluates to the sum of the two bound values |
| NumberCodes.VarNamesOfNumbers | processar_dados.py:159 | the variable names of `1` and `100` |
| NumberCodes.EnvOneHundred | processar_dados.py:93-160 | `v_1` is bound to the value of account `1`, and `v_100` to 0 when the plan has no account `100` |
| NumberCodes.FormulaValueOneHundred | processar_dados.py:143-180 | the formula's value is the sum of the two bindings |
| NumberCodes.PlainFormulaValue | processar_dados.py:143-180 | for a formula without letters or `_`: every referenced code bound to its value and nothing else, the replaced text is the formula with each code written as its variable, and the value is that text's value, or 0 on any error |
| NumberCodes.OneHundredIsACode | processar_dados.py:143-180 | a `calculo` account with formula `1 + 100` has the value of account `1` when account `100` is absent |
| Views.ValuesOfPeriods | processar_dados.py:442-448 | each account gets exactly one value per period, the resolved value |
| Views.ViewAccountsKept | processar_dados.py:463-474 | the zero filter keeps exactly the accounts not suppressed |
| Views.ViewAccountsAppend | processar_dados.py:436-474 | the view accounts keep plan order: those of two runs of accounts are the first run's followed by the second's |
| Views.ViewAccountsOne | processar_dados.py:436-474 | one account gives one view account, or none when suppressed, so two rows with the same code give two view accounts |
| Views.OtherTypesAlwaysKept | processar_dados.py:466-474 | a type other than `analitica`/`sintetica` is always kept, even when all its values are 0 |
| Views.ViewAccountLevel | processar_dados.py:455 | a kept account's `nivel` is its number of dots plus 1 |
| Views.ConcatAppend | processar_dados.py:478 | appending runs of views distributes over concatenation |
| Views.MapPairsAppend | processar_dados.py:407 | mapping two runs of plans is mapping each |
| Views.AllViewsAppend | processar_dados.py:407-478 | views come out plan by plan |
| Views.AllViewsSingle | processar_dados.py:407-478 | a single plan contributes exactly its own views |
| Views.AllViewsStep | processar_dados.py:407-478 | one more plan appends its views |
| Views.DsNames | processar_dados.py:480 | one data-source name per view |
| Views.DsNamesAppend | processar_dados.py:480 | names of appended views are appended names |
| Views.SourceViewsFields | processar_dados.py:421-483 | every view names its plan and a linked data source, and carries that source's non-empty periods |
| Views.SourceViewsLastName | processar_dados.py:428-478 | the last data source adds its view exactly when it has periods |
| Views.SourceViewsOrder | processar_dados.py:421-478 | one view per data source with periods, in data-source order |
| Views.FilterAppend | processar_dados.py:428-430 | filtering distributes over concatenation |
| Views.ReadyPlanViews | processar_dados.py:408-421 | the views of a plan with accounts and links are those of its sorted linked data sources, all of them loaded |
| Views.PlanViewsOrder | processar_dados.py:411-430 | a plan's views come one per linked data source with periods, in sorted order |
| Views.EmptyPlanViews | processar_dados.py:411-413 | a plan with no accounts or no linked data sources is skipped |
| Views.AccountValues | processar_dados.py:442-448 | the period loop computes the values map |
| Views.BuildView | processar_dados.py:432-483 | one pass clears the cache and builds the view of the kept accounts |
| Views.Kept | processar_dados.py:464-471 | an account is kept exactly when it is not suppressed |
| Views.AllZero | processar_dados.py:469 | true exactly when every value is 0 |
| Views.BuildPlanViews | processar_dados.py:421-483 | the data-source loop builds the views of one plan |
| Views.BuildPlan | processar_dados.py:408-483 | the body of the plan loop builds the plan's views |
| Views.CalculateViews | processar_dados.py:404-486 | the whole loop returns the views of every plan, in plan order |

## Left out

- Spreadsheet ingestion (processar_dados.py:188-340) is not part of this model: `pd.ExcelFile`, `xls.parse`, `dropna`, data-sheet reading and the timestamp formatting of period headers. Its output is given as `DataSource` values and `PlanRow` rows.
- Sheet selection is not modelled. This covers the `~$` and `plano` prefix tests (:299-302), the three-column check (:312-314) and the removal of a repeated header row (:335-340); `ReadPlan` receives the rows that remain after them.
- `update_index_html_with_json`, the `__main__` block and `extract_formula_from_description` are left out: they are file I/O, clock reads and console output, or (the last) never called.
- The `print` calls are left out.
- Python's `eval` is modelled only on the closed grammar. Anything outside that grammar is an error in the model, which makes it 0. Examples are builtins, `**`, `//`, `%`, comparisons, attribute access, `True`/`False`/`None`, conditional expressions, string literals and a trailing `# comment` (Python evaluates `1 + 2 # nota` as `v_1 + v_2`).
- Numeric literals are not modelled. A literal can survive the replacement only when its digits touch a letter or `_` (as in `1e5`); the model treats such a formula as an error, giving 0, where Python would evaluate the literal.
- Values are exact reals. IEEE rounding, NaN and infinity (`pd.notnull` on NaN) are not modelled, nor are the parsing rules of `float()` on strings. The raw-value datatype `Cell` abstracts them.
- The `safe_float_conversion` calls on child values, on referenced values and on the `eval` result (:138, :160, :176) are the identity on the model's reals, so they are not written out.
- Cyclic references and the `RecursionError` they raise are excluded by the `Ranked` precondition. The model does not capture what the `except` at :178 does with such an error.
- Lower-casing is ASCII only. `\w`, `\d` and `\b` are ASCII only, where Python's are Unicode.
- The skip of accounts without a code (:43, :51) is not modelled: after ingestion every code is a string.
- PlainFormula.SubstitutedIsRenamed: proved only for formulas without letters or `_`. For other formulas the model still performs the exact replacement loop, but no renaming characterisation is proved.
- NumberCodes.PlainFormulaValue: states the formula branch's value only for formulas without letters or `_`, for the same reason. For other formulas `Resolver.EnvBinds` still gives the bindings, and the value is that of the replaced text.
- Views.PlanViews: for a plan that is not ready (a reference cycle, or a linked data source that is not loaded) the definition gives no views. This is a modelling artifact: `CalculateViews` requires every plan to be ready. The linked data sources are always loaded, by the intersection at :390.
- View accounts are records, not dictionaries. The `account.copy()` / `del` of :451-458 becomes building a `ViewAccount` without the links.
