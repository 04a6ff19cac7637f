/** `get_parent_code` and `build_account_hierarchy`: the code index, the
    ordered children of every account and the level of every code. */
module Hierarchy {
  import opened Basics
  import opened Text
  import opened Model

  /** The parent code: the code without its last `.`-segment. A code with
      no `.` has no parent. The parent may be empty (code `.5`). */
  function ParentCode(code: string): (r: Option<string>)
    ensures r.Some? <==> '.' in code
    ensures r.Some? ==> exists k ::
      0 <= k < |code| && code[k] == '.' && r.value == code[..k] && '.' !in code[k + 1..]
  {
    if '.' in code then
      var k := LastIndexOf(code, '.');
      Some(code[..k])
    else None
  }

  /** Appending a dot-free segment to a code gives a child of that code. */
  lemma ParentOfChild(p: string, seg: string)
    requires '.' !in seg
    ensures ParentCode(p + "." + seg) == Some(p)
  {
    var c := p + "." + seg;
    assert c[|p|] == '.';
    var k := LastIndexOf(c, '.');
    assert k == |p|;
    assert c[..k] == p;
  }

  /** The level of a code: the number of its `.`-separated segments. */
  function Level(code: string): (n: nat)
    ensures n >= 1
    ensures n == 1 <==> '.' !in code
  {
    Count(code, '.') + 1
  }

  /** A child is one level below its parent. */
  lemma LevelOfChild(c: string)
    requires ParentCode(c).Some?
    ensures Level(c) == Level(ParentCode(c).value) + 1
  {
    var k := LastIndexOf(c, '.');
    assert c == c[..k] + ([c[k]] + c[k + 1..]);
    CountAppend(c[..k], [c[k]] + c[k + 1..], '.');
    CountAppend([c[k]], c[k + 1..], '.');
  }

  /** A child code is strictly longer than its parent's. */
  lemma ParentIsShorter(c: string)
    requires ParentCode(c).Some?
    ensures |ParentCode(c).value| < |c|
  {
  }

  /** The code index: later accounts with the same code replace earlier ones. */
  function ByCode(accs: seq<Account>): map<string, Account>
  {
    if accs == [] then map[]
    else ByCode(accs[..|accs| - 1])[accs[|accs| - 1].code := accs[|accs| - 1]]
  }

  /** Exactly the codes of the list are indexed. */
  lemma {:induction false} ByCodeKeys(accs: seq<Account>)
    ensures forall c :: c in ByCode(accs) <==> exists k :: 0 <= k < |accs| && accs[k].code == c
  {
    if accs != [] {
      var init := accs[..|accs| - 1];
      ByCodeKeys(init);
      assert forall k :: 0 <= k < |init| ==> init[k] == accs[k];
    }
  }

  /** The account found under a code is the last one carrying it. */
  lemma {:induction false} ByCodeLastWins(accs: seq<Account>, k: nat)
    requires k < |accs|
    requires forall k' :: k < k' < |accs| ==> accs[k'].code != accs[k].code
    ensures accs[k].code in ByCode(accs) && ByCode(accs)[accs[k].code] == accs[k]
  {
    if k < |accs| - 1 {
      var init := accs[..|accs| - 1];
      assert init[k] == accs[k];
      assert forall k' :: k < k' < |init| ==> init[k'] == accs[k'];
      ByCodeLastWins(init, k);
    }
  }

  /** Whether the account with this code is appended under a parent that is
      in `keys`: its parent code is non-empty and indexed. */
  predicate HasIndexedParent(c: string, keys: set<string>)
  {
    ParentCode(c).Some? && ParentCode(c).value != "" && ParentCode(c).value in keys
  }

  /** `children_map` as the loop leaves it after the accounts `accs`. */
  function ChildrenMap(accs: seq<Account>, keys: set<string>): map<string, seq<string>>
  {
    if accs == [] then map[]
    else
      var m := ChildrenMap(accs[..|accs| - 1], keys);
      var c := accs[|accs| - 1].code;
      if HasIndexedParent(c, keys) then
        var p := ParentCode(c).value;
        m[p := Get(m, p, []) + [c]]
      else m
  }

  /** The direct children of `p`, in the order of the account list. */
  function ChildCodes(accs: seq<Account>, keys: set<string>, p: string): (r: seq<string>)
    ensures forall c :: c in r ==> HasIndexedParent(c, keys) && ParentCode(c).value == p
    ensures forall c :: c in r <==>
      (exists k :: 0 <= k < |accs| && accs[k].code == c) && HasIndexedParent(c, keys) && ParentCode(c).value == p
  {
    if accs == [] then []
    else
      var init := accs[..|accs| - 1];
      var c := accs[|accs| - 1].code;
      assert forall k :: 0 <= k < |init| ==> init[k] == accs[k];
      ChildCodes(init, keys, p) + (if HasIndexedParent(c, keys) && ParentCode(c).value == p then [c] else [])
  }

  /** The loop's `children_map` holds, under every indexed parent, exactly
      its children in list order, and nothing under any other code. */
  lemma {:induction false} ChildrenMapIsChildCodes(accs: seq<Account>, keys: set<string>, p: string)
    ensures Get(ChildrenMap(accs, keys), p, []) == ChildCodes(accs, keys, p)
  {
    if accs != [] {
      ChildrenMapIsChildCodes(accs[..|accs| - 1], keys, p);
    }
  }

  /** The level of every indexed code. */
  function LevelMap(accs: seq<Account>): (m: map<string, nat>)
    ensures m.Keys == ByCode(accs).Keys
    ensures forall c :: c in m ==> m[c] == Level(c)
  {
    map c | c in ByCode(accs).Keys :: Level(c)
  }

  /** The three structures `build_account_hierarchy` returns. */
  datatype Hierarchy = Hierarchy(
    byCode: map<string, Account>,
    children: map<string, seq<string>>,
    levels: map<string, nat>)

  /** What `build_account_hierarchy(accounts_list)` returns. */
  function HierarchyOf(accs: seq<Account>): Hierarchy
  {
    var byCode := ByCode(accs);
    Hierarchy(byCode, ChildrenMap(accs, byCode.Keys), LevelMap(accs))
  }

  /** `children_map.get(code, [])`. */
  function Children(h: Hierarchy, c: string): seq<string>
  {
    Get(h.children, c, [])
  }

  /** Every child listed in the hierarchy is an indexed account whose parent
      code is the parent it is listed under, and is longer than it. */
  lemma ChildrenAreIndexed(accs: seq<Account>, p: string, c: string)
    requires c in Children(HierarchyOf(accs), p)
    ensures c in ByCode(accs) && p in ByCode(accs)
    ensures ParentCode(c) == Some(p) && p != ""
    ensures |p| < |c|
  {
    ChildrenMapIsChildCodes(accs, ByCode(accs).Keys, p);
    ByCodeKeys(accs);
  }

  /** The loop of `build_account_hierarchy`: appends each code to its
      indexed parent's children and records each code's level. */
  method BuildHierarchy(accs: seq<Account>) returns (h: Hierarchy)
    ensures h == HierarchyOf(accs)
  {
    var byCode := ByCode(accs);
    var children: map<string, seq<string>> := map[];
    var levels: map<string, nat> := map[];
    var i := 0;
    while i < |accs|
      invariant 0 <= i <= |accs|
      invariant children == ChildrenMap(accs[..i], byCode.Keys)
      invariant levels.Keys == ByCode(accs[..i]).Keys
      invariant forall c :: c in levels ==> levels[c] == Level(c)
    {
      var code := accs[i].code;
      var parent := ParentCode(code);
      assert accs[..i + 1][..i] == accs[..i];
      if parent.Some? && parent.value != "" {
        if parent.value in byCode {
          children := children[parent.value := Get(children, parent.value, []) + [code]];
        }
      }
      levels := levels[code := Level(code)];
      i := i + 1;
    }
    assert accs[..i] == accs;
    h := Hierarchy(byCode, children, levels);
  }
}
