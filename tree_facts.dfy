/** What tree.go promises about its pieces on every input: the bracket elision, the roles the
    children get, the meaning of the post-order pass and the soundness of the blame search. */
module TreeFacts {
  import opened Wrappers
  import opened Text
  import opened Tree
  import RuleLogic

  // ---------------------------------------------------------------------------------------
  // Bracket depth
  // ---------------------------------------------------------------------------------------

  function Delta(c: char): int {
    if c == '(' then 1 else if c == ')' then -1 else 0
  }

  /** Read from bracket depth `d`, the text never closes a bracket it did not open and ends at
      depth 0. */
  predicate BalancedFrom(s: string, d: int)
    decreases |s|
  {
    if s == [] then d == 0
    else d + Delta(s[0]) >= 0 && BalancedFrom(s[1..], d + Delta(s[0]))
  }

  predicate Balanced(s: string) { BalancedFrom(s, 0) }

  /** Read from depth `d`, the text never comes back down to depth 0. */
  predicate StaysAbove(s: string, d: int)
    decreases |s|
  {
    s == [] || (d + Delta(s[0]) >= 1 && StaysAbove(s[1..], d + Delta(s[0])))
  }

  /** Opened minus closed brackets. */
  function Net(s: string): int
    decreases |s|
  {
    if s == [] then 0 else Delta(s[0]) + Net(s[1..])
  }

  // ---------------------------------------------------------------------------------------
  // The scan loop of replaceBiggestBracketContentAtOnce
  // ---------------------------------------------------------------------------------------

  function ScanThen(r: Result<Scan>, v: string): Result<Scan> {
    match r
    case Fail(e) => Fail(e)
    case Ok(st) => ScanText(v, st)
  }

  lemma {:induction false} ScanAppend(u: string, v: string, st: Scan)
    ensures ScanText(u + v, st) == ScanThen(ScanText(u, st), v)
    decreases |u|
  {
    if u == [] {
      assert u + v == v;
    } else if !Closed(st) {
      assert (u + v)[0] == u[0] && (u + v)[1..] == u[1..] + v;
      if ScanChar(st, u[0]).Ok? {
        ScanAppend(u[1..], v, ScanChar(st, u[0]).value);
      }
    }
  }

  /** Characters other than brackets only go into the buffer, and only once a block is open. */
  lemma {:induction false} ScanFree(a: string, st: Scan)
    requires BracketFree(a) && !Closed(st)
    ensures ScanText(a, st) == Ok(st.(toReplace := if st.flag then st.toReplace + a else st.toReplace))
    decreases |a|
  {
    if a != [] {
      var next := st.(toReplace := if st.flag then st.toReplace + [a[0]] else st.toReplace);
      assert ScanChar(st, a[0]) == Ok(next);
      FreeTail(a);
      ScanFree(a[1..], next);
      assert st.toReplace + [a[0]] + a[1..] == st.toReplace + a;
    } else {
      assert st.toReplace + a == st.toReplace;
    }
  }

  /** Inside an open block, text that never returns to depth 0 is buffered whole. */
  lemma {:induction false} ScanStays(s: string, st: Scan)
    requires st.flag && |st.stack| >= 1 && StaysAbove(s, |st.stack|)
    ensures ScanText(s, st).Ok? && ScanText(s, st).value.flag
    ensures ScanText(s, st).value.toReplace == st.toReplace + s
    ensures |ScanText(s, st).value.stack| == |st.stack| + Net(s)
    decreases |s|
  {
    if s == [] {
      assert st.toReplace + s == st.toReplace;
    } else {
      var next := ScanChar(st, s[0]).value;
      assert |next.stack| == |st.stack| + Delta(s[0]) && next.flag;
      assert next.toReplace == st.toReplace + [s[0]];
      ScanStays(s[1..], next);
      assert st.toReplace + [s[0]] + s[1..] == st.toReplace + s;
    }
  }

  lemma FreeTail(a: string)
    requires BracketFree(a) && a != []
    ensures BracketFree(a[1..]) && !IsBracket(a[0])
  {
    forall k | 0 <= k < |a[1..]| ensures !IsBracket(a[1..][k]) {
      assert a[1..][k] == a[k + 1];
    }
  }

  /** Text with no `(`: unchanged when it has no `)` either, a panic on the first `)` otherwise. */
  lemma {:induction false} ScanWithoutOpen(s: string)
    requires forall k :: 0 <= k < |s| ==> s[k] != '('
    ensures ScanText(s, Start) == if BracketFree(s) then Ok(Start) else Fail(SlicePanic)
    decreases |s|
  {
    if s != [] {
      if s[0] != ')' {
        assert ScanChar(Start, s[0]) == Ok(Start);
        ScanWithoutOpen(s[1..]);
        assert BracketFree(s) == BracketFree(s[1..]) by {
          if BracketFree(s[1..]) {
            forall k | 0 <= k < |s| ensures !IsBracket(s[k]) {
              if k > 0 {
                assert s[k] == s[1..][k - 1];
              }
            }
          }
        }
      }
    }
  }

  /** `replaceBiggestBracketContentAtOnce` on a text without `(` returns it and the map
      unchanged, unless a stray `)` makes it slice an empty stack. */
  lemma AtOnceWithoutOpen(expr: string, table: seq<string>)
    requires forall k :: 0 <= k < |expr| ==> expr[k] != '('
    ensures AtOnce(expr, table) == if BracketFree(expr) then Ok((expr, table)) else Fail(SlicePanic)
  {
    ScanWithoutOpen(expr);
  }

  /** No `(` in the prefix: the first occurrence of a pattern starting with `(` follows it. */
  lemma IndexAfterFree(a: string, pat: string, b: string)
    requires BracketFree(a) && |pat| > 0 && pat[0] == '('
    ensures Index(a + pat + b, pat) == Some(|a|)
  {
    forall j | 0 <= j < |a|
      ensures !OccursAt(a + pat + b, pat, j)
    {
      assert (a + pat + b)[j] == a[j];
      if j + |pat| <= |a + pat + b| {
        assert (a + pat + b)[j..j + |pat|][0] == (a + pat + b)[j];
      }
    }
    IndexAfterPrefix(a, pat, b);
  }

  /** The scan of a block that opens at its first `(` and closes after `inner`. */
  lemma ScanOpenBlock(inner: string, b: string)
    requires StaysAbove(inner, 1) && Net(inner) == 0
    ensures ScanText("(" + inner + ")" + b, Start) == Ok(Scan(true, [], inner + ")"))
  {
    var rest := "(" + inner + ")" + b;
    var s1 := Scan(true, ['('], []);
    assert rest[0] == '(' && rest[1..] == inner + (")" + b);
    assert Start.stack + ['('] == ['('];
    assert ScanChar(Start, '(') == Ok(s1);
    assert ScanText(rest, Start) == ScanText(inner + (")" + b), s1);
    ScanAppend(inner, ")" + b, s1);
    ScanStays(inner, s1);
    var s2 := ScanText(inner, s1).value;
    assert s1.toReplace + inner == inner;
    assert |s2.stack| == 1;
    assert (")" + b)[0] == ')' && (")" + b)[1..] == b;
    var s3 := Scan(true, [], inner + ")");
    assert ScanChar(s2, ')') == Ok(s3);
    assert ScanText(")" + b, s2) == ScanText(b, s3) == Ok(s3);
  }

  /** `replaceBiggestBracketContentAtOnce` replaces exactly the first top-level block with the
      fresh key and records the block's inner text trimmed of spaces. */
  lemma AtOnceBlock(a: string, inner: string, b: string, table: seq<string>)
    requires BracketFree(a) && StaysAbove(inner, 1) && Net(inner) == 0
    ensures AtOnce(a + "(" + inner + ")" + b, table)
         == Ok((a + Key(|table|) + b, table + [Trim(inner)]))
  {
    var pat := "(" + inner + ")";
    var e := a + "(" + inner + ")" + b;
    assert e == a + (pat + b) && e == a + pat + b;
    ScanAppend(a, pat + b, Start);
    ScanFree(a, Start);
    ScanOpenBlock(inner, b);
    assert ScanText(e, Start) == Ok(Scan(true, [], inner + ")"));
    assert (inner + ")")[..|inner|] == inner;
    IndexAfterFree(a, pat, b);
    ReplaceFirstAt(a, pat, b, Key(|table|));
  }

  lemma ReplaceFirstAt(a: string, pat: string, b: string, key: string)
    requires |pat| > 0 && Index(a + pat + b, pat) == Some(|a|)
    ensures ReplaceFirst(a + pat + b, pat, key) == a + key + b
  {
    var e := a + pat + b;
    assert e[..|a|] == a && e[|a| + |pat|..] == b;
  }

  lemma {:induction false} BalancedFree(u: string, v: string, d: int)
    requires BracketFree(u) && d >= 0
    ensures BalancedFrom(u + v, d) == BalancedFrom(v, d)
    decreases |u|
  {
    if u == [] {
      assert u + v == v;
    } else {
      assert (u + v)[0] == u[0] && (u + v)[1..] == u[1..] + v;
      assert !IsBracket(u[0]) && Delta(u[0]) == 0;
      assert BracketFree(u[1..]) by {
        forall k | 0 <= k < |u[1..]| ensures !IsBracket(u[1..][k]) {
          assert u[1..][k] == u[k + 1];
        }
      }
      BalancedFree(u[1..], v, d);
    }
  }

  /** One character read inside an open block of balanced text: no panic, the character is
      recorded, and the depth follows it. */
  lemma ScanInside(s: string, st: Scan) returns (next: Scan)
    requires st.flag && |st.stack| >= 1 && BalancedFrom(s, |st.stack|)
    ensures s != [] && ScanChar(st, s[0]) == Ok(next) && ScanText(s, st) == ScanText(s[1..], next)
    ensures |next.stack| == |st.stack| + Delta(s[0]) && next.flag && next.toReplace == st.toReplace + [s[0]]
    ensures next.stack == [] <==> |st.stack| == 1 && s[0] == ')'
    ensures BalancedFrom(s[1..], |next.stack|)
  {
    next := ScanChar(st, s[0]).value;
  }

  /** Inside an open block of balanced text the scan reaches the matching `)`. */
  lemma {:induction false} ScanBlock(s: string, st: Scan) returns (x: string, y: string)
    requires st.flag && |st.stack| >= 1 && BalancedFrom(s, |st.stack|)
    ensures s == x + y && |x| > 0 && x[|x| - 1] == ')'
    ensures ScanText(s, st) == Ok(Scan(true, [], st.toReplace + x))
    ensures BalancedFrom(y, 0)
    decreases |s|
  {
    var v := s[0];
    var next := ScanInside(s, st);
    if v == ')' && |st.stack| == 1 {
      x, y := [v], s[1..];
      assert next == Scan(true, [], st.toReplace + x);
    } else {
      var x', y' := ScanBlock(s[1..], next);
      x, y := [v] + x', y';
      assert st.toReplace + [v] + x' == st.toReplace + x;
    }
  }

  /** On balanced text the scan either finds no bracket at all or closes the first block. */
  lemma {:induction false} ScanBalanced(s: string) returns (found: bool, a: string, x: string, y: string)
    requires Balanced(s)
    ensures !found ==> BracketFree(s) && ScanText(s, Start) == Ok(Start)
    ensures found ==> s == a + "(" + x + y && BracketFree(a) && |x| > 0 && x[|x| - 1] == ')'
    ensures found ==> ScanText(s, Start) == Ok(Scan(true, [], x)) && Balanced(y)
    decreases |s|
  {
    if s == [] {
      found, a, x, y := false, [], [], [];
    } else if s[0] == '(' {
      found, a := true, [];
      x, y := ScanOpening(s);
    } else {
      var a';
      assert s[0] != ')';
      found, a', x, y := ScanBalanced(s[1..]);
      a := ScanPlainCons(s, found, a', x, y);
    }
  }

  /** Balanced text that opens with `(` is one block followed by balanced text. */
  lemma ScanOpening(s: string) returns (x: string, y: string)
    requires Balanced(s) && s != [] && s[0] == '('
    ensures s == [] + "(" + x + y && |x| > 0 && x[|x| - 1] == ')'
    ensures ScanText(s, Start) == Ok(Scan(true, [], x)) && Balanced(y)
  {
    var s1 := Scan(true, ['('], []);
    assert Start.stack + ['('] == ['('];
    assert ScanChar(Start, '(') == Ok(s1);
    x, y := ScanBlock(s[1..], s1);
    assert s1.toReplace + x == x;
    assert s == [] + "(" + x + y;
  }

  /** A character that is no bracket in front of balanced text is skipped by the scan and joins
      the bracket-free head. */
  lemma ScanPlainCons(s: string, found: bool, a': string, x: string, y: string) returns (a: string)
    requires s != [] && s[0] != '(' && s[0] != ')'
    requires !found ==> BracketFree(s[1..]) && ScanText(s[1..], Start) == Ok(Start)
    requires found ==> s[1..] == a' + "(" + x + y && BracketFree(a')
    requires found ==> ScanText(s[1..], Start) == Ok(Scan(true, [], x))
    ensures a == [s[0]] + a'
    ensures !found ==> BracketFree(s) && ScanText(s, Start) == Ok(Start)
    ensures found ==> s == a + "(" + x + y && BracketFree(a)
    ensures found ==> ScanText(s, Start) == Ok(Scan(true, [], x))
  {
    assert ScanChar(Start, s[0]) == Ok(Start);
    a := [s[0]] + a';
    assert s == [s[0]] + s[1..];
    if found {
      assert s == a + "(" + x + y;
    }
    assert forall k :: 0 < k < |s| ==> s[k] == s[1..][k - 1];
  }

  /** `replaceBiggestBracketContent` on balanced text: no panic, and no bracket is left. */
  lemma {:induction false} ElideBalanced(expr: string, table: seq<string>)
    requires Balanced(expr)
    ensures Elide(expr, table).Ok? && BracketFree(Elide(expr, table).value.0)
    decreases Opens(expr)
  {
    var found, a, x, y := ScanBalanced(expr);
    if found {
      var r, rest := ElideBlock(expr, table, a, x, y);
      ElideBalanced(r, rest);
    }
  }

  /** One pass over balanced text whose first block is `( x` replaces that block by a key:
      the result is new, balanced, and has fewer `(`. */
  lemma ElideBlock(expr: string, table: seq<string>, a: string, x: string, y: string)
    returns (r: string, rest: seq<string>)
    requires expr == a + "(" + x + y && BracketFree(a) && |x| > 0 && x[|x| - 1] == ')'
    requires ScanText(expr, Start) == Ok(Scan(true, [], x)) && Balanced(y)
    ensures AtOnce(expr, table) == Ok((r, rest)) && r != expr
    ensures Opens(r) < Opens(expr) && Balanced(r)
  {
    var inner := x[..|x| - 1];
    var pat := "(" + inner + ")";
    assert pat == "(" + x;
    assert expr == a + pat + y;
    IndexAfterFree(a, pat, y);
    assert expr[..|a|] == a && expr[|a| + |pat|..] == y;
    r, rest := a + Key(|table|) + y, table + [Trim(inner)];
    assert AtOnce(expr, table) == Ok((r, rest));
    KeyFree(|table|);
    KeyedFewer(a, x, y, Key(|table|));
  }

  /** Putting a bracket-free key in place of `( x` keeps balanced text balanced and removes
      at least one `(`. */
  lemma KeyedFewer(a: string, x: string, y: string, key: string)
    requires BracketFree(a) && BracketFree(key) && Opens(key) == 0 && Balanced(y)
    ensures Opens(a + key + y) < Opens(a + "(" + x + y) && Balanced(a + key + y)
  {
    assert a + key + y == a + (key + y);
    assert a + "(" + x + y == a + ("(" + (x + y));
    OpensAppend(a, key + y);
    OpensAppend(key, y);
    OpensAppend(a, "(" + (x + y));
    OpensAppend(x, y);
    assert ("(" + (x + y))[1..] == x + y;
    BalancedFree(a, key + y, 0);
    BalancedFree(key, y, 0);
  }

  // ---------------------------------------------------------------------------------------
  // Roles: Should and Blamed along the tree
  // ---------------------------------------------------------------------------------------

  /** The rules `shipChildren` sets between a node and its `j`-th child: the operator is one of
      the three, AND and OR children must take the parent's value and NOT children its negation,
      only the first child of an OR is blamed, no child is blamed under an unblamed parent, and a
      child is a leaf exactly when its text is a number. */
  predicate ChildRoles(n: Node, j: nat)
    requires j < |n.children|
  {
    var c := n.children[j];
    (n.childrenOp == "and" || n.childrenOp == "or" || n.childrenOp == "not")
    && c.should == (if n.childrenOp == "not" then !n.should else n.should)
    && c.blamed == (n.blamed && (j == 0 || n.childrenOp != "or"))
    && c.leaf == IsLeaf(c.expr)
  }

  predicate Roles(n: Node) {
    (forall j :: 0 <= j < |n.children| ==> ChildRoles(n, j))
    && (forall j :: 0 <= j < |n.children| ==> Roles(n.children[j]))
  }

  /** Fresh children with the roles of the `switch` in `shipChildren`. */
  predicate Shipped(cs: seq<Node>, op: string, should: bool, blamed: bool) {
    forall j :: 0 <= j < |cs| ==>
      cs[j] == Fresh(cs[j].expr, ChildShould(op, should), ChildBlamed(op, j == 0, blamed))
  }

  lemma {:induction false} ShipShipped(pieces: seq<string>, table: seq<string>, op: string, should: bool, blamed: bool)
    ensures Shipped(Ship(pieces, table, op, should, blamed), op, should, blamed)
    decreases |pieces|
  {
    if pieces != [] {
      ShipShipped(pieces[..|pieces| - 1], table, op, should, blamed);
    }
  }

  lemma SplitShipped(expr: string, should: bool, blamed: bool)
    requires SplitExpr(expr, should, blamed).Ok?
    ensures var s := SplitExpr(expr, should, blamed).value;
      Shipped(s.1, s.0, should, blamed) && (s.1 != [] ==> s.0 == "and" || s.0 == "or" || s.0 == "not")
  {
    var p := Elide(expr, []).value;
    ShipShipped(Split(p.0, " or "), p.1, "or", should, blamed);
    ShipShipped(Split(p.0, " and "), p.1, "and", should, blamed);
    var nots := Split(p.0, "not ");
    if |nots| > 1 {
      ShipShipped([nots[1]], p.1, "not", should, blamed);
    }
  }

  lemma {:induction false} PropagateAllLength(ns: seq<Node>, fuel: nat)
    requires PropagateAll(ns, fuel).Ok?
    ensures |PropagateAll(ns, fuel).value| == |ns|
    decreases |ns|
  {
    if ns != [] {
      PropagateAllLength(ns[..|ns| - 1], fuel);
    }
  }

  lemma {:induction false} PropagateAllEach(ns: seq<Node>, fuel: nat, j: nat)
    requires j < |ns| && PropagateAll(ns, fuel).Ok?
    ensures |PropagateAll(ns, fuel).value| == |ns|
    ensures Propagate(ns[j], fuel) == Ok(PropagateAll(ns, fuel).value[j])
    decreases |ns|
  {
    PropagateAllLength(ns, fuel);
    PropagateAllLength(ns[..|ns| - 1], fuel);
    if j < |ns| - 1 {
      PropagateAllEach(ns[..|ns| - 1], fuel, j);
    }
  }

  /** One child of a split: propagated from a fresh shipped node, it obeys the roles below
      itself and towards its parent. */
  lemma {:induction false} PropagateChild(t: Node, cs: seq<Node>, fuel: nat, j: nat)
    requires Shipped(cs, t.childrenOp, t.should, t.blamed)
    requires t.childrenOp == "and" || t.childrenOp == "or" || t.childrenOp == "not"
    requires j < |cs| && PropagateAll(cs, fuel) == Ok(t.children)
    ensures j < |t.children| && ChildRoles(t, j) && Roles(t.children[j])
    decreases fuel + 1, 0
  {
    PropagateAllEach(cs, fuel, j);
    PropagateRoles(cs[j], fuel);
  }

  /** `propagateTree` from a fresh node builds a tree whose every parent and child obey the
      roles, and leaves the node's own fields as they were. */
  lemma {:induction false} PropagateRoles(n: Node, fuel: nat)
    requires n.children == [] && Propagate(n, fuel).Ok?
    ensures var t := Propagate(n, fuel).value;
      Roles(t) && t.expr == n.expr && t.should == n.should && t.blamed == n.blamed
      && t.leaf == n.leaf && t.computed == n.computed
    decreases fuel, 1
  {
    if fuel > 0 {
      var s := SplitExpr(n.expr, n.should, n.blamed).value;
      if s.1 != [] {
        SplitShipped(n.expr, n.should, n.blamed);
        var ps := PropagateAll(s.1, fuel - 1).value;
        PropagateAllLength(s.1, fuel - 1);
        var t := n.(childrenOp := s.0, children := ps);
        assert Propagate(n, fuel) == Ok(t);
        forall j | 0 <= j < |ps|
          ensures ChildRoles(t, j) && Roles(ps[j])
        {
          PropagateChild(t, s.1, fuel - 1, j);
        }
      }
    }
  }

  /** `logicToTree`: no tree exactly for `""` and `" "`; otherwise a root over the whole text
      that must be true, is blamed, is not yet computed, and whose subtree obeys the roles. */
  lemma TreeRoot(logic: string)
    requires TreeOf(logic).Ok?
    ensures TreeOf(logic).value.None? <==> (logic == "" || logic == " ")
    ensures TreeOf(logic).value.Some? ==>
      var t := TreeOf(logic).value.value;
      t.expr == logic && t.should && t.blamed && !t.computed && t.leaf == IsLeaf(logic) && Roles(t)
  {
    if logic != "" && logic != " " {
      PropagateRoles(Fresh(logic, true, true), |logic|);
    }
  }

  // ---------------------------------------------------------------------------------------
  // The post-order pass
  // ---------------------------------------------------------------------------------------

  lemma {:induction false} CalcAllEach(ns: seq<Node>, values: map<int, bool>, j: nat)
    requires j < |ns| && CalcAll(ns, values).Ok?
    ensures Calc(ns[j], values).Ok? && Calc(ns[j], values).value.0 == CalcAll(ns, values).value[j]
    decreases |ns|
  {
    if j < |ns| - 1 {
      CalcAllEach(ns[..|ns| - 1], values, j);
    }
  }

  /** One node of the pass: its children are replaced by their evaluated copies and only its
      value may change besides. */
  lemma CalcKeeps(n: Node, values: map<int, bool>)
    requires Calc(n, values).Ok?
    ensures CalcAll(n.children, values).Ok?
    ensures var m := Calc(n, values).value.0;
      m.children == CalcAll(n.children, values).value && m.expr == n.expr && m.should == n.should
      && m.blamed == n.blamed && m.leaf == n.leaf && m.childrenOp == n.childrenOp
  {
    var cs := CalcAll(n.children, values).value;
    FinishKeeps(n.(children := cs), values);
  }

  /** Finishing a node sets its value and its computed flag and nothing else. */
  lemma FinishKeeps(m: Node, values: map<int, bool>)
    requires Finish(m, values).Ok?
    ensures var k := Finish(m, values).value.0;
      k.children == m.children && k.expr == m.expr && k.should == m.should
      && k.blamed == m.blamed && k.leaf == m.leaf && k.childrenOp == m.childrenOp
  {
  }

  /** Evaluation fills in values only: the shape and the roles of the tree are kept. */
  lemma {:induction false} CalcRoles(n: Node, values: map<int, bool>)
    requires Roles(n) && Calc(n, values).Ok?
    ensures var m := Calc(n, values).value.0;
      Roles(m) && m.expr == n.expr && m.should == n.should && m.blamed == n.blamed
      && m.leaf == n.leaf && m.childrenOp == n.childrenOp && |m.children| == |n.children|
  {
    CalcKeeps(n, values);
    var cs := CalcAll(n.children, values).value;
    var m := Calc(n, values).value.0;
    forall j | 0 <= j < |cs|
      ensures ChildRoles(m, j) && Roles(cs[j])
    {
      CalcAllEach(n.children, values, j);
      CalcRoles(n.children[j], values);
      assert ChildRoles(n, j);
    }
  }

  /** The value a non-leaf node takes from its children: NOT negates its child, AND holds when
      every child holds, OR when some child does; no other operator gives a value. */
  predicate Combines(op: string, v: bool, cs: seq<Node>)
    requires |cs| > 0
  {
    if op == "not" then v == !cs[0].val
    else if op == "and" then v == (forall j :: 0 <= j < |cs| ==> cs[j].val)
    else if op == "or" then v == (exists j :: 0 <= j < |cs| && cs[j].val)
    else false
  }

  lemma {:induction false} FoldAnd(start: bool, cs: seq<Node>)
    ensures Fold("and", start, cs) == Ok(start && forall j :: 0 <= j < |cs| ==> cs[j].val)
    decreases |cs|
  {
    if cs != [] {
      var p := cs[..|cs| - 1];
      FoldAnd(start, p);
      assert (forall j :: 0 <= j < |cs| ==> cs[j].val)
          == ((forall j :: 0 <= j < |p| ==> p[j].val) && cs[|cs| - 1].val) by {
        assert forall j :: 0 <= j < |p| ==> p[j] == cs[j];
      }
    }
  }

  lemma {:induction false} FoldOr(start: bool, cs: seq<Node>)
    ensures Fold("or", start, cs) == Ok(start || exists j :: 0 <= j < |cs| && cs[j].val)
    decreases |cs|
  {
    if cs != [] {
      var p := cs[..|cs| - 1];
      FoldOr(start, p);
      assert (exists j :: 0 <= j < |cs| && cs[j].val)
          == ((exists j :: 0 <= j < |p| && p[j].val) || cs[|cs| - 1].val) by {
        assert forall j :: 0 <= j < |p| ==> p[j] == cs[j];
        if exists j :: 0 <= j < |cs| && cs[j].val {
          var j :| 0 <= j < |cs| && cs[j].val;
          if j < |p| {
            assert p[j].val;
          }
        }
      }
    }
  }

  lemma {:induction false} FoldOther(op: string, start: bool, cs: seq<Node>)
    requires op != "and" && op != "or" && op != "not" && cs != []
    ensures Fold(op, start, cs).Fail?
    decreases |cs|
  {
    if |cs| > 1 {
      FoldOther(op, start, cs[..|cs| - 1]);
    }
  }

  /** A node the post-order pass computes without an error: a leaf holds the value of its id,
      and any other node combines its children's values by its operator. */
  lemma CalcMeaning(n: Node, values: map<int, bool>)
    requires Calc(n, values).Ok? && Calc(n, values).value.1.None?
    ensures var m := Calc(n, values).value.0;
      m.computed
      && (m.leaf ==> Atoi(m.expr).Ok? && Atoi(m.expr).value in values
                     && m.val == values[Atoi(m.expr).value])
      && (!m.leaf ==> |m.children| > 0 && Combines(m.childrenOp, m.val, m.children))
  {
    var m := Calc(n, values).value.0;
    if !m.leaf {
      var cs := m.children;
      var op := m.childrenOp;
      if op == "and" {
        FoldAnd(cs[0].val, cs);
      } else if op == "or" {
        FoldOr(cs[0].val, cs);
        if cs[0].val {
          assert exists j :: 0 <= j < |cs| && cs[j].val;
        }
      } else if op != "not" {
        FoldOther(op, cs[0].val, cs);
      }
    }
  }

  // ---------------------------------------------------------------------------------------
  // The blame search
  // ---------------------------------------------------------------------------------------

  lemma {:induction false} NodesAllHas(ns: seq<Node>, j: nat)
    requires j < |ns|
    ensures Nodes(ns[j]) <= NodesAll(ns)
    decreases |ns|
  {
    if j < |ns| - 1 {
      NodesAllHas(ns[..|ns| - 1], j);
    }
  }

  lemma {:induction false} BlameFromSound(buf: seq<Node>, i: nat, root: Node)
    requires i <= |buf| && forall k :: 0 <= k < |buf| ==> Nodes(buf[k]) <= Nodes(root)
    requires BlameFrom(buf, i).Ok? && BlameFrom(buf, i).value != []
    ensures |BlameFrom(buf, i).value| == 1
    ensures exists n :: n in Nodes(root) && n.leaf && IsFailNode(n) && Atoi(n.expr) == Ok(BlameFrom(buf, i).value[0])
    decreases SizeAll(buf[i..])
  {
    if buf[i].leaf && IsFailNode(buf[i]) {
      assert buf[i] in Nodes(buf[i]);
    } else {
      var next := Next(buf, i);
      forall k | 0 <= k < |next|
        ensures Nodes(next[k]) <= Nodes(root)
      {
        if k >= |buf| || (buf[i].children != [] && IsFailNode(buf[i]) && k > i) {
          var j := if IsFailNode(buf[i]) then k - (i + 1) else k - |buf|;
          assert next[k] == buf[i].children[j];
          NodesAllHas(buf[i].children, j);
        } else {
          assert next[k] == buf[k];
        }
      }
      NextShrinks(buf, i);
      BlameFromSound(next, i + 1, root);
    }
  }

  /** The blame search returns at most one id, and only the id of a leaf of the tree that is
      blamed, computed and has a value other than the one it must have. */
  lemma BlameSound(root: Node)
    requires Blame(root).Ok? && Blame(root).value != []
    ensures |Blame(root).value| == 1
    ensures exists n :: n in Nodes(root) && n.leaf && IsFailNode(n) && Atoi(n.expr) == Ok(Blame(root).value[0])
  {
    BlameFromSound([root], 0, root);
  }

  /** `calculateExpressionByTree`: a true verdict blames nobody, and a blamed id belongs to a
      failing leaf of the evaluated tree of the logic. */
  lemma ByTreeBlame(logic: string, values: map<int, bool>)
    requires ByTree(logic, values).Ok?
    ensures var ids := ByTree(logic, values).value.1;
      |ids| <= 1 && (ByTree(logic, values).value.0 ==> ids == [])
    ensures var ids := ByTree(logic, values).value.1;
      ids != [] ==> exists t, h, n :: TreeOf(logic) == Ok(Some(t)) && Calc(t, values) == Ok((h, None))
                      && n in Nodes(h) && n.leaf && IsFailNode(n) && Atoi(n.expr) == Ok(ids[0])
  {
    var t := TreeOf(logic).value.value;
    var p := Calc(t, values).value;
    if !p.0.val {
      var ids := Blame(p.0).value;
      if ids != [] {
        BlameSound(p.0);
        var n :| n in Nodes(p.0) && n.leaf && IsFailNode(n) && Atoi(n.expr) == Ok(ids[0]);
        assert TreeOf(logic) == Ok(Some(t)) && Calc(t, values) == Ok((p.0, None));
      }
    }
  }
}
