/** The tree evaluator of tree.go: the normalised logic text is compiled into a tree of nodes
    (`logicToTree`, `propagateTree`), evaluated bottom-up (`traverseTreeInPostOrderForCalculate`)
    and searched breadth-first for the rule to blame (`traverseTreeInLayerToFindFailRule`).

    A node is a value here. Go allocates every child with `&Node{..}` and never shares one
    between two parents, so the in-place writes to `Children`, `Val` and `Computed` are modelled
    by returning the updated tree. The map of bracket placeholders is a sequence: entry `i` is the
    text stored under the key `Key(i)` made in the `i`-th round. */
module Tree {
  import opened Wrappers
  import opened Text
  import RuleLogic

  /** `Node` of bean.go. */
  datatype Node = Node(expr: string, val: bool, computed: bool, children: seq<Node>,
                       childrenOp: string, leaf: bool, should: bool, blamed: bool)

  /** `isLeaf`: the text matches `^\d+$`. */
  predicate IsLeaf(expr: string) { IsNumeral(expr) }

  /** A node as `&Node{Expr: .., Should: .., Blamed: ..}` creates it, with `Leaf` set from its
      text. */
  function Fresh(expr: string, should: bool, blamed: bool): Node {
    Node(expr, false, false, [], "", IsLeaf(expr), should, blamed)
  }

  /** `isFailNode` */
  predicate IsFailNode(n: Node) { n.blamed && n.computed && n.should != n.val }

  /** Number of nodes of a tree and of a list of trees. */
  function Size(n: Node): nat { 1 + SizeAll(n.children) }

  function SizeAll(ns: seq<Node>): nat {
    if ns == [] then 0 else SizeAll(ns[..|ns| - 1]) + Size(ns[|ns| - 1])
  }

  /** Every node of a tree. */
  function Nodes(n: Node): set<Node> { {n} + NodesAll(n.children) }

  function NodesAll(ns: seq<Node>): set<Node> {
    if ns == [] then {} else NodesAll(ns[..|ns| - 1]) + Nodes(ns[|ns| - 1])
  }

  // ---------------------------------------------------------------------------------------
  // Bracket elision: replaceBiggestBracketContentAtOnce and replaceBiggestBracketContent
  // ---------------------------------------------------------------------------------------

  /** The placeholder made in round `i`, standing for `uuid.NewV1().String()`. */
  function Key(i: nat): string { "#" + Itoa(i) + "#" }

  /** The loop variables of `replaceBiggestBracketContentAtOnce`. */
  datatype Scan = Scan(flag: bool, stack: seq<char>, toReplace: string)

  const Start := Scan(false, [], [])

  /** `bracketStack[:len(bracketStack)-1]` or `toReplace[:len(toReplace)-1]` on an empty slice. */
  const SlicePanic := Panic("slice bounds out of range [:-1]")

  /** The loop has met the `)` that closes its first block and has broken out. */
  predicate Closed(st: Scan) { st.flag && st.stack == [] }

  /** One iteration of the loop on the character `v`. */
  function ScanChar(st: Scan, v: char): Result<Scan> {
    var tr := if st.flag then st.toReplace + [v] else st.toReplace;
    if v == '(' then Ok(Scan(true, st.stack + ['('], tr))
    else if v == ')' then
      if st.stack == [] then Fail(SlicePanic)
      else Ok(Scan(st.flag, st.stack[..|st.stack| - 1], tr))
    else Ok(Scan(st.flag, st.stack, tr))
  }

  /** The loop run over `s` from the state `st`, stopping once the first block is closed. */
  function ScanText(s: string, st: Scan): Result<Scan>
    decreases |s|
  {
    if s == [] || Closed(st) then Ok(st)
    else
      match ScanChar(st, s[0])
      case Fail(e) => Fail(e)
      case Ok(next) => ScanText(s[1..], next)
  }

  /** `replaceBiggestBracketContentAtOnce`: the first top-level `( .. )` block is replaced by a
      fresh key, and the block's inner text, trimmed of spaces, is recorded under that key. */
  function AtOnce(expr: string, table: seq<string>): Result<(string, seq<string>)> {
    match ScanText(expr, Start)
    case Fail(e) => Fail(e)
    case Ok(st) =>
      if !st.flag then Ok((expr, table))
      else if st.toReplace == [] then Fail(SlicePanic)
      else
        var inner := st.toReplace[..|st.toReplace| - 1];
        Ok((ReplaceFirst(expr, "(" + inner + ")", Key(|table|)), table + [Trim(inner)]))
  }

  method ReplaceBiggestBracketContentAtOnce(expr: string, table: seq<string>)
    returns (r: Result<(string, seq<string>)>)
    ensures r == AtOnce(expr, table)
  {
    var flag := false;
    var stack: seq<char> := [];
    var toReplace: string := [];
    var i := 0;
    while i < |expr|
      invariant 0 <= i <= |expr|
      invariant stack != [] ==> flag
      invariant !Closed(Scan(flag, stack, toReplace))
      invariant ScanText(expr[i..], Scan(flag, stack, toReplace)) == ScanText(expr, Start)
    {
      ghost var before := Scan(flag, stack, toReplace);
      assert expr[i..][0] == expr[i] && expr[i..][1..] == expr[i + 1..];
      var v := expr[i];
      if flag {
        toReplace := toReplace + [v];
      }
      if v == '(' {
        flag := true;
        stack := stack + [v];
      } else if v == ')' {
        if stack == [] {
          return Fail(SlicePanic);
        }
        stack := stack[..|stack| - 1];
        if stack == [] {
          assert ScanChar(before, v) == Ok(Scan(flag, stack, toReplace));
          break;
        }
      }
      assert ScanChar(before, v) == Ok(Scan(flag, stack, toReplace));
      i := i + 1;
    }
    if !flag {
      return Ok((expr, table));
    }
    if toReplace == [] {
      return Fail(SlicePanic);
    }
    var inner := toReplace[..|toReplace| - 1];
    var key := Key(|table|);
    return Ok((ReplaceFirst(expr, "(" + inner + ")", key), table + [Trim(inner)]));
  }

  /** Number of `(` in `s`. */
  function Opens(s: string): nat {
    if s == [] then 0 else (if s[0] == '(' then 1 else 0) + Opens(s[1..])
  }

  predicate BracketFree(s: string) { forall k :: 0 <= k < |s| ==> !IsBracket(s[k]) }

  lemma {:induction false} OpensAppend(a: string, b: string)
    ensures Opens(a + b) == Opens(a) + Opens(b)
    decreases |a|
  {
    if a == [] {
      assert a + b == b;
    } else {
      assert (a + b)[0] == a[0] && (a + b)[1..] == a[1..] + b;
      OpensAppend(a[1..], b);
    }
  }

  lemma {:induction false} OpensNone(s: string)
    requires forall k :: 0 <= k < |s| ==> s[k] != '('
    ensures Opens(s) == 0
    decreases |s|
  {
    if s != [] {
      OpensNone(s[1..]);
    }
  }

  lemma KeyFree(i: nat)
    ensures BracketFree(Key(i)) && Opens(Key(i)) == 0
  {
    var d := Itoa(i);
    assert IsNumeral(d);
    assert forall k :: 0 <= k < |Key(i)| ==> Key(i)[k] == '#' || IsDigit(Key(i)[k]) by {
      forall k | 0 <= k < |Key(i)|
        ensures Key(i)[k] == '#' || IsDigit(Key(i)[k])
      {
        if 0 < k < |Key(i)| - 1 {
          assert Key(i)[k] == d[k - 1];
        }
      }
    }
    OpensNone(Key(i));
  }

  /** A round that changes the text removes at least one `(`: the rounds of
      `replaceBiggestBracketContent` cannot go on for ever. */
  lemma AtOnceShrinks(expr: string, table: seq<string>)
    requires AtOnce(expr, table).Ok? && AtOnce(expr, table).value.0 != expr
    ensures Opens(AtOnce(expr, table).value.0) < Opens(expr)
  {
    var st := ScanText(expr, Start).value;
    var inner := st.toReplace[..|st.toReplace| - 1];
    KeyFree(|table|);
    assert AtOnce(expr, table).value.0 == ReplaceFirst(expr, "(" + inner + ")", Key(|table|));
    ReplaceFirstOpens(expr, "(" + inner + ")", Key(|table|));
  }

  lemma ReplaceFirstOpens(s: string, pat: string, key: string)
    requires |pat| > 0 && pat[0] == '(' && Opens(key) == 0
    requires ReplaceFirst(s, pat, key) != s
    ensures Opens(ReplaceFirst(s, pat, key)) < Opens(s)
  {
    var i := Index(s, pat).value;
    var pre, rest := s[..i], s[i + |pat|..];
    assert s == pre + pat + rest;
    OpensSplice(pre, pat, key, rest);
  }

  /** Putting a text without `(` where one starting with `(` stood removes at least one `(`. */
  lemma OpensSplice(pre: string, pat: string, key: string, rest: string)
    requires |pat| > 0 && pat[0] == '(' && Opens(key) == 0
    ensures Opens(pre + key + rest) < Opens(pre + pat + rest)
  {
    OpensAppend(pre + pat, rest);
    OpensAppend(pre, pat);
    OpensAppend(pre + key, rest);
    OpensAppend(pre, key);
  }

  /** `replaceBiggestBracketContent`: rounds until the text stops changing. */
  function Elide(expr: string, table: seq<string>): Result<(string, seq<string>)>
    decreases Opens(expr)
  {
    match AtOnce(expr, table)
    case Fail(e) => Fail(e)
    case Ok(p) =>
      if p.0 == expr then Ok(p)
      else
        AtOnceShrinks(expr, table);
        Elide(p.0, p.1)
  }

  method ReplaceBiggestBracketContent(expr: string) returns (r: Result<(string, seq<string>)>)
    ensures r == Elide(expr, [])
  {
    var result := expr;
    var table: seq<string> := [];
    while true
      invariant Elide(result, table) == Elide(expr, [])
      decreases Opens(result)
    {
      var before, tableBefore := result, table;
      var step := ReplaceBiggestBracketContentAtOnce(result, table);
      if step.Fail? {
        return Fail(step.failure);
      }
      result, table := step.value.0, step.value.1;
      if before == result {
        return Ok((result, table));
      }
      AtOnceShrinks(before, tableBefore);
    }
  }

  // ---------------------------------------------------------------------------------------
  // Splitting a node: splitExprToChildren and shipChildren
  // ---------------------------------------------------------------------------------------

  /** The inner loop of `shipChildren` from key `i` on: a piece that is a key becomes that key's
      text, a piece holding a key gets it back as `( text )`. */
  function Expand(o: string, table: seq<string>, i: nat): string
    decreases |table| - i
  {
    if i >= |table| then o
    else if o == Key(i) then Expand(table[i], table, i + 1)
    else if Contains(o, Key(i)) then Expand(ReplaceAll(o, Key(i), "( " + table[i] + " )"), table, i + 1)
    else Expand(o, table, i + 1)
  }

  /** `Should` of a child, by the `switch` of `shipChildren`. */
  function ChildShould(op: string, should: bool): bool {
    if op == "and" || op == "or" then should else if op == "not" then !should else false
  }

  /** `Blamed` of a child, by the `switch` of `shipChildren` and the parent's own `Blamed`. */
  function ChildBlamed(op: string, first: bool, blamed: bool): bool {
    blamed && (op == "and" || op == "not" || (op == "or" && first))
  }

  /** The children `shipChildren` makes from the pieces of a split. */
  function Ship(pieces: seq<string>, table: seq<string>, op: string, should: bool, blamed: bool): (r: seq<Node>)
    decreases |pieces|
    ensures |r| == |pieces|
  {
    if pieces == [] then []
    else
      Ship(pieces[..|pieces| - 1], table, op, should, blamed)
      + [Fresh(Expand(pieces[|pieces| - 1], table, 0), ChildShould(op, should),
               ChildBlamed(op, |pieces| == 1, blamed))]
  }

  method ShipChildren(pieces: seq<string>, table: seq<string>, op: string, should: bool, blamed: bool)
    returns (children: seq<Node>)
    ensures children == Ship(pieces, table, op, should, blamed)
  {
    children := [];
    var isFirstChild := true;
    for j := 0 to |pieces|
      invariant children == Ship(pieces[..j], table, op, should, blamed)
      invariant isFirstChild == (j == 0)
    {
      var o := pieces[j];
      for k := 0 to |table|
        invariant Expand(o, table, k) == Expand(pieces[j], table, 0)
      {
        if o == Key(k) {
          o := table[k];
        } else if Contains(o, Key(k)) {
          o := ReplaceAll(o, Key(k), "( " + table[k] + " )");
        }
      }
      var child := Fresh(o, ChildShould(op, should), ChildBlamed(op, isFirstChild, blamed));
      assert pieces[..j + 1][..j] == pieces[..j];
      children := children + [child];
      isFirstChild := false;
    }
    assert pieces[..|pieces|] == pieces;
  }

  /** `splitExprToChildren`: the operator and the children of a node, split on a top-level
      ` or ` first, then ` and `, then `not `; no children when none of them splits. */
  function SplitExpr(expr: string, should: bool, blamed: bool): Result<(string, seq<Node>)> {
    match Elide(expr, [])
    case Fail(e) => Fail(e)
    case Ok(p) =>
      var ors := Split(p.0, " or ");
      if |ors| > 1 then Ok(("or", Ship(ors, p.1, "or", should, blamed)))
      else
        var ands := Split(p.0, " and ");
        if |ands| > 1 then Ok(("and", Ship(ands, p.1, "and", should, blamed)))
        else
          var nots := Split(p.0, "not ");
          if |nots| > 1 then Ok(("not", Ship([nots[1]], p.1, "not", should, blamed)))
          else Ok(("", []))
  }

  method SplitExprToChildren(node: Node) returns (r: Result<(string, seq<Node>)>)
    ensures r == SplitExpr(node.expr, node.should, node.blamed)
  {
    var wrap := ReplaceBiggestBracketContent(node.expr);
    if wrap.Fail? {
      return Fail(wrap.failure);
    }
    var exprWrap, mapReplace := wrap.value.0, wrap.value.1;
    var ors := Split(exprWrap, " or ");
    if |ors| > 1 {
      var children := ShipChildren(ors, mapReplace, "or", node.should, node.blamed);
      return Ok(("or", children));
    }
    var ands := Split(exprWrap, " and ");
    if |ands| > 1 {
      var children := ShipChildren(ands, mapReplace, "and", node.should, node.blamed);
      return Ok(("and", children));
    }
    var nots := Split(exprWrap, "not ");
    if |nots| > 1 {
      var children := ShipChildren([nots[1]], mapReplace, "not", node.should, node.blamed);
      return Ok(("not", children));
    }
    return Ok(("", []));
  }

  // ---------------------------------------------------------------------------------------
  // Building the tree: propagateTree and logicToTree
  // ---------------------------------------------------------------------------------------

  /** `propagateTree`, descending at most `fuel` levels. */
  function Propagate(n: Node, fuel: nat): Result<Node>
    decreases fuel, 0
  {
    if fuel == 0 then Ok(n)
    else
      match SplitExpr(n.expr, n.should, n.blamed)
      case Fail(e) => Fail(e)
      case Ok(s) =>
        if s.1 == [] then Ok(n)
        else
          match PropagateAll(s.1, fuel - 1)
          case Fail(e) => Fail(e)
          case Ok(cs) => Ok(n.(childrenOp := s.0, children := cs))
  }

  /** `propagateTree` on each child in turn; the first failure stops the walk. */
  function PropagateAll(ns: seq<Node>, fuel: nat): Result<seq<Node>>
    decreases fuel, 1, |ns|
  {
    if ns == [] then Ok([])
    else
      match PropagateAll(ns[..|ns| - 1], fuel)
      case Fail(e) => Fail(e)
      case Ok(cs) =>
        match Propagate(ns[|ns| - 1], fuel)
        case Fail(e) => Fail(e)
        case Ok(c) => Ok(cs + [c])
  }

  /** Once a prefix of the children has failed, the walk over all of them fails the same way. */
  lemma {:induction false} PropagateAllFails(ns: seq<Node>, fuel: nat, k: nat)
    requires k <= |ns| && PropagateAll(ns[..k], fuel).Fail?
    ensures PropagateAll(ns, fuel) == PropagateAll(ns[..k], fuel)
    decreases |ns| - k
  {
    if k == |ns| {
      assert ns[..k] == ns;
    } else {
      assert ns[..k + 1][..k] == ns[..k];
      PropagateAllFails(ns, fuel, k + 1);
    }
  }

  /** One more child expanded: the walk over the children so far grows by its expansion. */
  lemma PropagateAllStep(ns: seq<Node>, fuel: nat, k: nat, done: seq<Node>, c: Node)
    requires k < |ns| && PropagateAll(ns[..k], fuel) == Ok(done) && Propagate(ns[k], fuel) == Ok(c)
    ensures PropagateAll(ns[..k + 1], fuel) == Ok(done + [c])
  {
    assert ns[..k + 1][..k] == ns[..k];
  }

  method PropagateTree(head: Node, fuel: nat) returns (r: Result<Node>)
    ensures r == Propagate(head, fuel)
    decreases fuel, 0
  {
    if fuel == 0 {
      return Ok(head);
    }
    var split := SplitExprToChildren(head);
    if split.Fail? {
      return Fail(split.failure);
    }
    var op, children := split.value.0, split.value.1;
    if children == [] {
      return Ok(head);
    }
    var cs := PropagateChildren(children, fuel - 1);
    if cs.Fail? {
      return Fail(cs.failure);
    }
    r := Ok(head.(childrenOp := op, children := cs.value));
  }

  /** The loop of `propagateTree` over the children of one node. */
  method PropagateChildren(children: seq<Node>, fuel: nat) returns (r: Result<seq<Node>>)
    ensures r == PropagateAll(children, fuel)
    decreases fuel, 1
  {
    var done: seq<Node> := [];
    for index := 0 to |children|
      invariant PropagateAll(children[..index], fuel) == Ok(done)
    {
      var c := PropagateTree(children[index], fuel);
      if c.Fail? {
        assert children[..index + 1][..index] == children[..index];
        PropagateAllFails(children, fuel, index + 1);
        return Fail(c.failure);
      }
      PropagateAllStep(children, fuel, index, done, c.value);
      done := done + [c.value];
    }
    assert children[..|children|] == children;
    r := Ok(done);
  }

  /** `logicToTree`: no tree for `""` or `" "`, otherwise a root that must be true and is
      blamed, split as deep as the text goes (at most its length in levels). */
  function TreeOf(logic: string): Result<Option<Node>> {
    if logic == "" || logic == " " then Ok(None)
    else
      match Propagate(Fresh(logic, true, true), |logic|)
      case Fail(e) => Fail(e)
      case Ok(t) => Ok(Some(t))
  }

  method LogicToTree(logic: string) returns (r: Result<Option<Node>>)
    ensures r == TreeOf(logic)
  {
    if logic == "" || logic == " " {
      return Ok(None);
    }
    var head := Fresh(logic, true, true);
    var t := PropagateTree(head, |logic|);
    if t.Fail? {
      return Fail(t.failure);
    }
    return Ok(Some(t.value));
  }

  // ---------------------------------------------------------------------------------------
  // Evaluation: traverseTreeInPostOrderForCalculate
  // ---------------------------------------------------------------------------------------

  /** The fold loop of a non-leaf node: `tmpVal` starts at the first child's value and is
      combined with every child's value in turn. */
  function Fold(op: string, start: bool, cs: seq<Node>): Result<bool>
    decreases |cs|
  {
    if cs == [] then Ok(start)
    else
      match Fold(op, start, cs[..|cs| - 1])
      case Fail(e) => Fail(e)
      case Ok(t) => RuleLogic.ComputeOne(op, [t, cs[|cs| - 1].val])
  }

  const ChildPanic := Panic("index out of range [0] with length 0")

  /** The post-order pass on one node: the node with the values of its subtree filled in, and the
      error the call on that node returns. The children's own errors are dropped; a Go panic
      anywhere in the subtree fails the whole pass. */
  function Calc(n: Node, values: map<int, bool>): Result<(Node, Option<Failure>)> {
    match CalcAll(n.children, values)
    case Fail(e) => Fail(e)
    case Ok(cs) => Finish(n.(children := cs), values)
  }

  /** The pass on a node whose children have been evaluated: a leaf looks up its id, `not`
      negates its child, `and`/`or` fold the children. */
  function Finish(m: Node, values: map<int, bool>): Result<(Node, Option<Failure>)> {
    if m.leaf then
      match Atoi(m.expr)
      case Fail(e) => Ok((m, Some(e)))
      case Ok(id) =>
        if id in values then Ok((m.(val := values[id], computed := true), None))
        else Ok((m, Some(Error("not exist rule_id: " + Itoa(id)))))
    else if m.children == [] then Fail(ChildPanic)
    else if RuleLogic.NumOfOperand(m.childrenOp) == 1 then
      Ok((m.(val := !m.children[0].val, computed := true), None))
    else
      match Fold(m.childrenOp, m.children[0].val, m.children)
      case Fail(e) => Ok((m, Some(e)))
      case Ok(v) => Ok((m.(val := v, computed := true), None))
  }

  function CalcAll(ns: seq<Node>, values: map<int, bool>): (r: Result<seq<Node>>)
    ensures r.Ok? ==> |r.value| == |ns|
  {
    if ns == [] then Ok([])
    else
      match CalcAll(ns[..|ns| - 1], values)
      case Fail(e) => Fail(e)
      case Ok(cs) =>
        match Calc(ns[|ns| - 1], values)
        case Fail(e) => Fail(e)
        case Ok(p) => Ok(cs + [p.0])
  }

  lemma {:induction false} CalcAllFails(ns: seq<Node>, values: map<int, bool>, k: nat)
    requires k <= |ns| && CalcAll(ns[..k], values).Fail?
    ensures CalcAll(ns, values) == CalcAll(ns[..k], values)
    decreases |ns| - k
  {
    if k == |ns| {
      assert ns[..k] == ns;
    } else {
      assert ns[..k + 1][..k] == ns[..k];
      CalcAllFails(ns, values, k + 1);
    }
  }

  method TraverseForCalculate(node: Node, values: map<int, bool>) returns (r: Result<(Node, Option<Failure>)>)
    ensures r == Calc(node, values)
  {
    var children := node.children;
    var done: seq<Node> := [];
    for k := 0 to |children|
      invariant CalcAll(children[..k], values) == Ok(done)
    {
      var c := TraverseForCalculate(children[k], values);
      CalcAllStep(children, k, done, values);
      if c.Fail? {
        CalcAllFails(children, values, k + 1);
        return Fail(c.failure);
      }
      done := done + [c.value.0];
    }
    assert children[..|children|] == children;
    var m := node.(children := done);
    r := FinishNode(m, values);
  }

  /** `traverseTreeInPostOrderForCalculate` after the loop over the children (tree.go:64-96). */
  method FinishNode(m: Node, values: map<int, bool>) returns (r: Result<(Node, Option<Failure>)>)
    ensures r == Finish(m, values)
  {
    var done := m.children;
    if m.leaf {
      var ruleId := Atoi(m.expr);
      if ruleId.Fail? {
        return Ok((m, Some(ruleId.failure)));
      }
      if ruleId.value in values {
        return Ok((m.(val := values[ruleId.value], computed := true), None));
      }
      return Ok((m, Some(Error("not exist rule_id: " + Itoa(ruleId.value)))));
    }
    if done == [] {
      return Fail(ChildPanic);
    }
    var op := m.childrenOp;
    var tmpVal := done[0].val;
    if RuleLogic.NumOfOperand(op) == 1 {
      return Ok((m.(val := !tmpVal, computed := true), None));
    }
    for k := 0 to |done|
      invariant Fold(op, done[0].val, done[..k]) == Ok(tmpVal)
    {
      var step := RuleLogic.ComputeOne(op, [tmpVal, done[k].val]);
      FoldStep(op, done[0].val, done, k, tmpVal);
      if step.Fail? {
        FoldFails(op, done[0].val, done, k + 1);
        return Ok((m, Some(step.failure)));
      }
      tmpVal := step.value;
    }
    assert done[..|done|] == done;
    return Ok((m.(val := tmpVal, computed := true), None));
  }

  /** One turn of the loop over the children: the pass over one more child. */
  lemma CalcAllStep(ns: seq<Node>, k: nat, done: seq<Node>, values: map<int, bool>)
    requires k < |ns| && CalcAll(ns[..k], values) == Ok(done)
    ensures CalcAll(ns[..k + 1], values)
         == match Calc(ns[k], values) case Fail(e) => Fail(e) case Ok(p) => Ok(done + [p.0])
  {
    assert ns[..k + 1][..k] == ns[..k];
  }

  /** One turn of the fold loop: the fold over one more child. */
  lemma FoldStep(op: string, start: bool, cs: seq<Node>, k: nat, t: bool)
    requires k < |cs| && Fold(op, start, cs[..k]) == Ok(t)
    ensures Fold(op, start, cs[..k + 1]) == RuleLogic.ComputeOne(op, [t, cs[k].val])
  {
    assert cs[..k + 1][..k] == cs[..k];
  }

  /** Once the fold has failed it stays failed with the same error. */
  lemma {:induction false} FoldFails(op: string, start: bool, cs: seq<Node>, k: nat)
    requires k <= |cs| && Fold(op, start, cs[..k]).Fail?
    ensures Fold(op, start, cs) == Fold(op, start, cs[..k])
    decreases |cs| - k
  {
    if k == |cs| {
      assert cs[..k] == cs;
    } else {
      assert cs[..k + 1][..k] == cs[..k];
      FoldFails(op, start, cs, k + 1);
    }
  }

  // ---------------------------------------------------------------------------------------
  // Blame: traverseTreeInLayerToFindFailRule
  // ---------------------------------------------------------------------------------------

  /** The queue after position `i` has been looked at (and was not a failing leaf): a node with
      children appends them, and a failing one first drops everything queued after it. */
  function Next(buf: seq<Node>, i: nat): seq<Node>
    requires i < |buf|
  {
    if buf[i].children == [] then buf
    else if IsFailNode(buf[i]) then buf[..i + 1] + buf[i].children
    else buf + buf[i].children
  }

  lemma {:induction false} SizeAllAppend(a: seq<Node>, b: seq<Node>)
    ensures SizeAll(a + b) == SizeAll(a) + SizeAll(b)
    decreases |b|
  {
    if b == [] {
      assert a + b == a;
    } else {
      assert (a + b)[..|a + b| - 1] == a + b[..|b| - 1];
      SizeAllAppend(a, b[..|b| - 1]);
    }
  }

  lemma NextShrinks(buf: seq<Node>, i: nat)
    requires i < |buf|
    ensures SizeAll(Next(buf, i)[i + 1..]) < SizeAll(buf[i..])
  {
    var n := buf[i];
    assert buf[i..] == [n] + buf[i + 1..];
    SizeAllAppend([n], buf[i + 1..]);
    assert SizeAll([n]) == Size(n) by {
      assert [n][..0] == [];
    }
    if n.children != [] {
      if IsFailNode(n) {
        assert Next(buf, i)[i + 1..] == n.children;
      } else {
        assert Next(buf, i)[i + 1..] == buf[i + 1..] + n.children;
        SizeAllAppend(buf[i + 1..], n.children);
      }
    }
  }

  /** The breadth-first search from position `i` of the queue `buf`. */
  function BlameFrom(buf: seq<Node>, i: nat): Result<seq<int>>
    requires i <= |buf|
    decreases SizeAll(buf[i..])
  {
    if i == |buf| then Ok([])
    else if buf[i].leaf && IsFailNode(buf[i]) then
      match Atoi(buf[i].expr)
      case Fail(e) => Fail(e)
      case Ok(id) => Ok([id])
    else
      NextShrinks(buf, i);
      BlameFrom(Next(buf, i), i + 1)
  }

  function Blame(root: Node): Result<seq<int>> {
    BlameFrom([root], 0)
  }

  method FindFailRule(root: Node) returns (r: Result<seq<int>>)
    ensures r == Blame(root)
  {
    var buf := [root];
    var i := 0;
    while i < |buf|
      invariant 0 <= i <= |buf|
      invariant BlameFrom(buf, i) == Blame(root)
      decreases SizeAll(buf[i..])
    {
      if buf[i].leaf && IsFailNode(buf[i]) {
        var ruleId := Atoi(buf[i].expr);
        if ruleId.Fail? {
          return Fail(ruleId.failure);
        }
        return Ok([ruleId.value]);
      }
      NextShrinks(buf, i);
      if buf[i].children != [] {
        if IsFailNode(buf[i]) {
          buf := buf[..i + 1];
        }
        buf := buf + buf[i].children;
      }
      i := i + 1;
    }
    return Ok([]);
  }

  // ---------------------------------------------------------------------------------------
  // calculateExpressionByTree
  // ---------------------------------------------------------------------------------------

  const NilPanic := Panic("invalid memory address or nil pointer dereference")

  /** The verdict of the logic and the ids blamed for a false one. */
  function ByTree(logic: string, values: map<int, bool>): Result<(bool, seq<int>)> {
    match TreeOf(logic)
    case Fail(e) => Fail(e)
    case Ok(head) =>
      if head.None? then Fail(NilPanic)
      else
        match Calc(head.value, values)
        case Fail(e) => Fail(e)
        case Ok(p) =>
          var h := p.0;
          if p.1.Some? then Fail(p.1.value)
          else if !h.computed then Fail(Error("didn't count out yet"))
          else if !h.val then
            match Blame(h)
            case Fail(e) => Fail(e)
            case Ok(ids) => Ok((h.val, ids))
          else Ok((h.val, []))
  }

  method CalculateExpressionByTree(logic: string, values: map<int, bool>) returns (r: Result<(bool, seq<int>)>)
    ensures r == ByTree(logic, values)
  {
    var tree := LogicToTree(logic);
    if tree.Fail? {
      return Fail(tree.failure);
    }
    if tree.value.None? {
      return Fail(NilPanic);
    }
    var evaluated := TraverseForCalculate(tree.value.value, values);
    if evaluated.Fail? {
      return Fail(evaluated.failure);
    }
    var head, err := evaluated.value.0, evaluated.value.1;
    if err.Some? {
      return Fail(err.value);
    }
    if !head.computed {
      return Fail(Error("didn't count out yet"));
    }
    var unfitIDs: seq<int> := [];
    if !head.val {
      var found := FindFailRule(head);
      if found.Fail? {
        return Fail(found.failure);
      }
      unfitIDs := found.value;
    }
    return Ok((head.val, unfitIDs));
  }
}
