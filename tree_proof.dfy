/** The tree evaluator of tree.go on the normalised text of a formula: `logicToTree` builds the
    tree of the formula's operators (chains of `or`/`and` as one node with one child per operand),
    `traverseTreeInPostOrderForCalculate` gives every node the standard value of its subformula,
    and the rule `traverseTreeInLayerToFindFailRule` blames is a rule of the formula whose value
    differs from the one its position requires. */
module TreeProof {
  import opened Wrappers
  import opened Text
  import opened Formula
  import RuleLogic
  import opened Tree
  import opened TreeFacts
  import opened Canonical
  import opened Chains
  import opened RuleLogicProof

  /** The tree `logicToTree` should build from the normalised text of `f`, the root having the
      given `Should` and `Blamed`. */
  function Shape(f: Formula, should: bool, blamed: bool): Node
    decreases FSize(f)
  {
    var op, kids := OpName(f), Operands(f);
    Node(Written(f), false, false,
         seq(|kids|, j requires 0 <= j < |kids| =>
           Shape(kids[j], ChildShould(op, should), ChildBlamed(op, j == 0, blamed))),
         op, IsLeaf(Written(f)), should, blamed)
  }

  /** The same tree once every node holds the standard value of its subformula. */
  function Done(f: Formula, should: bool, blamed: bool, values: map<int, bool>): Node
    requires Ids(f) <= values.Keys
    decreases FSize(f)
  {
    var op, kids := OpName(f), Operands(f);
    Node(Written(f), Eval(f, values), true,
         seq(|kids|, j requires 0 <= j < |kids| =>
           Done(kids[j], ChildShould(op, should), ChildBlamed(op, j == 0, blamed), values)),
         op, IsLeaf(Written(f)), should, blamed)
  }

  // ---------------------------------------------------------------------------------------
  // logicToTree
  // ---------------------------------------------------------------------------------------

  /** A prefix one longer is the shorter prefix and one more element. */
  lemma PrefixSnoc<T>(s: seq<T>, k: nat)
    requires 0 < k <= |s|
    ensures s[..k - 1] + [s[k - 1]] == s[..k]
  {
  }

  lemma PropagateAllOk(ns: seq<Node>, fuel: nat, cs: seq<Node>)
    requires |cs| == |ns| && forall j :: 0 <= j < |ns| ==> Propagate(ns[j], fuel) == Ok(cs[j])
    ensures PropagateAll(ns, fuel) == Ok(cs)
  {
    PropagateAllUpTo(ns, fuel, cs, |ns|);
    assert ns[..|ns|] == ns && cs[..|cs|] == cs;
  }

  lemma {:induction false} PropagateAllUpTo(ns: seq<Node>, fuel: nat, cs: seq<Node>, k: nat)
    requires k <= |cs| == |ns| && forall j :: 0 <= j < |ns| ==> Propagate(ns[j], fuel) == Ok(cs[j])
    ensures PropagateAll(ns[..k], fuel) == Ok(cs[..k])
  {
    if k == 0 {
      assert ns[..0] == [];
    } else {
      PropagateAllUpTo(ns, fuel, cs, k - 1);
      PropagateAllStep(ns, fuel, k - 1, cs[..k - 1], cs[k - 1]);
      PrefixSnoc(cs, k);
    }
  }

  /** `propagateTree` on a fresh node holding the normalised text of `f`, with at least as many
      levels of fuel as `f` has constructors, builds the tree of `f`. */
  lemma {:induction false} PropagateShape(f: Formula, should: bool, blamed: bool, fuel: nat)
    requires WellBracketed(f) && !f.Group? && fuel >= FSize(f)
    ensures Propagate(Fresh(Written(f), should, blamed), fuel) == Ok(Shape(f, should, blamed))
    decreases FSize(f), 1
  {
    if f.Atom? {
      PropagateAtom(f, should, blamed, fuel);
    } else {
      ShapeKids(f, should, blamed, fuel - 1);
      PropagateInner(f, should, blamed, fuel);
    }
  }

  lemma PropagateAtom(f: Formula, should: bool, blamed: bool, fuel: nat)
    requires f.Atom? && fuel >= FSize(f)
    ensures Propagate(Fresh(Written(f), should, blamed), fuel) == Ok(Shape(f, should, blamed))
  {
    var n := Fresh(Written(f), should, blamed);
    var t := Shape(f, should, blamed);
    SplitWritten(f, should, blamed);
    ShapeFresh(f, should, blamed);
    PropagateLeafStep(n, fuel, OpName(f), t);
  }

  lemma PropagateInner(f: Formula, should: bool, blamed: bool, fuel: nat)
    requires !f.Atom? && !f.Group? && fuel >= FSize(f) && fuel > 0
    requires PropagateAll(FreshKids(Operands(f), OpName(f), should, blamed), fuel - 1)
          == Ok(Shape(f, should, blamed).children)
    ensures Propagate(Fresh(Written(f), should, blamed), fuel) == Ok(Shape(f, should, blamed))
  {
    var op, kids := OpName(f), Operands(f);
    var n := Fresh(Written(f), should, blamed);
    var t := Shape(f, should, blamed);
    SplitWritten(f, should, blamed);
    ShapeFresh(f, should, blamed);
    var ns := FreshKids(kids, op, should, blamed);
    assert ns != [];
    PropagateStep(n, fuel, op, ns, t);
  }

  /** The tree of `f` is the fresh node of its text with its operator and children filled in. */
  lemma ShapeFresh(f: Formula, should: bool, blamed: bool)
    ensures Shape(f, should, blamed)
         == Fresh(Written(f), should, blamed).(childrenOp := OpName(f), children := Shape(f, should, blamed).children)
    ensures |Shape(f, should, blamed).children| == |Operands(f)|
  {
  }

  /** One level of `propagateTree` on a node the split leaves without children. */
  lemma PropagateLeafStep(n: Node, fuel: nat, op: string, t: Node)
    requires fuel > 0 && SplitExpr(n.expr, n.should, n.blamed) == Ok((op, []))
    requires t == n.(childrenOp := op, children := t.children) && |t.children| == 0
    requires n.childrenOp == op && n.children == []
    ensures Propagate(n, fuel) == Ok(t)
  {
    assert t == n;
  }

  /** One level of `propagateTree` on a node the split gives the children `ns`, which become the
      children of `t`. */
  lemma PropagateStep(n: Node, fuel: nat, op: string, ns: seq<Node>, t: Node)
    requires fuel > 0 && SplitExpr(n.expr, n.should, n.blamed) == Ok((op, ns)) && ns != []
    requires PropagateAll(ns, fuel - 1) == Ok(t.children) && t == n.(childrenOp := op, children := t.children)
    ensures Propagate(n, fuel) == Ok(t)
  {
  }

  lemma {:induction false} ShapeKids(f: Formula, should: bool, blamed: bool, fuel: nat)
    requires WellBracketed(f) && fuel >= FSize(f) - 1
    ensures PropagateAll(FreshKids(Operands(f), OpName(f), should, blamed), fuel)
         == Ok(Shape(f, should, blamed).children)
    decreases FSize(f), 0
  {
    var op, kids := OpName(f), Operands(f);
    var ns := FreshKids(kids, op, should, blamed);
    var cs := Shape(f, should, blamed).children;
    OperandsWellBracketed(f);
    forall j | 0 <= j < |kids| ensures Propagate(ns[j], fuel) == Ok(cs[j]) {
      PropagateShape(kids[j], ChildShould(op, should), ChildBlamed(op, j == 0, blamed), fuel);
    }
    PropagateAllOk(ns, fuel, cs);
  }

  /** `logicToTree` on the normalised text of `f` builds the tree of `f`, its root required to be
      true and blamed. */
  lemma TreeOfWritten(f: Formula)
    requires WellBracketed(f) && !f.Group?
    ensures TreeOf(Written(f)) == Ok(Some(Shape(f, true, true)))
  {
    WrittenFacts(f);
    assert Written(f) != " " by {
      assert Written(f)[0] != ' ';
    }
    PropagateShape(f, true, true, |Written(f)|);
  }

  // ---------------------------------------------------------------------------------------
  // traverseTreeInPostOrderForCalculate
  // ---------------------------------------------------------------------------------------

  lemma CalcAllOk(ns: seq<Node>, values: map<int, bool>, cs: seq<Node>)
    requires |cs| == |ns|
    requires forall j :: 0 <= j < |ns| ==> Calc(ns[j], values).Ok? && Calc(ns[j], values).value.0 == cs[j]
    ensures CalcAll(ns, values) == Ok(cs)
  {
    CalcAllUpTo(ns, values, cs, |ns|);
    assert ns[..|ns|] == ns && cs[..|cs|] == cs;
  }

  lemma {:induction false} CalcAllUpTo(ns: seq<Node>, values: map<int, bool>, cs: seq<Node>, k: nat)
    requires k <= |cs| == |ns|
    requires forall j :: 0 <= j < |ns| ==> Calc(ns[j], values).Ok? && Calc(ns[j], values).value.0 == cs[j]
    ensures CalcAll(ns[..k], values) == Ok(cs[..k])
  {
    if k == 0 {
      assert ns[..0] == [];
    } else {
      CalcAllUpTo(ns, values, cs, k - 1);
      CalcAllStep(ns, k - 1, cs[..k - 1], values);
      PrefixSnoc(cs, k);
    }
  }

  /** Every formula of `kids` evaluates to `b`. */
  predicate AllAre(kids: seq<Formula>, values: map<int, bool>, b: bool) {
    forall j :: 0 <= j < |kids| ==> Ids(kids[j]) <= values.Keys && Eval(kids[j], values) == b
  }

  lemma AllAreSnoc(front: seq<Formula>, x: Formula, values: map<int, bool>, b: bool)
    requires Ids(x) <= values.Keys
    ensures AllAre(front + [x], values, b) == (AllAre(front, values, b) && Eval(x, values) == b)
  {
    var kids := front + [x];
    assert forall j :: 0 <= j < |front| ==> kids[j] == front[j];
    assert kids[|front|] == x;
  }

  /** The operands of a chain of one formula are that formula. */
  lemma AllAreOne(x: Formula, values: map<int, bool>, b: bool)
    requires Ids(x) <= values.Keys
    ensures AllAre([x], values, b) == (Eval(x, values) == b)
  {
    AllAreSnoc([], x, values, b);
    assert [] + [x] == [x];
  }

  /** An `and` chain holds when all its operands hold. */
  lemma {:induction false} AndChain(f: Formula, values: map<int, bool>)
    requires f.And? && Ids(f) <= values.Keys
    ensures Eval(f, values) == AllAre(Kids(f, "and"), values, true)
    decreases f
  {
    var front := Kids(f.left, "and");
    assert Kids(f, "and") == front + [Strip(f.right)];
    StripSame(f.left, values);
    StripSame(f.right, values);
    AllAreSnoc(front, Strip(f.right), values, true);
    if f.left.And? {
      AndChain(f.left, values);
    } else {
      assert front == [Strip(f.left)];
      AllAreOne(Strip(f.left), values, true);
    }
  }

  /** An `or` chain fails when all its operands fail. */
  lemma {:induction false} OrChain(f: Formula, values: map<int, bool>)
    requires f.Or? && Ids(f) <= values.Keys
    ensures !Eval(f, values) == AllAre(Kids(f, "or"), values, false)
    decreases f
  {
    var front := Kids(f.left, "or");
    assert Kids(f, "or") == front + [Strip(f.right)];
    StripSame(f.left, values);
    StripSame(f.right, values);
    AllAreSnoc(front, Strip(f.right), values, false);
    if f.left.Or? {
      OrChain(f.left, values);
    } else {
      assert front == [Strip(f.left)];
      AllAreOne(Strip(f.left), values, false);
    }
  }

  /** The text of a formula other than an id is no leaf. */
  lemma LeafAtom(f: Formula)
    ensures IsLeaf(Written(f)) <==> f.Atom?
  {
    WrittenFacts(f);
    WrittenText(f);
    if !f.Atom? {
      var k :| 0 <= k < |Written(f)| && Written(f)[k] == ' ';
      assert !IsDigit(Written(f)[k]);
    }
  }

  /** The post-order pass over the tree of `f` fills every node with the standard value of its
      subformula and reports no error, provided every rule of `f` has a value and fits `int`. */
  lemma {:induction false} CalcShape(f: Formula, should: bool, blamed: bool, values: map<int, bool>)
    requires WellBracketed(f) && !f.Group? && Ids(f) <= values.Keys && IdsInRange(f)
    ensures Calc(Shape(f, should, blamed), values) == Ok((Done(f, should, blamed, values), None))
    decreases FSize(f)
  {
    var op, kids := OpName(f), Operands(f);
    var t, d := Shape(f, should, blamed), Done(f, should, blamed, values);
    OperandsWellBracketed(f);
    forall j | 0 <= j < |kids|
      ensures Calc(t.children[j], values).Ok? && Calc(t.children[j], values).value.0 == d.children[j]
    {
      CalcShape(kids[j], ChildShould(op, should), ChildBlamed(op, j == 0, blamed), values);
    }
    CalcAllOk(t.children, values, d.children);
    LeafAtom(f);
    if f.Atom? {
      CalcAtom(f.id, should, blamed, values);
    } else if f.Not? {
      CalcNot(f.arg, should, blamed, values);
    } else {
      CalcChain(f, should, blamed, values);
    }
  }

  lemma CalcAtom(n: nat, should: bool, blamed: bool, values: map<int, bool>)
    requires n in values && n <= MaxInt
    ensures Calc(Shape(Atom(n), should, blamed), values) == Ok((Done(Atom(n), should, blamed, values), None))
  {
    var t := Shape(Atom(n), should, blamed);
    LeafAtom(Atom(n));
    WrittenText(Atom(n));
    AtoiItoa(n);
    assert t.children == [] && t.leaf && t.expr == Itoa(n);
    assert CalcAll(t.children, values) == Ok([]);
    assert t.(children := []).(val := values[n], computed := true) == Done(Atom(n), should, blamed, values);
  }

  lemma CalcNot(a: Formula, should: bool, blamed: bool, values: map<int, bool>)
    requires Ids(a) <= values.Keys
    requires CalcAll(Shape(Not(a), should, blamed).children, values) == Ok(Done(Not(a), should, blamed, values).children)
    ensures Calc(Shape(Not(a), should, blamed), values) == Ok((Done(Not(a), should, blamed, values), None))
  {
    var t, d := Shape(Not(a), should, blamed), Done(Not(a), should, blamed, values);
    LeafAtom(Not(a));
    StripSame(a, values);
    assert |d.children| == 1 && d.children[0].val == Eval(a, values);
    assert RuleLogic.NumOfOperand(t.childrenOp) == 1;
    assert t.(children := d.children).(val := !d.children[0].val, computed := true) == d;
  }

  lemma CalcChain(f: Formula, should: bool, blamed: bool, values: map<int, bool>)
    requires (f.And? || f.Or?) && Ids(f) <= values.Keys
    requires CalcAll(Shape(f, should, blamed).children, values) == Ok(Done(f, should, blamed, values).children)
    ensures Calc(Shape(f, should, blamed), values) == Ok((Done(f, should, blamed, values), None))
  {
    var t, d := Shape(f, should, blamed), Done(f, should, blamed, values);
    var cs := d.children;
    LeafAtom(f);
    assert |cs| >= 2 && RuleLogic.NumOfOperand(t.childrenOp) == 2;
    DoneValues(f, should, blamed, values);
    ChainFold(f, cs, values);
    CalcBinary(t, cs, values, Eval(f, values));
    assert t.(children := cs, val := Eval(f, values), computed := true) == d;
  }

  /** `traverseTreeInPostOrderForCalculate` on a node of a binary operator whose children
      evaluate to `cs` and fold to `v`. */
  lemma CalcBinary(n: Node, cs: seq<Node>, values: map<int, bool>, v: bool)
    requires !n.leaf && CalcAll(n.children, values) == Ok(cs) && cs != []
    requires RuleLogic.NumOfOperand(n.childrenOp) == 2 && Fold(n.childrenOp, cs[0].val, cs) == Ok(v)
    ensures Calc(n, values) == Ok((n.(children := cs, val := v, computed := true), None))
  {
  }

  /** The fold over nodes holding the values of the operands of a chain gives the value of the
      chain. */
  lemma ChainFold(f: Formula, cs: seq<Node>, values: map<int, bool>)
    requires (f.And? || f.Or?) && Ids(f) <= values.Keys
    requires |cs| == |Operands(f)| && forall j :: 0 <= j < |cs| ==> cs[j].val == Eval(Operands(f)[j], values)
    ensures |cs| > 0 && Fold(OpName(f), cs[0].val, cs) == Ok(Eval(f, values))
  {
    var kids := Operands(f);
    assert forall j :: 0 <= j < |kids| ==> Ids(kids[j]) <= values.Keys;
    if f.And? {
      AndChain(f, values);
      assert Eval(f, values) == forall j :: 0 <= j < |cs| ==> cs[j].val by {
        assert AllAre(kids, values, true) == forall j :: 0 <= j < |cs| ==> cs[j].val;
      }
      FoldAndAll(cs, Eval(f, values));
    } else {
      OrChain(f, values);
      assert !Eval(f, values) == forall j :: 0 <= j < |cs| ==> !cs[j].val by {
        assert AllAre(kids, values, false) == forall j :: 0 <= j < |cs| ==> !cs[j].val;
      }
      FoldOrAll(cs, Eval(f, values));
    }
  }

  lemma FoldAndAll(cs: seq<Node>, v: bool)
    requires |cs| > 0 && v == forall j :: 0 <= j < |cs| ==> cs[j].val
    ensures Fold("and", cs[0].val, cs) == Ok(v)
  {
    FoldAnd(cs[0].val, cs);
  }

  lemma FoldOrAll(cs: seq<Node>, v: bool)
    requires |cs| > 0 && !v == forall j :: 0 <= j < |cs| ==> !cs[j].val
    ensures Fold("or", cs[0].val, cs) == Ok(v)
  {
    FoldOr(cs[0].val, cs);
  }

  /** The children of an evaluated node hold the values of the operands. */
  lemma DoneValues(f: Formula, should: bool, blamed: bool, values: map<int, bool>)
    requires Ids(f) <= values.Keys
    ensures var cs, kids := Done(f, should, blamed, values).children, Operands(f);
      |cs| == |kids| && forall j :: 0 <= j < |cs| ==> cs[j].val == Eval(kids[j], values)
  {
    var cs, kids := Done(f, should, blamed, values).children, Operands(f);
    forall j | 0 <= j < |cs| ensures cs[j].val == Eval(kids[j], values) {
      assert cs[j] == Done(kids[j], ChildShould(OpName(f), should), ChildBlamed(OpName(f), j == 0, blamed), values);
    }
  }

  // ---------------------------------------------------------------------------------------
  // traverseTreeInLayerToFindFailRule
  // ---------------------------------------------------------------------------------------

  lemma {:induction false} NodesAllIn(ns: seq<Node>, n: Node)
    requires n in NodesAll(ns)
    ensures exists j :: 0 <= j < |ns| && n in Nodes(ns[j])
    decreases |ns|
  {
    if n !in Nodes(ns[|ns| - 1]) {
      NodesAllIn(ns[..|ns| - 1], n);
    }
  }

  /** Every leaf of the evaluated tree of `f` is the text of a rule of `f` and holds its value. */
  predicate RuleLeaf(n: Node, f: Formula, values: map<int, bool>) {
    n.leaf ==> exists id :: id in Ids(f) && id in values && n.expr == Itoa(id) && n.val == values[id]
  }

  lemma RuleLeafWiden(n: Node, g: Formula, f: Formula, values: map<int, bool>)
    requires Ids(g) <= Ids(f) && RuleLeaf(n, g, values)
    ensures RuleLeaf(n, f, values)
  {
  }

  lemma {:induction false} DoneLeaves(f: Formula, should: bool, blamed: bool, values: map<int, bool>)
    requires Ids(f) <= values.Keys
    ensures forall n :: n in Nodes(Done(f, should, blamed, values)) ==> RuleLeaf(n, f, values)
    decreases FSize(f)
  {
    var op, kids := OpName(f), Operands(f);
    var d := Done(f, should, blamed, values);
    LeafAtom(f);
    forall n | n in Nodes(d) ensures RuleLeaf(n, f, values) {
      if n != d {
        NodesAllIn(d.children, n);
        var j :| 0 <= j < |d.children| && n in Nodes(d.children[j]);
        assert d.children[j] == Done(kids[j], ChildShould(op, should), ChildBlamed(op, j == 0, blamed), values);
        DoneLeaves(kids[j], ChildShould(op, should), ChildBlamed(op, j == 0, blamed), values);
        RuleLeafWiden(n, kids[j], f, values);
      } else if f.Atom? {
        WrittenAtom(f.id);
        assert n.expr == Itoa(f.id) && f.id in Ids(f);
      }
    }
  }

  /** The queue after one step of the search holds only nodes of `root` when it did before. */
  lemma NextInside(buf: seq<Node>, i: nat, root: Node)
    requires i < |buf| && forall k :: 0 <= k < |buf| ==> Nodes(buf[k]) <= Nodes(root)
    ensures forall k :: 0 <= k < |Next(buf, i)| ==> Nodes(Next(buf, i)[k]) <= Nodes(root)
  {
    var n := buf[i];
    assert n in Nodes(n);
    var next := Next(buf, i);
    if n.children != [] {
      var start := if IsFailNode(n) then i + 1 else |buf|;
      assert next == buf[..start] + n.children;
      forall k | 0 <= k < |next| ensures Nodes(next[k]) <= Nodes(root) {
        if k < start {
          assert next[k] == buf[k];
        } else {
          assert next[k] == n.children[k - start];
          NodesAllHas(n.children, k - start);
        }
      }
    }
  }

  /** The breadth-first search fails only on a leaf whose text is no `int`. */
  lemma {:induction false} BlameFromOk(buf: seq<Node>, i: nat, root: Node)
    requires i <= |buf| && forall k :: 0 <= k < |buf| ==> Nodes(buf[k]) <= Nodes(root)
    requires forall n :: n in Nodes(root) && n.leaf ==> Atoi(n.expr).Ok?
    ensures BlameFrom(buf, i).Ok?
    decreases SizeAll(buf[i..])
  {
    if i < |buf| {
      assert buf[i] in Nodes(buf[i]);
      if !(buf[i].leaf && IsFailNode(buf[i])) {
        var next := Next(buf, i);
        NextInside(buf, i, root);
        NextShrinks(buf, i);
        BlameFromOk(next, i + 1, root);
      }
    }
  }

  // ---------------------------------------------------------------------------------------
  // calculateExpressionByTree
  // ---------------------------------------------------------------------------------------

  /** The search over the evaluated tree of `f` succeeds, and blames at most one id: a rule of
      `f` at a blamed leaf whose value differs from the one its position requires. */
  lemma BlameDone(f: Formula, values: map<int, bool>)
    requires Ids(f) <= values.Keys && IdsInRange(f)
    ensures Blame(Done(f, true, true, values)).Ok?
    ensures var ids := Blame(Done(f, true, true, values)).value;
      |ids| <= 1 && forall id :: id in ids ==> id in Ids(f) && BlamedLeaf(Done(f, true, true, values), id, values)
  {
    var d := Done(f, true, true, values);
    DoneLeaves(f, true, true, values);
    LeavesRead(f, d, values);
    BlameFromOk([d], 0, d);
    BlamedRule(f, d, values);
  }

  /** What the search blames in a tree whose leaves hold rules of `f`: at most one id, a rule
      of `f` at a blamed leaf whose value differs from the one its position requires. */
  lemma BlamedRule(f: Formula, d: Node, values: map<int, bool>)
    requires IdsInRange(f) && (forall n :: n in Nodes(d) ==> RuleLeaf(n, f, values)) && Blame(d).Ok?
    ensures var ids := Blame(d).value;
      |ids| <= 1 && forall id :: id in ids ==> id in Ids(f) && BlamedLeaf(d, id, values)
  {
    var ids := Blame(d).value;
    if ids != [] {
      BlameSound(d);
      var n :| n in Nodes(d) && n.leaf && IsFailNode(n) && Atoi(n.expr) == Ok(ids[0]);
      var id := LeafRule(n, f, values);
      assert ids == [id];
    }
  }

  /** Every leaf of a tree whose leaves hold rules of `f` reads back as a number. */
  lemma LeavesRead(f: Formula, d: Node, values: map<int, bool>)
    requires IdsInRange(f) && forall n :: n in Nodes(d) ==> RuleLeaf(n, f, values)
    ensures forall n :: n in Nodes(d) && n.leaf ==> Atoi(n.expr).Ok?
  {
    forall n | n in Nodes(d) && n.leaf ensures Atoi(n.expr).Ok? {
      var id := LeafRule(n, f, values);
    }
  }

  /** A leaf that holds a rule of `f` reads back as that rule's id. */
  lemma LeafRule(n: Node, f: Formula, values: map<int, bool>) returns (id: int)
    requires IdsInRange(f) && n.leaf && RuleLeaf(n, f, values)
    ensures id in Ids(f) && id in values && n.expr == Itoa(id) && n.val == values[id] && Atoi(n.expr) == Ok(id)
  {
    id :| id in Ids(f) && id in values && n.expr == Itoa(id) && n.val == values[id];
    AtoiItoa(id);
  }

  /** A blamed leaf of the tree `root` holds rule `id` and has a value other than the one its
      position requires. */
  predicate BlamedLeaf(root: Node, id: int, values: map<int, bool>) {
    id in values && exists n :: n in Nodes(root) && n.leaf && n.blamed && n.expr == Itoa(id) && n.should != values[id]
  }

  /** `calculateExpressionByTree` once the tree is built and evaluated without error. */
  lemma ByTreeOf(logic: string, t: Node, d: Node, values: map<int, bool>)
    requires TreeOf(logic) == Ok(Some(t)) && Calc(t, values) == Ok((d, None)) && d.computed
    requires Blame(d).Ok?
    ensures ByTree(logic, values) == Ok((d.val, if d.val then [] else Blame(d).value))
  {
  }

  /** `calculateExpressionByTree` on the normalised text of `f` succeeds with the standard value
      of `f`; a true verdict blames nobody, and a blamed id is a rule of `f` at a blamed leaf
      whose value differs from the one its position requires. */
  lemma ByTreeWritten(f: Formula, values: map<int, bool>)
    requires WellBracketed(f) && !f.Group? && Ids(f) <= values.Keys && IdsInRange(f)
    ensures ByTree(Written(f), values).Ok?
    ensures ByTree(Written(f), values).value.0 == Eval(f, values)
    ensures var ids := ByTree(Written(f), values).value.1;
      |ids| <= 1 && (Eval(f, values) ==> ids == [])
    ensures forall id :: id in ByTree(Written(f), values).value.1 ==>
      id in Ids(f) && BlamedLeaf(Done(f, true, true, values), id, values)
  {
    var d := Done(f, true, true, values);
    TreeOfWritten(f);
    CalcShape(f, true, true, values);
    BlameDone(f, values);
    ByTreeOf(Written(f), Shape(f, true, true), d, values);
  }

  /** On normalised text that is not one bracket pair as a whole, the tree evaluator and the
      stack evaluator of rule_logic.go agree. */
  lemma EvaluatorsAgree(f: Formula, values: map<int, bool>)
    requires WellBracketed(f) && !f.Group? && Ids(f) <= values.Keys && IdsInRange(f)
    ensures ByTree(Written(f), values).Ok? && RuleLogic.Calculate(Written(f), values) == Ok(ByTree(Written(f), values).value.0)
  {
    ByTreeWritten(f, values);
    CalculateWritten(f, values);
  }
}
