/** How the tree evaluator of tree.go treats text beyond the theorems of `TreeProof`: a text
    that is one bracket pair as a whole, a doubled `not`, and the worked example
    `( 1 and ( ( 2 and 3 ) or ( 2 and 4 and 5 ) or not 2 ) ) or not 1`. */
module TreeEdges {
  import opened Wrappers
  import opened Text
  import opened Formula
  import opened Tree
  import opened TreeFacts
  import opened Canonical
  import opened Pieces
  import opened Chains
  import opened TreeProof
  import RuleLogic
  import RuleLogicProof
  import RuleLogicEdges

  // ---------------------------------------------------------------------------------------
  // Spelling out the normalised text of small formulas
  // ---------------------------------------------------------------------------------------

  lemma Leaf(n: nat, k: nat)
    requires 1 <= n <= 5 && k <= 3
    ensures Placed(Atom(n), k) == Written(Atom(n)) == [DigitChar(n)]
  {
    PlacedText(Atom(n), k);
    WrittenAtom(n);
  }

  /** `f` placed at level `k`, given its text, when it needs no brackets there. */
  lemma Unbracketed(f: Formula, k: nat, s: string)
    requires Level(f) >= k && Written(f) == s
    ensures Placed(f, k) == s
  {
    PlacedText(f, k);
  }

  lemma PlacedInBrackets(f: Formula, k: nat, s: string)
    requires Level(f) < k && Written(f) == s
    ensures Placed(f, k) == "( " + s + " )"
  {
    PlacedText(f, k);
  }

  lemma InfixText(f: Formula, a: Formula, w: string, b: Formula, ka: nat, kb: nat, sa: string, sb: string)
    requires (f == And(a, b) && w == "and" && ka == 1 && kb == 2)
          || (f == Or(a, b) && w == "or" && ka == 0 && kb == 1)
    requires Placed(a, ka) == sa && Placed(b, kb) == sb
    ensures Written(f) == sa + " " + w + " " + sb
  {
    WrittenInfix(f, a, w, b, ka, kb);
  }

  lemma GroupText(a: Formula, s: string)
    requires Written(a) == s
    ensures Written(Group(a)) == "( " + s + " )"
  {
    WrittenGroup(a);
  }

  lemma NotText(a: Formula, s: string)
    requires Placed(a, 3) == s
    ensures Written(Not(a)) == "not " + s
  {
    WrittenNot(a);
  }

  /** `x` is an id written as the digit `c`. */
  predicate Digit(x: Formula, c: string) {
    x.Atom? && Written(x) == c
  }

  lemma DigitPlaced(x: Formula, c: string, k: nat)
    requires Digit(x, c) && k <= 3
    ensures Placed(x, k) == c
  {
    PlacedText(x, k);
  }

  lemma TextAnd245(x2: Formula, x4: Formula, x5: Formula)
    requires Digit(x2, "2") && Digit(x4, "4") && Digit(x5, "5")
    ensures Written(Group(And(And(x2, x4), x5))) == "( 2 and 4 and 5 )"
  {
    DigitPlaced(x2, "2", 1); DigitPlaced(x4, "4", 2); DigitPlaced(x5, "5", 2);
    var a24 := And(x2, x4);
    InfixText(a24, x2, "and", x4, 1, 2, "2", "4");
    Unbracketed(a24, 1, "2 and 4");
    InfixText(And(a24, x5), a24, "and", x5, 1, 2, "2 and 4", "5");
    GroupText(And(a24, x5), "2 and 4 and 5");
  }

  lemma TextAnd23(x2: Formula, x3: Formula)
    requires Digit(x2, "2") && Digit(x3, "3")
    ensures Written(Group(And(x2, x3))) == "( 2 and 3 )"
  {
    DigitPlaced(x2, "2", 1); DigitPlaced(x3, "3", 2);
    InfixText(And(x2, x3), x2, "and", x3, 1, 2, "2", "3");
    GroupText(And(x2, x3), "2 and 3");
  }

  lemma TextInner(x2: Formula, x3: Formula, x4: Formula, x5: Formula)
    requires Digit(x2, "2") && Digit(x3, "3") && Digit(x4, "4") && Digit(x5, "5")
    ensures Written(Or(Or(Group(And(x2, x3)), Group(And(And(x2, x4), x5))), Not(x2)))
         == "( 2 and 3 ) or ( 2 and 4 and 5 ) or not 2"
  {
    var g23, g245 := Group(And(x2, x3)), Group(And(And(x2, x4), x5));
    TextAnd23(x2, x3);
    TextAnd245(x2, x4, x5);
    Unbracketed(g23, 0, "( 2 and 3 )");
    Unbracketed(g245, 1, "( 2 and 4 and 5 )");
    var o1 := Or(g23, g245);
    var s1 := "( 2 and 3 ) or ( 2 and 4 and 5 )";
    InfixText(o1, g23, "or", g245, 0, 1, "( 2 and 3 )", "( 2 and 4 and 5 )");
    Unbracketed(o1, 0, s1);
    DigitPlaced(x2, "2", 3);
    NotText(x2, "2");
    Unbracketed(Not(x2), 1, "not 2");
    InfixText(Or(o1, Not(x2)), o1, "or", Not(x2), 0, 1, s1, "not 2");
  }

  lemma TextAnd1(x1: Formula, o2: Formula, s2: string)
    requires Digit(x1, "1") && o2.Or? && Written(o2) == s2
    ensures Written(And(x1, o2)) == "1 and ( " + s2 + " )"
  {
    PlacedInBrackets(o2, 2, s2);
    DigitPlaced(x1, "1", 1);
    InfixText(And(x1, o2), x1, "and", o2, 1, 2, "1", "( " + s2 + " )");
  }

  lemma TextOrNot1(g: Formula, x1: Formula, sg: string)
    requires Digit(x1, "1") && g.Group? && Written(g) == sg
    ensures Written(Or(g, Not(x1))) == sg + " or not 1"
  {
    Unbracketed(g, 0, sg);
    DigitPlaced(x1, "1", 3);
    NotText(x1, "1");
    Unbracketed(Not(x1), 1, "not 1");
    InfixText(Or(g, Not(x1)), g, "or", Not(x1), 0, 1, sg, "not 1");
  }

  lemma Halves()
    ensures "( 1 and ( ( 2 and 3 ) or ( 2 and 4 and 5 ) or not 2 ) ) or not 1"
         == "( 1 and ( ( 2 and 3 ) or ( 2 " + "and 4 and 5 ) or not 2 ) ) or not 1"
  {
  }

  lemma Quarters()
    ensures "( 1 and ( ( 2 and 3 ) or ( 2 " == "( 1 and ( " + "( 2 and 3 ) or ( 2 "
    ensures "and 4 and 5 ) or not 2 ) ) or not 1" == "and 4 and 5 ) or not 2" + " ) ) or not 1"
  {
  }

  lemma InnerHalves()
    ensures "( 2 and 3 ) or ( 2 and 4 and 5 ) or not 2" == "( 2 and 3 ) or ( 2 " + "and 4 and 5 ) or not 2"
  {
  }

  lemma Outer(s: string)
    ensures "( " + ("1 and ( " + s + " )") + " )" + " or not 1" == "( 1 and ( " + s + " ) ) or not 1"
  {
    assert "( " + "1 and ( " == "( 1 and ( ";
    assert " )" + " )" + " or not 1" == " ) ) or not 1";
  }

  lemma Regroup(x: string, q1: string, q2: string, y: string)
    ensures x + (q1 + q2) + y == (x + q1) + (q2 + y)
  {
  }

  lemma Spelled()
    ensures "( " + ("1 and ( " + "( 2 and 3 ) or ( 2 and 4 and 5 ) or not 2" + " )") + " )" + " or not 1"
         == "( 1 and ( ( 2 and 3 ) or ( 2 and 4 and 5 ) or not 2 ) ) or not 1"
  {
    Halves();
    Quarters();
    InnerHalves();
    Outer("( 2 and 3 ) or ( 2 and 4 and 5 ) or not 2");
    Regroup("( 1 and ( ", "( 2 and 3 ) or ( 2 ", "and 4 and 5 ) or not 2", " ) ) or not 1");
  }

  lemma TextOf(x1: Formula, x2: Formula, x3: Formula, x4: Formula, x5: Formula)
    requires Digit(x1, "1") && Digit(x2, "2") && Digit(x3, "3") && Digit(x4, "4") && Digit(x5, "5")
    ensures Written(Or(Group(And(x1, Or(Or(Group(And(x2, x3)), Group(And(And(x2, x4), x5))), Not(x2)))), Not(x1)))
         == "( 1 and ( ( 2 and 3 ) or ( 2 and 4 and 5 ) or not 2 ) ) or not 1"
  {
    var s2 := "( 2 and 3 ) or ( 2 and 4 and 5 ) or not 2";
    var o2 := Or(Or(Group(And(x2, x3)), Group(And(And(x2, x4), x5))), Not(x2));
    TextInner(x2, x3, x4, x5);
    TextAnd1(x1, o2, s2);
    var s3 := "1 and ( " + s2 + " )";
    GroupText(And(x1, o2), s3);
    TextOrNot1(Group(And(x1, o2)), x1, "( " + s3 + " )");
    Spelled();
  }

  // ---------------------------------------------------------------------------------------
  // The worked example, node by node
  // ---------------------------------------------------------------------------------------

  /** The node `Done` gives a formula, field by field. */
  lemma DoneNode(g: Formula, should: bool, blamed: bool, values: map<int, bool>)
    requires Ids(g) <= values.Keys
    ensures var d := Done(g, should, blamed, values);
      && d.val == Eval(g, values) && d.computed && d.should == should && d.blamed == blamed
      && d.leaf == g.Atom? && d.expr == Written(g) && |d.children| == |Operands(g)|
      && forall j :: 0 <= j < |d.children| ==>
           d.children[j] == Done(Operands(g)[j], ChildShould(OpName(g), should), ChildBlamed(OpName(g), j == 0, blamed), values)
  {
    LeafAtom(g);
  }

  lemma Step(buf: seq<Node>, i: nat)
    requires i < |buf| && !(buf[i].leaf && IsFailNode(buf[i]))
    ensures BlameFrom(buf, i) == BlameFrom(Next(buf, i), i + 1)
  {
  }

  /** The breadth-first search down the failing first operands of the worked example. */
  lemma {:induction false} Trace(r: Node, c0: Node, c1: Node, l1: Node, g: Node, a: Node, b: Node, n: Node, l2: Node, l3: Node)
    requires !r.leaf && IsFailNode(r) && r.children == [c0, c1]
    requires !c0.leaf && IsFailNode(c0) && c0.children == [l1, g]
    requires l1.leaf && !IsFailNode(l1) && l1.children == []
    requires !g.leaf && IsFailNode(g) && g.children == [a, b, n]
    requires !a.leaf && IsFailNode(a) && a.children == [l2, l3]
    requires l2.leaf && !IsFailNode(l2) && l2.children == []
    requires l3.leaf && IsFailNode(l3) && Atoi(l3.expr) == Ok(3)
    ensures Blame(r) == Ok([3])
  {
    Step([r], 0);
    assert Next([r], 0) == [r, c0, c1];
    Step([r, c0, c1], 1);
    assert Next([r, c0, c1], 1) == [r, c0, l1, g];
    Step([r, c0, l1, g], 2);
    TraceDown(r, c0, l1, g, a, b, n, l2, l3);
  }

  /** The search below the second operand `g`, once it is fourth in the queue. */
  lemma TraceDown(p0: Node, p1: Node, p2: Node, g: Node, a: Node, b: Node, n: Node, l2: Node, l3: Node)
    requires !g.leaf && IsFailNode(g) && g.children == [a, b, n]
    requires !a.leaf && IsFailNode(a) && a.children == [l2, l3]
    requires l2.leaf && !IsFailNode(l2) && l2.children == []
    requires l3.leaf && IsFailNode(l3) && Atoi(l3.expr) == Ok(3)
    ensures BlameFrom([p0, p1, p2, g], 3) == Ok([3])
  {
    Step([p0, p1, p2, g], 3);
    assert Next([p0, p1, p2, g], 3) == [p0, p1, p2, g, a, b, n];
    Step([p0, p1, p2, g, a, b, n], 4);
    assert Next([p0, p1, p2, g, a, b, n], 4) == [p0, p1, p2, g, a, l2, l3];
    Step([p0, p1, p2, g, a, l2, l3], 5);
  }

  const Worked: map<int, bool> := map[1 := true, 2 := true, 3 := false, 4 := false, 5 := false]

  /** `( a1 ) or not x1`: the bracket pair is dropped from the first operand, which alone is blamed. */
  lemma RootKids(a1: Formula, x1: Formula, values: map<int, bool>)
    requires a1.And? && x1.Atom? && Ids(a1) <= values.Keys && Ids(x1) <= values.Keys
    requires !Eval(Or(Group(a1), Not(x1)), values)
    ensures var d := Done(Or(Group(a1), Not(x1)), true, true, values);
      !d.leaf && IsFailNode(d) && d.children == [Done(a1, true, true, values), Done(Not(x1), true, false, values)]
  {
    var f := Or(Group(a1), Not(x1));
    assert Kids(Group(a1), "or") == [a1];
    assert Operands(f) == [a1, Not(x1)];
    DoneNode(f, true, true, values);
  }

  /** `x1 and o2`: both operands inherit the requirement and the blame. */
  lemma AndKids(x1: Formula, o2: Formula, values: map<int, bool>)
    requires !x1.And? && !x1.Group? && !o2.Group? && Ids(x1) <= values.Keys && Ids(o2) <= values.Keys
    requires !Eval(And(x1, o2), values)
    ensures var d := Done(And(x1, o2), true, true, values);
      !d.leaf && IsFailNode(d) && d.children == [Done(x1, true, true, values), Done(o2, true, true, values)]
  {
    var f := And(x1, o2);
    assert Kids(x1, "and") == [x1];
    assert Operands(f) == [x1, o2];
    DoneNode(f, true, true, values);
  }

  /** `( a ) or ( b ) or n`: three operands, only the first blamed. */
  lemma OrKids(a: Formula, b: Formula, n: Formula, values: map<int, bool>)
    requires !n.Group? && Ids(a) <= values.Keys && Ids(b) <= values.Keys && Ids(n) <= values.Keys
    requires Ids(Or(Or(Group(a), Group(b)), n)) <= values.Keys
    requires !Eval(Or(Or(Group(a), Group(b)), n), values)
    ensures var d := Done(Or(Or(Group(a), Group(b)), n), true, true, values);
      !d.leaf && IsFailNode(d)
      && d.children == [Done(a, true, true, values), Done(b, true, false, values), Done(n, true, false, values)]
  {
    var f := Or(Or(Group(a), Group(b)), n);
    OrOperands(a, b, n);
    DoneNode(f, true, true, values);
    var d := Done(f, true, true, values);
    assert d.children[0] == Done(a, true, true, values);
    assert d.children[1] == Done(b, true, false, values);
    assert d.children[2] == Done(n, true, false, values);
  }

  /** The operands of `( a ) or ( b ) or n`. */
  lemma OrOperands(a: Formula, b: Formula, n: Formula)
    requires !n.Group?
    ensures Operands(Or(Or(Group(a), Group(b)), n)) == [a, b, n]
  {
    assert Kids(Group(a), "or") == [a];
    assert Kids(Or(Group(a), Group(b)), "or") == [a, b];
  }

  /** A blamed leaf that must hold, with its verdict. */
  lemma LeafNode(x: Formula, values: map<int, bool>)
    requires x.Atom? && x.id in values
    ensures var d := Done(x, true, true, values);
      d.leaf && d.children == [] && IsFailNode(d) == !values[x.id] && d.expr == Itoa(x.id)
  {
    DoneNode(x, true, true, values);
    WrittenAtom(x.id);
  }

  /** The blame search over the evaluated tree of the worked example, stated over its
      subformulas so that none of them is unfolded. */
  lemma {:induction false} BlameParts(f: Formula, a1: Formula, o2: Formula, a23: Formula, a245: Formula, n2: Formula,
                   x1: Formula, x2: Formula, x3: Formula, values: map<int, bool>)
    requires x1.Atom? && x2.Atom? && x3.Atom? && x3.id == 3 && !n2.Group?
    requires Ids(x1) <= values.Keys && Ids(x2) <= values.Keys && Ids(x3) <= values.Keys
    requires Ids(a245) <= values.Keys && Ids(n2) <= values.Keys
    requires a23 == And(x2, x3) && o2 == Or(Or(Group(a23), Group(a245)), n2)
    requires a1 == And(x1, o2) && f == Or(Group(a1), Not(x1))
    requires Ids(f) <= values.Keys && Ids(a1) <= values.Keys && Ids(o2) <= values.Keys && Ids(a23) <= values.Keys
    requires !Eval(f, values) && !Eval(a1, values) && !Eval(o2, values) && !Eval(a23, values)
    requires values[x1.id] && values[x2.id] && !values[x3.id]
    ensures Blame(Done(f, true, true, values)) == Ok([3])
  {
    RootKids(a1, x1, values);
    AndKids(x1, o2, values);
    OrKids(a23, a245, n2, values);
    AndKids(x2, x3, values);
    LeafNode(x1, values);
    LeafNode(x2, values);
    LeafNode(x3, values);
    AtoiItoa(3);
    Trace(Done(f, true, true, values), Done(a1, true, true, values), Done(Not(x1), true, false, values),
          Done(x1, true, true, values), Done(o2, true, true, values),
          Done(a23, true, true, values), Done(a245, true, false, values), Done(n2, true, false, values),
          Done(x2, true, true, values), Done(x3, true, true, values));
  }

  /** The values of the worked example's subformulas under `Worked`. */
  lemma WorkedValues(x1: Formula, x2: Formula, x3: Formula, x4: Formula, x5: Formula, values: map<int, bool>)
    requires x1 == Atom(1) && x2 == Atom(2) && x3 == Atom(3) && x4 == Atom(4) && x5 == Atom(5)
    requires values == Worked
    ensures var a23, a245, n2 := And(x2, x3), And(And(x2, x4), x5), Not(x2);
      var o2 := Or(Or(Group(a23), Group(a245)), n2);
      var a1 := And(x1, o2);
      var f := Or(Group(a1), Not(x1));
      && Ids(f) <= values.Keys && Ids(a1) <= values.Keys && Ids(o2) <= values.Keys && Ids(a23) <= values.Keys
      && Ids(a245) <= values.Keys && Ids(n2) <= values.Keys
      && !Eval(f, values) && !Eval(a1, values) && !Eval(o2, values) && !Eval(a23, values)
      && WellBracketed(f) && RuleLogicProof.IdsInRange(f)
  {
    WorkedIds();
    WorkedEval();
    WorkedShape();
  }

  /** Every id of the worked example has a value in `Worked`. */
  lemma WorkedIds()
    ensures Worked.Keys == {1, 2, 3, 4, 5}
    ensures Ids(Or(Group(And(Atom(1), Or(Or(Group(And(Atom(2), Atom(3))), Group(And(And(Atom(2), Atom(4)), Atom(5)))),
                                        Not(Atom(2))))), Not(Atom(1)))) <= {1, 2, 3, 4, 5}
  {
  }

  /** Under `Worked` the whole text, its first disjunct, the disjunction inside it and that
      disjunction's first operand are false. */
  lemma WorkedEval()
    ensures var a23, a245, n2 := And(Atom(2), Atom(3)), And(And(Atom(2), Atom(4)), Atom(5)), Not(Atom(2));
      var o2 := Or(Or(Group(a23), Group(a245)), n2);
      var a1 := And(Atom(1), o2);
      !Eval(Or(Group(a1), Not(Atom(1))), Worked) && !Eval(a1, Worked) && !Eval(o2, Worked) && !Eval(a23, Worked)
  {
  }

  lemma WorkedShape()
    ensures var f := Or(Group(And(Atom(1), Or(Or(Group(And(Atom(2), Atom(3))), Group(And(And(Atom(2), Atom(4)), Atom(5)))),
                                                Not(Atom(2))))), Not(Atom(1)));
      WellBracketed(f) && RuleLogicProof.IdsInRange(f)
  {
  }

  /** The worked example over five atoms whose values are those of `Worked`: the tree evaluator
      gives false and blames rule 3 alone, the first failing leaf inside the first disjunct. */
  lemma {:induction false} WorkedTree(f: Formula, a1: Formula, o2: Formula, a23: Formula, a245: Formula, n2: Formula,
                                      x1: Formula, x2: Formula, x3: Formula, values: map<int, bool>)
    requires x1.Atom? && x2.Atom? && x3.Atom? && x3.id == 3 && !n2.Group?
    requires Ids(x1) <= values.Keys && Ids(x2) <= values.Keys && Ids(x3) <= values.Keys
    requires Ids(a245) <= values.Keys && Ids(n2) <= values.Keys
    requires a23 == And(x2, x3) && o2 == Or(Or(Group(a23), Group(a245)), n2)
    requires a1 == And(x1, o2) && f == Or(Group(a1), Not(x1))
    requires Ids(f) <= values.Keys && Ids(a1) <= values.Keys && Ids(o2) <= values.Keys && Ids(a23) <= values.Keys
    requires !Eval(f, values) && !Eval(a1, values) && !Eval(o2, values) && !Eval(a23, values)
    requires values[x1.id] && values[x2.id] && !values[x3.id]
    requires WellBracketed(f) && RuleLogicProof.IdsInRange(f)
    ensures ByTree(Written(f), values) == Ok((false, [3])) && RuleLogic.Calculate(Written(f), values) == Ok(false)
  {
    BlameParts(f, a1, o2, a23, a245, n2, x1, x2, x3, values);
    TreeOfWritten(f);
    CalcShape(f, true, true, values);
    ByTreeOf(Written(f), Shape(f, true, true), Done(f, true, true, values), values);
    RuleLogicProof.CalculateWritten(f, values);
  }

  /** A worked example: rules 1 and 2 hold, 3, 4 and 5 fail. Both evaluators give false, and
      the tree evaluator blames rule 3 alone. */
  lemma WorkedCheck()
    ensures ByTree("( 1 and ( ( 2 and 3 ) or ( 2 and 4 and 5 ) or not 2 ) ) or not 1", Worked) == Ok((false, [3]))
    ensures RuleLogic.Calculate("( 1 and ( ( 2 and 3 ) or ( 2 and 4 and 5 ) or not 2 ) ) or not 1", Worked) == Ok(false)
  {
    var x1, x2, x3, x4, x5 := Atom(1), Atom(2), Atom(3), Atom(4), Atom(5);
    var a23, a245, n2 := And(x2, x3), And(And(x2, x4), x5), Not(x2);
    var o2 := Or(Or(Group(a23), Group(a245)), n2);
    var a1 := And(x1, o2);
    var f := Or(Group(a1), Not(x1));
    Leaf(1, 0); Leaf(2, 0); Leaf(3, 0); Leaf(4, 0); Leaf(5, 0);
    TextOf(x1, x2, x3, x4, x5);
    WorkedValues(x1, x2, x3, x4, x5, Worked);
    WorkedTree(f, a1, o2, a23, a245, n2, x1, x2, x3, Worked);
  }

  // ---------------------------------------------------------------------------------------
  // Texts outside the tree theorems
  // ---------------------------------------------------------------------------------------

  /** A text that is one bracket pair as a whole: `splitExprToChildren` elides the pair into a
      single key and finds no operator, so the root is a childless non-leaf and the post-order
      pass takes `Children[0]` of an empty list. */
  lemma WholeGroupPanics(a: Formula, values: map<int, bool>)
    ensures ByTree(Written(Group(a)), values) == Fail(ChildPanic)
  {
    var t := Written(Group(a));
    WrittenGroup(a);
    assert t[0] == '(' && |t| >= 4;
    SplitGroup(a, true, true);
    var root := Fresh(t, true, true);
    assert Propagate(root, |t|) == Ok(root);
    assert TreeOf(t) == Ok(Some(root));
    assert !IsLeaf(t) by { assert !IsDigit(t[0]); }
    assert Calc(root, values) == Fail(ChildPanic);
  }

  /** The stack evaluator reads the same text as the bracketed expression, so on it the two
      evaluators disagree. */
  lemma WholeGroupDisagree(a: Formula, values: map<int, bool>)
    requires WellBracketed(Group(a)) && Ids(a) <= values.Keys && RuleLogicProof.IdsInRange(Group(a))
    ensures ByTree(Written(Group(a)), values) == Fail(ChildPanic)
    ensures RuleLogic.Calculate(Written(Group(a)), values) == Ok(Eval(a, values))
  {
    WholeGroupPanics(a, values);
    RuleLogicProof.CalculateWritten(Group(a), values);
  }

  /** `( 1 or 2 )`: the tree evaluator panics where the stack evaluator returns `v1 || v2`. */
  lemma BracketedPair(values: map<int, bool>)
    requires 1 in values && 2 in values
    ensures ByTree("( 1 or 2 )", values) == Fail(ChildPanic)
    ensures RuleLogic.Calculate("( 1 or 2 )", values) == Ok(values[1] || values[2])
  {
    Leaf(1, 0); Leaf(2, 0);
    PairText(Atom(1), Atom(2));
    PairDisagree(Atom(1), Atom(2), values);
  }

  lemma PairText(x1: Formula, x2: Formula)
    requires Digit(x1, "1") && Digit(x2, "2")
    ensures Written(Group(Or(x1, x2))) == "( 1 or 2 )"
  {
    DigitPlaced(x1, "1", 0);
    DigitPlaced(x2, "2", 1);
    InfixText(Or(x1, x2), x1, "or", x2, 0, 1, "1", "2");
    GroupText(Or(x1, x2), "1 or 2");
  }

  lemma PairDisagree(x1: Formula, x2: Formula, values: map<int, bool>)
    requires x1 == Atom(1) && x2 == Atom(2) && 1 in values && 2 in values
    ensures ByTree(Written(Group(Or(x1, x2))), values) == Fail(ChildPanic)
    ensures RuleLogic.Calculate(Written(Group(Or(x1, x2))), values) == Ok(values[1] || values[2])
  {
    assert Ids(Or(x1, x2)) == {1, 2};
    WholeGroupDisagree(Or(x1, x2), values);
  }

  /** `not not n`: the split on `not ` yields an empty piece between the two words, which becomes
      a childless non-leaf child, so the tree evaluator panics like the stack evaluator. */
  lemma DoubleNotPanics(n: nat, values: map<int, bool>)
    ensures ByTree("not not " + Itoa(n), values) == Fail(ChildPanic)
    ensures RuleLogic.Calculate("not not " + Itoa(n), values).IsPanic()
  {
    var s := "not not " + Itoa(n);
    var c := Fresh("", false, true);
    DoubleNotSplit(n);
    EmptyChild(|s| - 1, values);
    PropagateAllOk([c], |s| - 1, [c]);
    var root := Fresh(s, true, true).(childrenOp := "not", children := [c]);
    assert Propagate(Fresh(s, true, true), |s|) == Ok(root);
    assert TreeOf(s) == Ok(Some(root));
    assert CalcAll([c], values) == Fail(ChildPanic) by {
      assert [c][..0] == [];
    }
    RuleLogicEdges.DoubleNot(n, values);
  }

  /** The root of `not not n` gets one child, the empty text between the two words. */
  lemma DoubleNotSplit(n: nat)
    ensures SplitExpr("not not " + Itoa(n), true, true) == Ok(("not", [Fresh("", false, true)]))
  {
    var s := "not not " + Itoa(n);
    DoubleNotText(n);
    AtOnceWithoutOpen(s, []);
    assert " " + "or" + " " == " or " && " " + "and" + " " == " and ";
    NotSplit(s, Itoa(n));
    assert Ship([""], [], "not", true, true) == [Fresh("", false, true)];
  }

  /** `not not n` holds no bracket and neither of the two separators. */
  lemma DoubleNotText(n: nat)
    ensures var s := "not not " + Itoa(n);
      BracketFree(s) && Index(s, " or ") == None && Index(s, " and ") == None
  {
    var s := "not not " + Itoa(n);
    var ts := ["not", "not", Itoa(n)];
    RuleLogicEdges.NumeralSpaceFree(n);
    RuleLogicEdges.WordsNotDigits();
    assert Join(ts, " ") == s by {
      assert ts[1..][1..] == [Itoa(n)];
      assert Join(ts[1..], " ") == "not " + Itoa(n);
    }
    assert BracketFree(s) by {
      forall k | 0 <= k < |s| ensures !IsBracket(s[k]) {
        if k >= 8 {
          assert s[k] == Itoa(n)[k - 8];
        }
      }
    }
    assert Itoa(n) != "or" && Itoa(n) != "and" by {
      assert IsDigit(Itoa(n)[0]);
    }
    NoSeparator(ts, "or");
    NoSeparator(ts, "and");
    assert " " + "or" + " " == " or " && " " + "and" + " " == " and ";
  }

  lemma NotSplit(s: string, t: string)
    requires s == "not not " + t
    ensures Split(s, "not ")[1] == "" && |Split(s, "not ")| > 1
  {
    var rest := "not " + t;
    IndexIs(s, "not ", 0);
    SplitAt(s, "not ", 0);
    assert s[4..] == rest;
    IndexIs(rest, "not ", 0);
    SplitAt(rest, "not ", 0);
  }

  /** A fresh node over the empty text is a non-leaf that no split expands and whose evaluation
      panics. */
  lemma EmptyChild(fuel: nat, values: map<int, bool>)
    ensures Propagate(Fresh("", false, true), fuel) == Ok(Fresh("", false, true))
    ensures Calc(Fresh("", false, true), values) == Fail(ChildPanic)
  {
    AtOnceWithoutOpen("", []);
    assert SplitExpr("", false, true) == Ok(("", []));
  }
}
