/** How `splitExprToChildren` of tree.go splits the normalised text of a formula: on the
    formula's own operator, into one piece per operand of its left-leaning `or`/`and` chain (the
    one operand of a `not`), each piece expanding back to the normalised text of its operand. */
module Chains {
  import opened Wrappers
  import opened Text
  import opened Formula
  import opened Tree
  import opened Canonical
  import opened Pieces

  /** `f` is a binary `op` at the top. */
  predicate IsOp(f: Formula, op: string) {
    (op == "or" && f.Or?) || (op == "and" && f.And?)
  }

  /** The levels the grammar expects left and right of `op`. */
  function LK(op: string): nat { if op == "or" then 0 else 1 }

  function RK(op: string): nat { if op == "or" then 1 else 2 }

  /** The operands of the left-leaning chain of `op` at the top of `f`, each without a redundant
      bracket pair around it: `a or b or c` is `Or(Or(a, b), c)` and has the operands `a`, `b`,
      `c`, and `( a or b ) or c` has the operands `a or b` and `c`. */
  function Kids(f: Formula, op: string): (r: seq<Formula>)
    ensures |r| > 0
    ensures IsOp(f, op) ==> |r| >= 2 && forall j :: 0 <= j < |r| ==> FSize(r[j]) < FSize(f)
    ensures !IsOp(f, op) ==> r == [Strip(f)]
    ensures forall j :: 0 <= j < |r| ==> Ids(r[j]) <= Ids(f)
  {
    if IsOp(f, op) then Kids(f.left, op) + [Strip(f.right)] else [Strip(f)]
  }

  /** The operands of a chain in a well-bracketed formula are well bracketed and unbracketed. */
  lemma {:induction false} KidsWellBracketed(f: Formula, op: string)
    requires WellBracketed(f)
    ensures forall j :: 0 <= j < |Kids(f, op)| ==> WellBracketed(Kids(f, op)[j]) && !Kids(f, op)[j].Group?
  {
    if IsOp(f, op) {
      KidsWellBracketed(f.left, op);
      StripWellBracketed(f.right);
    } else {
      StripWellBracketed(f);
    }
  }

  /** The pieces `ps` expand, under the table, to the texts of the formulas `kids`. */
  predicate Spells(ps: seq<string>, table: seq<string>, kids: seq<Formula>) {
    |ps| == |kids| && forall j :: 0 <= j < |ps| ==> Expand(ps[j], table, 0) == Written(kids[j])
  }

  lemma SpellsAppend(ps: seq<string>, p: string, table: seq<string>, kids: seq<Formula>, g: Formula)
    requires Spells(ps, table, kids) && Expand(p, table, 0) == Written(g)
    ensures Spells(ps + [p], table, kids + [g])
  {
  }

  // ---------------------------------------------------------------------------------------
  // The ends of the top level
  // ---------------------------------------------------------------------------------------

  /** An item that can end the text of a formula: a block or a numeral. */
  predicate EndItem(x: Item) { x.Grp? || IsNumeral(x.t) }

  lemma {:induction false} TopEnds(f: Formula)
    ensures |TopItems(f)| > 0 && EndItem(TopItems(f)[|TopItems(f)| - 1])
    decreases f, 0
  {
    match f
    case Atom(n) =>
    case Not(a) => AtEnds(a, 3);
    case And(a, b) => AtEnds(b, 2);
    case Or(a, b) => AtEnds(b, 1);
    case Group(a) =>
  }

  lemma {:induction false} AtEnds(g: Formula, k: nat)
    ensures |At(g, k)| > 0 && EndItem(At(g, k)[|At(g, k)| - 1])
    decreases g, 1
  {
    if Level(g) >= k {
      TopEnds(g);
    }
  }

  /** The text of a formula other than a bracket pair is never one block on its own. */
  lemma TopNotBlock(f: Formula)
    requires !f.Group?
    ensures !(|TopItems(f)| == 1 && TopItems(f)[0].Grp?)
  {
    if f.Not? {
      AtText(f.arg, 3);
    } else if f.And? {
      AtText(f.left, 1);
      AtText(f.right, 2);
    } else if f.Or? {
      AtText(f.left, 0);
      AtText(f.right, 1);
    }
  }

  /** After elision the last token of such items is not an operator word. */
  lemma LastNotOp(xs: seq<Item>, i: nat, op: string)
    requires |xs| > 0 && EndItem(xs[|xs| - 1]) && (op == "or" || op == "and")
    ensures |KeyToks(xs, i)| == |xs| && KeyToks(xs, i)[|xs| - 1] != op
  {
    KeyToksAt(xs, i);
    var t := KeyToks(xs, i)[|xs| - 1];
    if xs[|xs| - 1].Grp? {
      assert t[0] == '#';
    } else {
      assert IsDigit(t[0]);
    }
  }

  /** A word that is no token item of `xs` is no token of its elision either. */
  lemma WordAbsent(xs: seq<Item>, i: nat, w: string)
    requires HashFree(w) && Tok(w) !in xs
    ensures forall m :: 0 <= m < |KeyToks(xs, i)| ==> KeyToks(xs, i)[m] != w
  {
    KeyToksLength(xs, i);
    forall m | 0 <= m < |KeyToks(xs, i)| ensures KeyToks(xs, i)[m] != w {
      if KeyToks(xs, i)[m] == w {
        KeyToksWord(xs, i, w, m);
      }
    }
  }

  lemma OpWord(op: string)
    requires op == "or" || op == "and"
    ensures HashFree(op) && SpaceFree(op) && Plain(op)
  {
  }

  /** The operator of a chain occurs in the operand right of it only inside a block. */
  lemma RightAbsent(g: Formula, op: string)
    requires op == "or" || op == "and"
    ensures Tok(op) !in At(g, RK(op))
  {
    AtWords(g, RK(op));
  }

  /** The operator occurs outside blocks in the left operand only when it continues the chain. */
  lemma LeftAbsent(g: Formula, op: string)
    requires (op == "or" || op == "and") && !IsOp(g, op)
    ensures Tok(op) !in At(g, LK(op))
  {
    AtWords(g, LK(op));
  }

  // ---------------------------------------------------------------------------------------
  // The table
  // ---------------------------------------------------------------------------------------

  lemma HoldsSplit(table: seq<string>, i: nat, x: seq<Item>, y: seq<Item>)
    requires Holds(table, i, x + y)
    ensures Holds(table, i, x) && Holds(table, i + Groups(x), y)
  {
    KeyToksAppend(x, y, 0);
    KeyToksLength(x, 0);
    var tx, ty := Texts(x), Texts(y);
    assert Texts(x + y) == tx + ty;
    forall m | 0 <= m < |tx| ensures table[i + m] == tx[m] {
      assert Texts(x + y)[m] == tx[m];
    }
    forall m | 0 <= m < |ty| ensures table[i + Groups(x) + m] == ty[m] {
      assert Texts(x + y)[|tx| + m] == ty[m];
    }
  }

  /** The piece holding the items of `g` placed at level `k` expands to the text of `g`, without
      the bracket pair when `g` is one. */
  lemma PieceText(g: Formula, k: nat, i: nat, table: seq<string>)
    requires k <= 3 && Holds(table, i, At(g, k)) && TableFree(table)
    ensures Expand(Join(KeyToks(At(g, k), i), " "), table, 0) == Written(Strip(g))
  {
    AtWords(g, k);
    AtText(g, k);
    PartExpand(At(g, k), i, table);
    PlacedText(g, k);
    if Level(g) >= k && !g.Group? {
      TopNotBlock(g);
    }
  }

  // ---------------------------------------------------------------------------------------
  // Splitting on the operator of a chain
  // ---------------------------------------------------------------------------------------

  /** A joined text with no separator token splits into itself. */
  lemma NoSplit(ts: seq<string>, w: string)
    requires |ts| > 0 && Words(ts) && SpaceFree(w)
    requires forall m :: 0 <= m < |ts| ==> ts[m] != w
    ensures Split(Join(ts, " "), " " + w + " ") == [Join(ts, " ")]
  {
    NoSeparator(ts, w);
  }

  /** The elided text of a chain is the elided left part, the operator and the elided right
      operand, and it splits after the pieces of the left part. */
  lemma ChainStep(f: Formula, op: string)
    requires IsOp(f, op)
    ensures var l, r := At(f.left, LK(op)), At(f.right, RK(op));
      var ks := KeyToks(TopItems(f), 0);
      TopItems(f) == l + [Tok(op)] + r &&
      Split(Join(ks, " "), " " + op + " ")
        == Split(Join(KeyToks(l, 0), " "), " " + op + " ") + [Join(KeyToks(r, Groups(l)), " ")]
  {
    var l, r := At(f.left, LK(op)), At(f.right, RK(op));
    ChainToks(f, op);
    ChainSides(f, op);
    OpWord(op);
    SplitTokens(KeyToks(l, 0), op, KeyToks(r, Groups(l)));
  }

  /** The elided tokens of a chain: those of the left part, the operator, those of the right
      operand. */
  lemma ChainToks(f: Formula, op: string)
    requires IsOp(f, op)
    ensures var l, r := At(f.left, LK(op)), At(f.right, RK(op));
      TopItems(f) == l + [Tok(op)] + r && KeyToks(TopItems(f), 0) == KeyToks(l, 0) + [op] + KeyToks(r, Groups(l))
  {
    var l, r := At(f.left, LK(op)), At(f.right, RK(op));
    assert TopItems(f) == l + [Tok(op)] + r;
    KeyToksAround(l, op, r);
  }

  /** The tokens around a word: keys on its right are numbered after the blocks on its left. */
  lemma KeyToksAround(l: seq<Item>, op: string, r: seq<Item>)
    ensures KeyToks(l + [Tok(op)] + r, 0) == KeyToks(l, 0) + [op] + KeyToks(r, Groups(l))
  {
    KeyToksAppend(l + [Tok(op)], r, 0);
    KeyToksAppend(l, [Tok(op)], 0);
    assert KeyToks([Tok(op)], Groups(l)) == [op];
    assert Groups([Tok(op)]) == 0;
  }

  /** Both sides of a chain elide to words; the left side does not end in the operator and the
      right side does not hold it. */
  lemma ChainSides(f: Formula, op: string)
    requires IsOp(f, op)
    ensures var l, r := At(f.left, LK(op)), At(f.right, RK(op));
      var x, y := KeyToks(l, 0), KeyToks(r, Groups(l));
      |x| > 0 && |y| > 0 && Words(x) && Words(y)
      && x[|x| - 1] != op && forall m :: 0 <= m < |y| ==> y[m] != op
  {
    LeftSide(f.left, op);
    RightSide(f.right, op, Groups(At(f.left, LK(op))));
  }

  lemma LeftSide(g: Formula, op: string)
    requires op == "or" || op == "and"
    ensures var x := KeyToks(At(g, LK(op)), 0); |x| > 0 && Words(x) && x[|x| - 1] != op
  {
    var l := At(g, LK(op));
    AtWords(g, LK(op));
    AtText(g, LK(op));
    KeyToksShape(l, 0);
    KeyToksLength(l, 0);
    AtEnds(g, LK(op));
    LastNotOp(l, 0, op);
  }

  lemma RightSide(g: Formula, op: string, i: nat)
    requires op == "or" || op == "and"
    ensures var y := KeyToks(At(g, RK(op)), i); |y| > 0 && Words(y) && forall m :: 0 <= m < |y| ==> y[m] != op
  {
    var r := At(g, RK(op));
    OpWord(op);
    AtWords(g, RK(op));
    AtText(g, RK(op));
    KeyToksShape(r, i);
    KeyToksLength(r, i);
    RightAbsent(g, op);
    WordAbsent(r, i, op);
  }

  /** The pieces of the elided text of a chain expand to the texts of the chain's operands. */
  lemma {:induction false} ChainSplit(f: Formula, op: string, table: seq<string>)
    requires IsOp(f, op) && Holds(table, 0, TopItems(f)) && TableFree(table)
    ensures Spells(Split(Join(KeyToks(TopItems(f), 0), " "), " " + op + " "), table, Kids(f, op))
    decreases f
  {
    var l, r := At(f.left, LK(op)), At(f.right, RK(op));
    ChainStep(f, op);
    HoldsSplit(table, 0, l + [Tok(op)], r);
    HoldsSplit(table, 0, l, [Tok(op)]);
    assert Groups(l + [Tok(op)]) == Groups(l) by {
      KeyToksAppend(l, [Tok(op)], 0);
      assert Groups([Tok(op)]) == 0;
    }
    PieceText(f.right, RK(op), Groups(l), table);
    var first := Split(Join(KeyToks(l, 0), " "), " " + op + " ");
    if IsOp(f.left, op) {
      assert l == TopItems(f.left);
      ChainSplit(f.left, op, table);
    } else {
      LeftSingle(f.left, op, table);
    }
    SpellsAppend(first, Join(KeyToks(r, Groups(l)), " "), table, Kids(f.left, op), Strip(f.right));
  }

  /** An operand that does not continue the chain is a single piece. */
  lemma LeftSingle(g: Formula, op: string, table: seq<string>)
    requires (op == "or" || op == "and") && !IsOp(g, op)
    requires Holds(table, 0, At(g, LK(op))) && TableFree(table)
    ensures Spells(Split(Join(KeyToks(At(g, LK(op)), 0), " "), " " + op + " "), table, [Strip(g)])
  {
    var l := At(g, LK(op));
    OpWord(op);
    AtWords(g, LK(op));
    AtText(g, LK(op));
    KeyToksShape(l, 0);
    KeyToksLength(l, 0);
    LeftAbsent(g, op);
    WordAbsent(l, 0, op);
    NoSplit(KeyToks(l, 0), op);
    PieceText(g, LK(op), 0, table);
  }

  // ---------------------------------------------------------------------------------------
  // splitExprToChildren on a normalised text
  // ---------------------------------------------------------------------------------------

  /** The operator `splitExprToChildren` should report for `f`. */
  function OpName(f: Formula): string {
    match f
    case Atom(_) => ""
    case Not(_) => "not"
    case And(_, _) => "and"
    case Or(_, _) => "or"
    case Group(_) => ""
  }

  /** The operands it should find, each without a redundant bracket pair: the chain of an `or`
      or an `and`, the argument of a `not`; none for an id or for a formula that is one bracket
      pair. */
  function Operands(f: Formula): (r: seq<Formula>)
    ensures forall j :: 0 <= j < |r| ==> FSize(r[j]) < FSize(f) && Ids(r[j]) <= Ids(f)
    ensures f.Not? || f.And? || f.Or? ==> r != []
  {
    match f
    case Atom(_) => []
    case Not(a) => [Strip(a)]
    case And(_, _) => Kids(f, "and")
    case Or(_, _) => Kids(f, "or")
    case Group(_) => []
  }

  lemma OperandsWellBracketed(f: Formula)
    requires WellBracketed(f)
    ensures forall j :: 0 <= j < |Operands(f)| ==> WellBracketed(Operands(f)[j]) && !Operands(f)[j].Group?
  {
    match f
    case Atom(_) =>
    case Not(a) => StripWellBracketed(a);
    case And(_, _) => KidsWellBracketed(f, "and");
    case Or(_, _) => KidsWellBracketed(f, "or");
    case Group(_) =>
  }

  /** The fresh children `shipChildren` should make for the operands `kids` of an `op` node. */
  function FreshKids(kids: seq<Formula>, op: string, should: bool, blamed: bool): (r: seq<Node>)
    ensures |r| == |kids|
  {
    seq(|kids|, j requires 0 <= j < |kids| =>
      Fresh(Written(kids[j]), ChildShould(op, should), ChildBlamed(op, j == 0, blamed)))
  }

  lemma {:induction false} ShipSpells(ps: seq<string>, table: seq<string>, kids: seq<Formula>,
                                      op: string, should: bool, blamed: bool)
    requires Spells(ps, table, kids)
    ensures Ship(ps, table, op, should, blamed) == FreshKids(kids, op, should, blamed)
    decreases |ps|
  {
    if ps != [] {
      var n := |ps| - 1;
      assert Spells(ps[..n], table, kids[..n]);
      ShipSpells(ps[..n], table, kids[..n], op, should, blamed);
      var l, r := Ship(ps, table, op, should, blamed), FreshKids(kids, op, should, blamed);
      forall j | 0 <= j < |r| ensures l[j] == r[j] {
        if j < n {
          assert l[j] == Ship(ps[..n], table, op, should, blamed)[j];
        }
      }
    }
  }

  /** A text without spaces holds no `not `. */
  lemma NoNot(t: string)
    requires SpaceFree(t)
    ensures Split(t, "not ") == [t]
  {
    forall j | 0 <= j < |t| ensures !OccursAt(t, "not ", j) {
      if j + 4 <= |t| {
        assert t[j..j + 4][3] == t[j + 3];
      }
    }
    IndexNone(t, "not ");
  }

  /** `not t`, `t` without spaces, splits on `not ` into an empty piece and `t`. */
  lemma SplitNot(t: string)
    requires SpaceFree(t)
    ensures Split("not " + t, "not ") == ["", t]
  {
    var s := "not " + t;
    assert s[..4] == "not ";
    IndexIs(s, "not ", 0);
    assert s[4..] == t;
    NoNot(t);
  }

  /** The elided text of `f` and the table of its blocks. */
  lemma ElidedFacts(f: Formula)
    ensures var xs := TopItems(f);
      |KeyToks(xs, 0)| > 0 && Words(KeyToks(xs, 0)) && Holds(Texts(xs), 0, xs) && TableFree(Texts(xs))
  {
    var xs := TopItems(f);
    TopText(f);
    TopWords(f);
    KeyToksLength(xs, 0);
    KeyToksShape(xs, 0);
    TextsFree(xs);
  }

  /** The separator `splitExprToChildren` uses for an operator word. */
  lemma Separator(op: string)
    requires op == "or" || op == "and"
    ensures " " + op + " " == if op == "or" then " or " else " and "
  {
  }

  /** The elided text of `f` does not split on an operator absent from its top level. */
  lemma NoOpSplit(f: Formula, w: string)
    requires (w == "or" || w == "and") && Tok(w) !in TopItems(f)
    ensures Split(Join(KeyToks(TopItems(f), 0), " "), if w == "or" then " or " else " and ")
         == [Join(KeyToks(TopItems(f), 0), " ")]
  {
    var xs := TopItems(f);
    ElidedFacts(f);
    WordAbsent(xs, 0, w);
    NoSplit(KeyToks(xs, 0), w);
    Separator(w);
  }

  /** The elided text of `not a`: `not` and one token. */
  lemma NotElided(a: Formula)
    ensures var t := Join(KeyToks(At(a, 3), 0), " ");
      SpaceFree(t) && Join(KeyToks(TopItems(Not(a)), 0), " ") == "not " + t
      && Holds(Texts(TopItems(Not(a))), 0, At(a, 3))
  {
    var l := At(a, 3);
    assert |l| == 1 by {
      if a.Atom? {
        assert TopItems(a) == [Tok(Itoa(a.id))];
      } else if a.Group? {
        assert TopItems(a) == [Grp(a.arg)];
      }
    }
    AtWords(a, 3);
    KeyToksShape(l, 0);
    KeyToksLength(l, 0);
    var t := KeyToks(l, 0)[0];
    assert KeyToks(l, 0) == [t];
    assert TopItems(Not(a)) == [Tok("not")] + l;
    assert KeyToks(TopItems(Not(a)), 0) == ["not", t];
    ElidedFacts(Not(a));
    HoldsSplit(Texts(TopItems(Not(a))), 0, [Tok("not")], l);
  }

  /** `splitExprToChildren` on the normalised text of `f` finds the operator of `f` and makes one
      child per operand, holding the normalised text of that operand, with the `Should` and
      `Blamed` the switch of `shipChildren` gives it. */
  lemma SplitWritten(f: Formula, should: bool, blamed: bool)
    ensures SplitExpr(Written(f), should, blamed)
         == Ok((OpName(f), FreshKids(Operands(f), OpName(f), should, blamed)))
  {
    ElideWritten(f);
    ElidedFacts(f);
    TopWords(f);
    match f
    case Atom(n) => SplitAtom(n, should, blamed);
    case Not(a) => SplitNotWritten(a, should, blamed);
    case And(_, _) => SplitChain(f, "and", should, blamed);
    case Or(_, _) => SplitChain(f, "or", should, blamed);
    case Group(a) => SplitGroup(a, should, blamed);
  }

  /** The four outcomes of `splitExprToChildren` once the elision has given `e` and `table`. */
  lemma SplitOnOr(expr: string, e: string, table: seq<string>, should: bool, blamed: bool)
    requires Elide(expr, []) == Ok((e, table)) && |Split(e, " or ")| > 1
    ensures SplitExpr(expr, should, blamed) == Ok(("or", Ship(Split(e, " or "), table, "or", should, blamed)))
  {
  }

  lemma SplitOnAnd(expr: string, e: string, table: seq<string>, should: bool, blamed: bool)
    requires Elide(expr, []) == Ok((e, table)) && Split(e, " or ") == [e] && |Split(e, " and ")| > 1
    ensures SplitExpr(expr, should, blamed) == Ok(("and", Ship(Split(e, " and "), table, "and", should, blamed)))
  {
  }

  lemma SplitOnNot(expr: string, e: string, table: seq<string>, t: string, should: bool, blamed: bool)
    requires Elide(expr, []) == Ok((e, table)) && Split(e, " or ") == [e] && Split(e, " and ") == [e]
    requires Split(e, "not ") == ["", t]
    ensures SplitExpr(expr, should, blamed) == Ok(("not", Ship([t], table, "not", should, blamed)))
  {
  }

  lemma SplitOnNothing(expr: string, e: string, table: seq<string>, should: bool, blamed: bool)
    requires Elide(expr, []) == Ok((e, table)) && Split(e, " or ") == [e] && Split(e, " and ") == [e]
    requires Split(e, "not ") == [e]
    ensures SplitExpr(expr, should, blamed) == Ok(("", []))
  {
  }

  lemma SplitAtom(n: nat, should: bool, blamed: bool)
    ensures SplitExpr(Written(Atom(n)), should, blamed) == Ok(("", []))
  {
    var f := Atom(n);
    var xs := TopItems(f);
    var e := Join(KeyToks(xs, 0), " ");
    ElideWritten(f);
    TopWords(f);
    assert e == Itoa(n);
    NoOpSplit(f, "or");
    NoOpSplit(f, "and");
    NumeralFacts(Itoa(n));
    NoNot(Itoa(n));
    SplitOnNothing(Written(f), e, Texts(xs), should, blamed);
  }

  /** A text that is one bracket pair elides to one key and splits into nothing. */
  lemma SplitGroup(a: Formula, should: bool, blamed: bool)
    ensures SplitExpr(Written(Group(a)), should, blamed) == Ok(("", []))
  {
    var f := Group(a);
    var xs := TopItems(f);
    var e := Join(KeyToks(xs, 0), " ");
    ElideWritten(f);
    TopWords(f);
    assert KeyToks(xs, 0) == [Key(0)];
    assert e == Key(0);
    NoOpSplit(f, "or");
    NoOpSplit(f, "and");
    KeyShape(0);
    NoNot(Key(0));
    SplitOnNothing(Written(f), e, Texts(xs), should, blamed);
  }

  lemma SplitNotWritten(a: Formula, should: bool, blamed: bool)
    ensures SplitExpr(Written(Not(a)), should, blamed)
         == Ok(("not", FreshKids([Strip(a)], "not", should, blamed)))
  {
    var f := Not(a);
    var xs := TopItems(f);
    var e := Join(KeyToks(xs, 0), " ");
    var table := Texts(xs);
    ElideWritten(f);
    TopWords(f);
    NoOpSplit(f, "or");
    NoOpSplit(f, "and");
    ElidedFacts(f);
    NotElided(a);
    var t := Join(KeyToks(At(a, 3), 0), " ");
    SplitNot(t);
    SplitOnNot(Written(f), e, table, t, should, blamed);
    PieceText(a, 3, 0, table);
    assert Spells([t], table, [Strip(a)]);
    ShipSpells([t], table, [Strip(a)], "not", should, blamed);
  }

  lemma SplitChain(f: Formula, op: string, should: bool, blamed: bool)
    requires IsOp(f, op)
    ensures SplitExpr(Written(f), should, blamed) == Ok((op, FreshKids(Kids(f, op), op, should, blamed)))
  {
    var xs := TopItems(f);
    var table := Texts(xs);
    var e := Join(KeyToks(xs, 0), " ");
    var ps := Split(e, " " + op + " ");
    ElideWritten(f);
    ElidedFacts(f);
    ChainSplit(f, op, table);
    assert |ps| >= 2;
    Separator(op);
    if op == "and" {
      TopWords(f);
      NoOpSplit(f, "or");
      assert Split(e, " or ") == [e];
      SplitOnAnd(Written(f), e, table, should, blamed);
    } else {
      SplitOnOr(Written(f), e, table, should, blamed);
    }
    assert SplitExpr(Written(f), should, blamed) == Ok((op, Ship(ps, table, op, should, blamed)));
    ShipSpells(ps, table, Kids(f, op), op, should, blamed);
  }
}
