/** How tree.go reads the normalised text of a formula: the top-level bracket blocks are elided
    left to right, the elided text splits on the formula's own operator into one piece per
    operand of its `or`/`and` chain (or the one operand of a `not`), and every piece expands back
    to the normalised text of that operand. */
module Canonical {
  import opened Wrappers
  import opened Text
  import opened Formula
  import opened Tree
  import opened TreeFacts

  // ---------------------------------------------------------------------------------------
  // The normalised text, equation by equation
  // ---------------------------------------------------------------------------------------

  /** Number of constructors of a formula. */
  function FSize(f: Formula): nat {
    match f
    case Atom(_) => 1
    case Not(a) => 1 + FSize(a)
    case And(a, b) => 1 + FSize(a) + FSize(b)
    case Or(a, b) => 1 + FSize(a) + FSize(b)
    case Group(a) => 1 + FSize(a)
  }

  /** `g` written where the grammar expects level `k`. */
  function Placed(g: Formula, k: nat): string { Join(Render(g, k), " ") }

  lemma PlacedText(g: Formula, k: nat)
    ensures Placed(g, k) == if Level(g) >= k then Written(g) else "( " + Written(g) + " )"
  {
    DirectTokens(g);
    if Level(g) < k {
      assert Render(g, k) == ["("] + (Direct(g) + [")"]);
      JoinAppend(["("], Direct(g) + [")"], " ");
      JoinAppend(Direct(g), [")"], " ");
    }
  }

  lemma WrittenText(f: Formula)
    ensures Written(f) == match f
      case Atom(n) => Itoa(n)
      case Not(a) => "not " + Placed(a, 3)
      case And(a, b) => Placed(a, 1) + " and " + Placed(b, 2)
      case Or(a, b) => Placed(a, 0) + " or " + Placed(b, 1)
      case Group(a) => "( " + Written(a) + " )"
  {
    match f
    case Atom(n) =>
      assert Render(f, 0) == [Itoa(n)];
    case Not(a) => WrittenNot(a);
    case And(a, b) => WrittenInfix(f, a, "and", b, 1, 2);
    case Or(a, b) => WrittenInfix(f, a, "or", b, 0, 1);
    case Group(a) => WrittenGroup(a);
  }

  lemma WrittenGroup(a: Formula)
    ensures Written(Group(a)) == "( " + Written(a) + " )"
  {
    assert Render(Group(a), 0) == ["("] + (Render(a, 0) + [")"]);
    RenderTokens(a, 0);
    JoinBracket(Render(a, 0));
  }

  /** Tokens joined between a bracket pair: the brackets stand a space away from the inside. */
  lemma {:induction false} JoinBracket(x: seq<string>)
    requires |x| > 0
    ensures Join(["("] + (x + [")"]), " ") == "( " + Join(x, " ") + " )"
  {
    var j, inner := Join(x, " "), x + [")"];
    assert Join(inner, " ") == j + " )" by {
      JoinAppend(x, [")"], " ");
      assert Join([")"], " ") == ")";
    }
    assert Join(["("] + inner, " ") == "(" + " " + Join(inner, " ") by {
      JoinAppend(["("], inner, " ");
      assert Join(["("], " ") == "(";
    }
    assert "(" + " " + (j + " )") == "( " + j + " )";
  }

  lemma WrittenNot(a: Formula)
    ensures Written(Not(a)) == "not " + Placed(a, 3)
  {
    assert Render(Not(a), 0) == ["not"] + Render(a, 3);
    RenderTokens(a, 3);
    JoinAppend(["not"], Render(a, 3), " ");
  }

  lemma WrittenInfix(f: Formula, a: Formula, w: string, b: Formula, ka: nat, kb: nat)
    requires (f == And(a, b) && w == "and" && ka == 1 && kb == 2)
          || (f == Or(a, b) && w == "or" && ka == 0 && kb == 1)
    ensures Written(f) == Placed(a, ka) + " " + w + " " + Placed(b, kb)
  {
    assert Render(f, 0) == Render(a, ka) + ([w] + Render(b, kb));
    RenderTokens(a, ka);
    RenderTokens(b, kb);
    JoinAround(Render(a, ka), w, Render(b, kb));
  }

  /** Tokens joined around a word: the word stands between the two joined sides. */
  lemma JoinAround(x: seq<string>, w: string, y: seq<string>)
    requires |x| > 0 && |y| > 0
    ensures Join(x + ([w] + y), " ") == Join(x, " ") + " " + w + " " + Join(y, " ")
  {
    JoinAppend(x, [w] + y, " ");
    JoinAppend([w], y, " ");
    assert Join([w], " ") == w;
  }

  // ---------------------------------------------------------------------------------------
  // Bracket depth along a text
  // ---------------------------------------------------------------------------------------

  /** Read from depth `d`, the text never goes below depth 0 and ends at depth `e`. */
  predicate Reach(s: string, d: int, e: int)
    decreases |s|
  {
    if s == [] then d == e else d + Delta(s[0]) >= 0 && Reach(s[1..], d + Delta(s[0]), e)
  }

  lemma {:induction false} ReachAppend(x: string, y: string, d: int, e: int, f: int)
    requires Reach(x, d, e) && Reach(y, e, f)
    ensures Reach(x + y, d, f)
    decreases |x|
  {
    if x == [] {
      assert x + y == y;
    } else {
      assert (x + y)[0] == x[0] && (x + y)[1..] == x[1..] + y;
      ReachAppend(x[1..], y, d + Delta(x[0]), e, f);
    }
  }

  lemma {:induction false} ReachFree(x: string, d: int)
    requires BracketFree(x) && d >= 0
    ensures Reach(x, d, d)
    decreases |x|
  {
    if x != [] {
      FreeTail(x);
      ReachFree(x[1..], d);
    }
  }

  lemma {:induction false} ReachShift(s: string, d: int, e: int, c: nat)
    requires Reach(s, d, e)
    ensures Reach(s, d + c, e + c)
    decreases |s|
  {
    if s != [] {
      ReachShift(s[1..], d + Delta(s[0]), e, c);
    }
  }

  lemma {:induction false} ReachStays(s: string, d: int, e: int)
    requires Reach(s, d, e)
    ensures StaysAbove(s, d + 1) && Net(s) == e - d
    decreases |s|
  {
    if s != [] {
      ReachStays(s[1..], d + Delta(s[0]), e);
    }
  }

  /** A bracket block around a balanced text is balanced. */
  lemma ReachBlock(w: string)
    requires Reach(w, 0, 0)
    ensures Reach("( " + w + " )", 0, 0)
  {
    assert Reach("( ", 0, 1) by {
      assert "( "[1..] == " ";
      assert " "[1..] == [];
    }
    assert Reach(" )", 1, 0) by {
      assert " )"[1..] == ")";
      assert ")"[1..] == [];
    }
    ReachShift(w, 0, 0, 1);
    ReachAppend("( ", w, 0, 1, 1);
    ReachAppend("( " + w, " )", 0, 1, 0);
  }

  // ---------------------------------------------------------------------------------------
  // Facts about the normalised text
  // ---------------------------------------------------------------------------------------

  /** Not blank at either end and free of the placeholder mark `#`. */
  predicate Tidy(s: string) {
    |s| > 0 && s[0] != ' ' && s[|s| - 1] != ' ' && '#' !in s
  }

  predicate HashFree(s: string) { '#' !in s }

  lemma NumeralFacts(t: string)
    requires IsNumeral(t)
    ensures Tidy(t) && BracketFree(t) && SpaceFree(t)
  {
    assert IsDigit(t[0]) && IsDigit(t[|t| - 1]);
    forall k | 0 <= k < |t| ensures t[k] != '#' {
      assert IsDigit(t[k]);
    }
    assert BracketFree(t) by {
      forall k | 0 <= k < |t| ensures !IsBracket(t[k]) {
        assert IsDigit(t[k]);
      }
    }
  }

  lemma {:induction false} WrittenFacts(f: Formula)
    ensures Tidy(Written(f)) && Reach(Written(f), 0, 0) && FSize(f) <= |Written(f)|
    ensures !f.Atom? ==> ' ' in Written(f)
    decreases f, 0
  {
    WrittenText(f);
    match f
    case Atom(n) =>
      NumeralFacts(Itoa(n));
      ReachFree(Itoa(n), 0);
    case Not(a) =>
      PlacedFacts(a, 3);
      Negated(Placed(a, 3));
    case And(a, b) =>
      PlacedFacts(a, 1);
      PlacedFacts(b, 2);
      Infix(Placed(a, 1), " and ", Placed(b, 2));
    case Or(a, b) =>
      PlacedFacts(a, 0);
      PlacedFacts(b, 1);
      Infix(Placed(a, 0), " or ", Placed(b, 1));
    case Group(a) =>
      WrittenFacts(a);
      Enclosed(Written(a));
  }

  lemma Negated(p: string)
    requires Tidy(p) && Reach(p, 0, 0)
    ensures Tidy("not " + p) && Reach("not " + p, 0, 0) && ' ' in "not " + p
  {
    ReachFree("not ", 0);
    ReachAppend("not ", p, 0, 0, 0);
    assert ("not " + p)[3] == ' ';
  }

  lemma Enclosed(w: string)
    requires Tidy(w) && Reach(w, 0, 0)
    ensures Tidy("( " + w + " )") && Reach("( " + w + " )", 0, 0) && ' ' in "( " + w + " )"
  {
    ReachBlock(w);
    assert ("( " + w + " )")[1] == ' ';
  }

  lemma Infix(x: string, w: string, y: string)
    requires Tidy(x) && Tidy(y) && Reach(x, 0, 0) && Reach(y, 0, 0)
    requires |w| > 0 && w[0] == ' ' && BracketFree(w) && '#' !in w
    ensures Tidy(x + w + y) && Reach(x + w + y, 0, 0) && ' ' in x + w + y
  {
    assert (x + w + y)[|x|] == ' ';
    ReachFree(w, 0);
    ReachAppend(x, w, 0, 0, 0);
    ReachAppend(x + w, y, 0, 0, 0);
  }

  lemma {:induction false} PlacedFacts(g: Formula, k: nat)
    ensures Tidy(Placed(g, k)) && Reach(Placed(g, k), 0, 0) && FSize(g) <= |Placed(g, k)|
    decreases g, 1
  {
    PlacedText(g, k);
    WrittenFacts(g);
    if Level(g) < k {
      ReachBlock(Written(g));
    }
  }

  /** The buffer the elision records for a block `( w )` is `w` itself. */
  lemma TrimPadded(w: string)
    requires Tidy(w)
    ensures Trim(" " + w + " ") == w
  {
    assert (" " + w + " ")[1..] == w + " ";
    assert TrimLeft(" " + w + " ") == TrimLeft(w + " ") == w + " ";
    assert (w + " ")[..|w|] == w;
    assert TrimRight(w + " ") == TrimRight(w) == w;
  }

  // ---------------------------------------------------------------------------------------
  // The top level of a formula as items: tokens and bracketed blocks
  // ---------------------------------------------------------------------------------------

  datatype Item = Tok(t: string) | Grp(g: Formula)

  /** The top-level items of the text of `f`: every operand that needs brackets is one block. */
  function TopItems(f: Formula): seq<Item>
    decreases f, 0
  {
    match f
    case Atom(n) => [Tok(Itoa(n))]
    case Not(a) => [Tok("not")] + At(a, 3)
    case And(a, b) => At(a, 1) + [Tok("and")] + At(b, 2)
    case Or(a, b) => At(a, 0) + [Tok("or")] + At(b, 1)
    case Group(a) => [Grp(a)]
  }

  function At(g: Formula, k: nat): seq<Item>
    decreases g, 1
  {
    if Level(g) >= k then TopItems(g) else [Grp(g)]
  }

  function ItemText(x: Item): string {
    match x
    case Tok(t) => t
    case Grp(g) => "( " + Written(g) + " )"
  }

  function ItemTexts(xs: seq<Item>): seq<string> {
    seq(|xs|, j requires 0 <= j < |xs| => ItemText(xs[j]))
  }

  /** Number of blocks. */
  function Groups(xs: seq<Item>): nat {
    if xs == [] then 0 else (if xs[0].Grp? then 1 else 0) + Groups(xs[1..])
  }

  /** The items after elision, the blocks numbered from `i`: a block becomes its key. */
  function KeyToks(xs: seq<Item>, i: nat): seq<string> {
    if xs == [] then []
    else if xs[0].Grp? then [Key(i)] + KeyToks(xs[1..], i + 1)
    else [xs[0].t] + KeyToks(xs[1..], i)
  }

  /** What the elision records for the blocks, in order. */
  function Texts(xs: seq<Item>): seq<string> {
    if xs == [] then []
    else if xs[0].Grp? then [Written(xs[0].g)] + Texts(xs[1..])
    else Texts(xs[1..])
  }

  /** A token of the normalised text other than a bracket. */
  predicate Plain(t: string) { IsNumeral(t) || t == "and" || t == "or" || t == "not" }

  predicate PlainToks(xs: seq<Item>) {
    forall j :: 0 <= j < |xs| && xs[j].Tok? ==> Plain(xs[j].t)
  }

  lemma ItemTextsAppend(x: seq<Item>, y: seq<Item>)
    ensures ItemTexts(x + y) == ItemTexts(x) + ItemTexts(y)
  {
  }

  lemma KeyToksAppend(x: seq<Item>, y: seq<Item>, i: nat)
    ensures KeyToks(x + y, i) == KeyToks(x, i) + KeyToks(y, i + Groups(x))
    ensures Texts(x + y) == Texts(x) + Texts(y)
    ensures Groups(x + y) == Groups(x) + Groups(y)
  {
    KeysAppend(x, y, i);
    TextsAppend(x, y);
    GroupsAppend(x, y);
  }

  lemma {:induction false} KeysAppend(x: seq<Item>, y: seq<Item>, i: nat)
    ensures KeyToks(x + y, i) == KeyToks(x, i) + KeyToks(y, i + Groups(x))
    decreases |x|
  {
    if x == [] {
      assert x + y == y;
    } else {
      var i' := i + Groups(x[..1]);
      assert (x + y)[..1] == x[..1] && (x + y)[1..] == x[1..] + y;
      KeyToksSplit(x + y, i);
      KeyToksSplit(x, i);
      GroupsSplit(x);
      KeysAppend(x[1..], y, i');
      AppendAssoc(KeyToks(x[..1], i), KeyToks(x[1..], i'), KeyToks(y, i + Groups(x)));
    }
  }

  /** The keys of a list are those of its first item followed by those of the rest. */
  lemma KeyToksSplit(xs: seq<Item>, i: nat)
    requires xs != []
    ensures KeyToks(xs, i) == KeyToks(xs[..1], i) + KeyToks(xs[1..], i + Groups(xs[..1]))
  {
    assert xs[..1][1..] == [];
  }

  lemma GroupsSplit(xs: seq<Item>)
    requires xs != []
    ensures Groups(xs) == Groups(xs[..1]) + Groups(xs[1..])
  {
    assert xs[..1][1..] == [];
  }

  lemma {:induction false} TextsAppend(x: seq<Item>, y: seq<Item>)
    ensures Texts(x + y) == Texts(x) + Texts(y)
    decreases |x|
  {
    if x == [] {
      assert x + y == y;
    } else {
      assert (x + y)[0] == x[0] && (x + y)[1..] == x[1..] + y;
      TextsAppend(x[1..], y);
    }
  }

  lemma {:induction false} GroupsAppend(x: seq<Item>, y: seq<Item>)
    ensures Groups(x + y) == Groups(x) + Groups(y)
    decreases |x|
  {
    if x == [] {
      assert x + y == y;
    } else {
      assert (x + y)[0] == x[0] && (x + y)[1..] == x[1..] + y;
      GroupsAppend(x[1..], y);
    }
  }

  lemma {:induction false} KeyToksLength(xs: seq<Item>, i: nat)
    ensures |KeyToks(xs, i)| == |xs| && |Texts(xs)| == Groups(xs)
    decreases |xs|
  {
    if xs != [] {
      KeyToksLength(xs[1..], if xs[0].Grp? then i + 1 else i);
    }
  }

  /** The texts of `x`, a word, and `y`, joined. */
  lemma JoinInfix(x: seq<Item>, w: string, y: seq<Item>)
    requires |x| > 0 && |y| > 0
    ensures Join(ItemTexts(x + [Tok(w)] + y), " ")
         == Join(ItemTexts(x), " ") + " " + w + " " + Join(ItemTexts(y), " ")
  {
    assert ItemTexts(x + [Tok(w)] + y) == ItemTexts(x) + ([w] + ItemTexts(y));
    JoinAppend(ItemTexts(x), [w] + ItemTexts(y), " ");
    JoinAppend([w], ItemTexts(y), " ");
  }

  /** The items of `f` spell its text. */
  lemma {:induction false} TopText(f: Formula)
    ensures |TopItems(f)| > 0 && Join(ItemTexts(TopItems(f)), " ") == Written(f)
    decreases f, 0
  {
    match f
    case Atom(n) =>
      assert Render(f, 0) == [Itoa(n)];
    case Not(a) =>
      WrittenNot(a);
      AtText(a, 3);
      assert ItemTexts(TopItems(f)) == ["not"] + ItemTexts(At(a, 3));
      JoinAppend(["not"], ItemTexts(At(a, 3)), " ");
    case And(a, b) =>
      WrittenInfix(f, a, "and", b, 1, 2);
      AtText(a, 1);
      AtText(b, 2);
      JoinInfix(At(a, 1), "and", At(b, 2));
    case Or(a, b) =>
      WrittenInfix(f, a, "or", b, 0, 1);
      AtText(a, 0);
      AtText(b, 1);
      JoinInfix(At(a, 0), "or", At(b, 1));
    case Group(a) =>
      WrittenGroup(a);
      assert ItemTexts(TopItems(f)) == ["( " + Written(a) + " )"];
  }

  lemma {:induction false} AtText(g: Formula, k: nat)
    ensures |At(g, k)| > 0 && Join(ItemTexts(At(g, k)), " ") == Placed(g, k)
    decreases g, 1
  {
    PlacedText(g, k);
    if Level(g) >= k {
      TopText(g);
    }
  }

  /** The tokens of the items are plain; an `or` token occurs only at the top of an `or`, and an
      `and` token only at the top of an `or` or an `and`. */
  lemma {:induction false} TopWords(f: Formula)
    ensures PlainToks(TopItems(f))
    ensures Tok("or") in TopItems(f) ==> f.Or?
    ensures Tok("and") in TopItems(f) ==> f.Or? || f.And?
    decreases f, 0
  {
    match f
    case Atom(n) =>
      assert Plain(Itoa(n));
      assert IsDigit(Itoa(n)[0]);
    case Not(a) =>
      AtWords(a, 3);
      PlainJoin([Tok("not")], At(a, 3));
    case And(a, b) =>
      AtWords(a, 1);
      AtWords(b, 2);
      PlainJoin(At(a, 1), [Tok("and")]);
      PlainJoin(At(a, 1) + [Tok("and")], At(b, 2));
    case Or(a, b) =>
      AtWords(a, 0);
      AtWords(b, 1);
      PlainJoin(At(a, 0), [Tok("or")]);
      PlainJoin(At(a, 0) + [Tok("or")], At(b, 1));
    case Group(a) =>
  }

  lemma {:induction false} AtWords(g: Formula, k: nat)
    ensures PlainToks(At(g, k))
    ensures Tok("or") in At(g, k) ==> Level(g) >= k && g.Or?
    ensures Tok("and") in At(g, k) ==> Level(g) >= k && (g.Or? || g.And?)
    decreases g, 1
  {
    if Level(g) >= k {
      TopWords(g);
    }
  }

  lemma PlainJoin(x: seq<Item>, y: seq<Item>)
    requires PlainToks(x) && PlainToks(y)
    ensures PlainToks(x + y)
  {
    forall j | 0 <= j < |x + y| && (x + y)[j].Tok?
      ensures Plain((x + y)[j].t)
    {
      if j >= |x| {
        assert (x + y)[j] == y[j - |x|];
      }
    }
  }

  // ---------------------------------------------------------------------------------------
  // Elision of the top-level blocks
  // ---------------------------------------------------------------------------------------

  lemma ElideFree(s: string, table: seq<string>)
    requires BracketFree(s)
    ensures Elide(s, table) == Ok((s, table))
  {
    AtOnceWithoutOpen(s, table);
  }

  /** A block `( w )` around a normalised text `w` opens at its `(`, closes at its `)`, and
      records `w`. */
  lemma Padded(w: string)
    requires Tidy(w) && Reach(w, 0, 0)
    ensures StaysAbove(" " + w + " ", 1) && Net(" " + w + " ") == 0
    ensures Trim(" " + w + " ") == w
  {
    assert Reach(" ", 0, 0) by {
      assert " "[1..] == [];
    }
    ReachAppend(" ", w, 0, 0, 0);
    ReachAppend(" " + w, " ", 0, 0, 0);
    ReachStays(" " + w + " ", 0, 0);
    TrimPadded(w);
  }

  lemma ElideStep(text: string, table: seq<string>, next: string, table': seq<string>)
    requires AtOnce(text, table) == Ok((next, table')) && next != text
    ensures Elide(text, table) == Elide(next, table')
  {
  }

  lemma ElideGroup(pre: string, g: Formula, tail: string, table: seq<string>)
    requires BracketFree(pre)
    ensures Elide(pre + "( " + Written(g) + " )" + tail, table)
         == Elide(pre + Key(|table|) + tail, table + [Written(g)])
  {
    var w := Written(g);
    var inner := " " + w + " ";
    WrittenFacts(g);
    Padded(w);
    var text := pre + "(" + inner + ")" + tail;
    assert text == pre + "( " + w + " )" + tail;
    AtOnceBlock(pre, inner, tail, table);
    var next := pre + Key(|table|) + tail;
    KeyShape(|table|);
    assert next[|pre|] == '#' && text[|pre|] == '(';
    ElideStep(text, table, next, table + [w]);
  }

  /** The shape of a key: `#`, decimal digits, `#`. */
  lemma KeyShape(i: nat)
    ensures |Key(i)| >= 3 && Key(i)[0] == '#' && Key(i)[|Key(i)| - 1] == '#'
    ensures forall k :: 0 < k < |Key(i)| - 1 ==> IsDigit(Key(i)[k])
    ensures SpaceFree(Key(i)) && BracketFree(Key(i))
  {
    var d := Itoa(i);
    assert IsNumeral(d);
    assert Key(i) == "#" + d + "#";
    forall k | 0 < k < |Key(i)| - 1 ensures IsDigit(Key(i)[k]) {
      assert Key(i)[k] == d[k - 1];
    }
    KeyFree(i);
  }

  lemma {:induction false} ElideItems(pre: string, xs: seq<Item>, post: string, table: seq<string>)
    requires BracketFree(pre) && BracketFree(post) && PlainToks(xs)
    ensures Elide(pre + Join(ItemTexts(xs), " ") + post, table)
         == Ok((pre + Join(KeyToks(xs, |table|), " ") + post, table + Texts(xs)))
    decreases |xs|, 2
  {
    if xs == [] {
      assert ItemTexts(xs) == [] && KeyToks(xs, |table|) == [] && Texts(xs) == [];
      assert pre + Join([], " ") + post == pre + post;
      assert table + [] == table;
      ElideFree(pre + post, table);
    } else if xs[0].Tok? {
      ElideTok(pre, xs, post, table);
    } else {
      ElideGrp(pre, xs, post, table);
    }
  }

  lemma FreeConcat(a: string, b: string)
    requires BracketFree(a) && BracketFree(b)
    ensures BracketFree(a + b)
  {
    forall k | 0 <= k < |a + b| ensures !IsBracket((a + b)[k]) {
      if k >= |a| {
        assert (a + b)[k] == b[k - |a|];
      }
    }
  }

  lemma SpaceBracketFree()
    ensures BracketFree(" ")
  {
    assert " "[0] == ' ';
  }

  lemma Regroup(pre: string, t: string, r: string, post: string)
    ensures pre + (t + " " + r) + post == (pre + t + " ") + r + post
  {
  }

  lemma AppendAssoc(a: seq<string>, b: seq<string>, c: seq<string>)
    ensures a + b + c == a + (b + c)
  {
  }

  lemma Rebracket(pre: string, a: string, r: string, post: string)
    ensures pre + (a + " " + r) + post == pre + a + (" " + r + post)
    ensures pre + a + (" " + r + post) == (pre + a + " ") + r + post
  {
  }

  lemma JoinCons(t: string, r: seq<string>)
    ensures Join([t] + r, " ") == if r == [] then t else t + " " + Join(r, " ")
  {
    assert ([t] + r)[1..] == r;
  }

  lemma PlainRest(xs: seq<Item>)
    requires xs != [] && PlainToks(xs)
    ensures PlainToks(xs[1..]) && (xs[0].Tok? ==> Plain(xs[0].t))
  {
    forall j | 0 <= j < |xs[1..]| && xs[1..][j].Tok? ensures Plain(xs[1..][j].t) {
      assert xs[1..][j] == xs[j + 1];
    }
  }

  lemma {:induction false} ElideTok(pre: string, xs: seq<Item>, post: string, table: seq<string>)
    requires BracketFree(pre) && BracketFree(post) && PlainToks(xs) && xs != [] && xs[0].Tok?
    ensures Elide(pre + Join(ItemTexts(xs), " ") + post, table)
         == Ok((pre + Join(KeyToks(xs, |table|), " ") + post, table + Texts(xs)))
    decreases |xs|, 1
  {
    var t, rest := xs[0].t, xs[1..];
    var i := |table|;
    PlainRest(xs);
    PlainFacts(t);
    KeyToksLength(rest, i);
    assert ItemTexts(xs) == [t] + ItemTexts(rest);
    assert KeyToks(xs, i) == [t] + KeyToks(rest, i);
    assert Texts(xs) == Texts(rest);
    JoinCons(t, ItemTexts(rest));
    JoinCons(t, KeyToks(rest, i));
    FreeConcat(pre, t);
    if rest == [] {
      assert Texts(rest) == [] && table + [] == table;
      FreeConcat(pre + t, post);
      ElideFree(pre + t + post, table);
    } else {
      var pre' := pre + t + " ";
      var j, k := Join(ItemTexts(rest), " "), Join(KeyToks(rest, i), " ");
      SpaceBracketFree();
      FreeConcat(pre + t, " ");
      Regroup(pre, t, j, post);
      Regroup(pre, t, k, post);
      ElideItems(pre', rest, post, table);
    }
  }

  lemma {:induction false} ElideGrp(pre: string, xs: seq<Item>, post: string, table: seq<string>)
    requires BracketFree(pre) && BracketFree(post) && PlainToks(xs) && xs != [] && xs[0].Grp?
    ensures Elide(pre + Join(ItemTexts(xs), " ") + post, table)
         == Ok((pre + Join(KeyToks(xs, |table|), " ") + post, table + Texts(xs)))
    decreases |xs|, 1
  {
    var g, rest := xs[0].g, xs[1..];
    var i := |table|;
    var w := Written(g);
    PlainRest(xs);
    KeyShape(i);
    KeyToksLength(rest, i + 1);
    assert ItemTexts(xs) == ["( " + w + " )"] + ItemTexts(rest);
    assert KeyToks(xs, i) == [Key(i)] + KeyToks(rest, i + 1);
    assert Texts(xs) == [w] + Texts(rest);
    JoinCons("( " + w + " )", ItemTexts(rest));
    JoinCons(Key(i), KeyToks(rest, i + 1));
    FreeConcat(pre, Key(i));
    if rest == [] {
      assert Texts(rest) == [] && ItemTexts(rest) == [] && KeyToks(rest, i + 1) == [];
      assert Join(ItemTexts(xs), " ") == "( " + w + " )";
      assert Join(KeyToks(xs, i), " ") == Key(i);
      assert Texts(xs) == [w];
      ElideLastGroup(pre, g, post, table);
    } else {
      ElideMoreGroups(pre, g, rest, post, table);
      assert Join(ItemTexts(xs), " ") == "( " + w + " )" + " " + Join(ItemTexts(rest), " ");
      assert Join(KeyToks(xs, i), " ") == Key(i) + " " + Join(KeyToks(rest, i + 1), " ");
    }
  }

  lemma {:induction false} ElideMoreGroups(pre: string, g: Formula, rest: seq<Item>, post: string, table: seq<string>)
    requires BracketFree(pre) && BracketFree(post) && PlainToks(rest) && rest != []
    ensures Elide(pre + ("( " + Written(g) + " )" + " " + Join(ItemTexts(rest), " ")) + post, table)
         == Ok((pre + (Key(|table|) + " " + Join(KeyToks(rest, |table| + 1), " ")) + post,
                table + ([Written(g)] + Texts(rest))))
    decreases |rest| + 1, 0
  {
    var w, i := Written(g), |table|;
    var j, k := Join(ItemTexts(rest), " "), Join(KeyToks(rest, i + 1), " ");
    var pre' := pre + Key(i) + " ";
    var text := pre + ("( " + w + " )" + " " + j) + post;
    assert Elide(text, table) == Elide(pre' + j + post, table + [w]) by {
      var tail := " " + j + post;
      Rebracket(pre, "( " + w + " )", j, post);
      Rebracket(pre, Key(i), j, post);
      assert text == pre + "( " + w + " )" + tail;
      ElideGroup(pre, g, tail, table);
    }
    assert Elide(pre' + j + post, table + [w]) == Ok((pre' + k + post, table + [w] + Texts(rest))) by {
      KeyShape(i);
      FreeConcat(pre, Key(i));
      SpaceBracketFree();
      FreeConcat(pre + Key(i), " ");
      ElideItems(pre', rest, post, table + [w]);
    }
    Regroup(pre, Key(i), k, post);
    AppendAssoc(table, [w], Texts(rest));
  }

  lemma ElideLastGroup(pre: string, g: Formula, post: string, table: seq<string>)
    requires BracketFree(pre) && BracketFree(post)
    ensures Elide(pre + ("( " + Written(g) + " )") + post, table)
         == Ok((pre + Key(|table|) + post, table + [Written(g)]))
  {
    var w := Written(g);
    assert pre + ("( " + w + " )") + post == pre + "( " + w + " )" + post;
    ElideGroup(pre, g, post, table);
    KeyShape(|table|);
    FreeConcat(pre, Key(|table|));
    FreeConcat(pre + Key(|table|), post);
    ElideFree(pre + Key(|table|) + post, table + [w]);
  }

  lemma PlainFacts(t: string)
    requires Plain(t)
    ensures |t| > 0 && BracketFree(t) && SpaceFree(t) && HashFree(t)
  {
    if IsNumeral(t) {
      NumeralFacts(t);
    }
  }

  /** `replaceBiggestBracketContent` on the normalised text of `f`: every top-level block is
      replaced, left to right, by a fresh key, and the table records the normalised text of each. */
  lemma ElideWritten(f: Formula)
    ensures Elide(Written(f), []) == Ok((Join(KeyToks(TopItems(f), 0), " "), Texts(TopItems(f))))
  {
    TopText(f);
    TopWords(f);
    ElideItems("", TopItems(f), "", []);
    assert [] + Texts(TopItems(f)) == Texts(TopItems(f));
    assert "" + Join(KeyToks(TopItems(f), 0), " ") + "" == Join(KeyToks(TopItems(f), 0), " ");
    assert "" + Written(f) + "" == Written(f);
  }
}
