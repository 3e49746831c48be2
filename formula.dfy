/** The reference meaning of a logic expression: boolean formulas over rule ids with the usual
    precedence `not` > `and` > `or`, left-associative binary operators, and the text a formula is
    written as once the engine's normaliser has spaced it out. */
module Formula {
  import opened Text

  datatype Formula =
    | Atom(id: nat)
    | Not(arg: Formula)
    | And(left: Formula, right: Formula)
    | Or(left: Formula, right: Formula)
    | Group(arg: Formula)   // a bracket pair the precedence does not need, as in `( 1 or 2 ) or 3`

  /** The rule ids `f` mentions. */
  function Ids(f: Formula): (r: set<int>)
    ensures forall n :: n in r ==> 0 <= n
  {
    match f
    case Atom(n) => {n}
    case Not(a) => Ids(a)
    case And(a, b) => Ids(a) + Ids(b)
    case Or(a, b) => Ids(a) + Ids(b)
    case Group(a) => Ids(a)
  }

  /** The standard boolean value of `f` when rule `id` evaluated to `values[id]`. */
  function Eval(f: Formula, values: map<int, bool>): bool
    requires Ids(f) <= values.Keys
  {
    match f
    case Atom(n) => values[n]
    case Not(a) => !Eval(a, values)
    case And(a, b) => Eval(a, values) && Eval(b, values)
    case Or(a, b) => Eval(a, values) || Eval(b, values)
    case Group(a) => Eval(a, values)
  }

  /** Binding strength of the outermost construct: 0 `or`, 1 `and`, 2 `not`, 3 an id or a
      bracket pair. */
  function Level(f: Formula): nat {
    match f
    case Or(_, _) => 0
    case And(_, _) => 1
    case Not(_) => 2
    case Atom(_) => 3
    case Group(_) => 3
  }

  /** Every redundant bracket pair encloses an operator, not an id or another bracket pair. The
      stack evaluator of rule_logic.go mis-evaluates `( 1 )` and `( ( 1 or 2 ) )` inside a larger
      expression, since `)` outranks `(` and is pushed instead of matched
      (`RuleLogicEdges.BracketedId`). */
  predicate WellBracketed(f: Formula) {
    match f
    case Atom(_) => true
    case Not(a) => WellBracketed(a)
    case And(a, b) => WellBracketed(a) && WellBracketed(b)
    case Or(a, b) => WellBracketed(a) && WellBracketed(b)
    case Group(a) => !a.Atom? && !a.Group? && WellBracketed(a)
  }

  /** The formula inside a redundant bracket pair; any other formula itself. */
  function Strip(f: Formula): (r: Formula)
    ensures r == f || f == Group(r)
  {
    if f.Group? then f.arg else f
  }

  /** Dropping a bracket pair keeps the rules and the value. */
  lemma StripSame(f: Formula, values: map<int, bool>)
    ensures Ids(Strip(f)) == Ids(f)
    ensures Ids(f) <= values.Keys ==> Eval(Strip(f), values) == Eval(f, values)
  {
  }

  /** Inside a well-bracketed formula a stripped operand is well bracketed and no bracket pair. */
  lemma StripWellBracketed(f: Formula)
    requires WellBracketed(f)
    ensures WellBracketed(Strip(f)) && !Strip(f).Group?
  {
  }

  /** The tokens of `f` written where the grammar expects something binding at least as strongly
      as level `k`: brackets are added where precedence and left-associativity need them, so
      `Or(a, Or(b, c))` becomes `a or ( b or c )` and `Not(Not(a))` becomes `not ( not a )`, and
      around every `Group`, so `Or(Group(Or(a, b)), c)` becomes `( a or b ) or c`. */
  function Render(f: Formula, k: nat): seq<string>
    decreases f, 1
  {
    if Level(f) >= k then Direct(f) else ["("] + Direct(f) + [")"]
  }

  function Direct(f: Formula): seq<string>
    decreases f, 0
  {
    match f
    case Atom(n) => [Itoa(n)]
    case Not(a) => ["not"] + Render(a, 3)
    case And(a, b) => Render(a, 1) + ["and"] + Render(b, 2)
    case Or(a, b) => Render(a, 0) + ["or"] + Render(b, 1)
    case Group(a) => ["("] + Render(a, 0) + [")"]
  }

  /** The normalised logic text of `f`: its tokens joined by single spaces. */
  function Written(f: Formula): string {
    Join(Render(f, 0), " ")
  }

  /** A single rule is written as its id. */
  lemma WrittenAtom(id: nat)
    ensures Written(Atom(id)) == Itoa(id)
  {
    assert Render(Atom(id), 0) == [Itoa(id)];
  }

  /** Reverse Polish form of `f`. */
  function Post(f: Formula): seq<string> {
    match f
    case Atom(n) => [Itoa(n)]
    case Not(a) => Post(a) + ["not"]
    case And(a, b) => Post(a) + Post(b) + ["and"]
    case Or(a, b) => Post(a) + Post(b) + ["or"]
    case Group(a) => Post(a)
  }

  /** Every token of a rendering is a numeral, an operator word or a single bracket. */
  predicate IsToken(t: string) {
    IsNumeral(t) || t == "and" || t == "or" || t == "not" || t == "(" || t == ")"
  }

  lemma {:induction false} RenderTokens(f: Formula, k: nat)
    ensures |Render(f, k)| > 0
    ensures forall i :: 0 <= i < |Render(f, k)| ==> IsToken(Render(f, k)[i])
    decreases f, 1
  {
    DirectTokens(f);
  }

  lemma {:induction false} DirectTokens(f: Formula)
    ensures |Direct(f)| > 0
    ensures forall i :: 0 <= i < |Direct(f)| ==> IsToken(Direct(f)[i])
    decreases f, 0
  {
    match f
    case Atom(n) =>
    case Not(a) => RenderTokens(a, 3);
    case And(a, b) => RenderTokens(a, 1); RenderTokens(b, 2);
    case Or(a, b) => RenderTokens(a, 0); RenderTokens(b, 1);
    case Group(a) => RenderTokens(a, 0);
  }

  /** The text of a formula is never blank: its first token is not empty. */
  lemma WrittenNonEmpty(f: Formula)
    ensures |Written(f)| > 0
  {
    RenderTokens(f, 0);
    var ts := Render(f, 0);
    assert |ts| == 1 || Written(f) == ts[0] + " " + Join(ts[1..], " ");
  }

  /** The numeric tokens of a rendering are exactly the renderings of the formula's ids. */
  lemma {:induction false} RenderIds(f: Formula, k: nat)
    ensures forall t :: t in Render(f, k) ==> (AllDigits(t) <==> exists n :: n in Ids(f) && t == Itoa(n))
    ensures forall n :: n in Ids(f) ==> Itoa(n) in Render(f, k)
    decreases f, 1
  {
    DirectIds(f);
    assert !AllDigits("(") by { assert !IsDigit("("[0]); }
    assert !AllDigits(")") by { assert !IsDigit(")"[0]); }
  }

  lemma {:induction false} DirectIds(f: Formula)
    ensures forall t :: t in Direct(f) ==> (AllDigits(t) <==> exists n :: n in Ids(f) && t == Itoa(n))
    ensures forall n :: n in Ids(f) ==> Itoa(n) in Direct(f)
    decreases f, 0
  {
    match f
    case Atom(n) =>
      assert Direct(f) == [Itoa(n)];
    case Not(a) =>
      RenderIds(a, 3);
      WordNotId("not");
    case And(a, b) =>
      RenderIds(a, 1);
      RenderIds(b, 2);
      WordNotId("and");
    case Or(a, b) =>
      RenderIds(a, 0);
      RenderIds(b, 1);
      WordNotId("or");
    case Group(a) =>
      RenderIds(a, 0);
      assert !AllDigits("(") by { assert !IsDigit("("[0]); }
      assert !AllDigits(")") by { assert !IsDigit(")"[0]); }
  }

  lemma WordNotId(w: string)
    requires |w| > 0 && !IsDigit(w[0])
    ensures !AllDigits(w) && forall n: nat :: w != Itoa(n)
  {
    forall n: nat
      ensures w != Itoa(n)
    {
      assert IsDigit(Itoa(n)[0]);
    }
  }
}
