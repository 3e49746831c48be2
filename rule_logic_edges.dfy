/** How the stack evaluator of rule_logic.go treats text that is not the normalised text of a well-bracketed formula: its
    operator table, the inputs it rejects with an error, the inputs whose slip it lets through,
    and the inputs on which it dereferences a missing stack element. */
module RuleLogicEdges {
  import opened Wrappers
  import opened Text
  import opened RuleLogic

  /** The priority table and the operand counts of `isOpBiggerInLogic`, `numOfOperandInLogic`
      and `computeOneInLogic`. */
  lemma OperatorTable()
    ensures forall base :: !IsOpBigger("", base)
    ensures forall obj :: obj != "" ==> IsOpBigger(obj, "")
    ensures IsOpBigger("not", "and") && IsOpBigger("and", "or") && IsOpBigger("or", ")") && IsOpBigger(")", "(")
    ensures forall a, b :: a != "" && b != "" && IsOpBigger(a, b) ==> !IsOpBigger(b, a)
    ensures forall t :: t != "" ==> !IsOpBigger(t, t)
    ensures NumOfOperand("and") == 2 && NumOfOperand("or") == 2 && NumOfOperand("not") == 1
    ensures NumOfOperand("(") == 0 && NumOfOperand(")") == 0
    ensures forall x: bool, y: bool :: ComputeOne("or", [x, y]) == Ok(x || y) && ComputeOne("and", [x, y]) == Ok(x && y)
    ensures forall x: bool :: ComputeOne("not", [x]) == Ok(!x)
    ensures forall op, v :: op != "and" && op != "or" && op != "not" ==> ComputeOne(op, v).Fail?
  {
  }

  lemma NumeralSpaceFree(n: nat)
    ensures SpaceFree(Itoa(n)) && AllDigits(Itoa(n))
  {
  }

  lemma WordsNotDigits()
    ensures !AllDigits("and") && !AllDigits("or") && !AllDigits("not") && !AllDigits("(") && !AllDigits(")")
  {
    assert !IsDigit("and"[0]) && !IsDigit("or"[0]) && !IsDigit("not"[0]);
    assert !IsDigit("("[0]) && !IsDigit(")"[0]);
  }

  /** The conversion loop takes the token at `k` and goes on with the rest. */
  lemma RunAt(st: Shunt, ts: seq<string>, k: nat, next: Shunt)
    requires k < |ts| && Step(st, ts[k]) == Ok(next)
    ensures Run(st, ts[k..]) == Run(next, ts[k + 1..])
  {
    assert ts[k..][0] == ts[k] && ts[k..][1..] == ts[k + 1..];
  }

  /** The evaluation loop takes the postfix item at `k` and goes on with the rest. */
  lemma EvalAt(stack: seq<bool>, items: seq<string>, k: nat, next: seq<bool>, values: map<int, bool>)
    requires k < |items| && EvalItem(stack, items[k], values) == Ok(next)
    ensures EvalRun(stack, items[k..], values) == EvalRun(next, items[k + 1..], values)
  {
    assert items[k..][0] == items[k] && items[k..][1..] == items[k + 1..];
  }

  /** An id present in `values` is pushed. */
  lemma PushId(stack: seq<bool>, n: nat, values: map<int, bool>)
    requires n <= MaxInt && n in values
    ensures EvalItem(stack, Itoa(n), values) == Ok(stack + [values[n]])
  {
    NumeralSpaceFree(n);
    AtoiItoa(n);
  }

  /** An id token goes straight to the output. */
  lemma ShiftId(st: Shunt, n: nat)
    ensures Step(st, Itoa(n)) == Ok(Shunt(st.out + [Itoa(n)], st.ops))
  {
    NumeralSpaceFree(n);
  }

  /** An operator that is bigger than the top of the operator stack, or a `(`, is pushed. */
  lemma PushOp(st: Shunt, c: string)
    requires !AllDigits(c) && (IsOpBigger(c, Top(st.ops)) || c == "(")
    ensures Step(st, c) == Ok(Shunt(st.out, st.ops + [c]))
  {
  }

  /** The conversion of a token list that ends in the state `last`. */
  lemma RunEnd(ts: seq<string>, last: Shunt)
    requires Run(Shunt([], []), ts[0..]) == Run(last, ts[|ts|..])
    ensures ToPostfix(ts) == Ok(last.out + Reverse(last.ops))
  {
    assert ts[0..] == ts && ts[|ts|..] == [];
  }

  /** The evaluation of a postfix list that ends with the operand stack `last`. */
  lemma EvalEnd(items: seq<string>, last: seq<bool>, values: map<int, bool>)
    requires EvalRun([], items[0..], values) == EvalRun(last, items[|items|..], values)
    ensures EvalRun([], items, values) == Ok(last)
  {
    assert items[0..] == items && items[|items|..] == [];
  }

  /** An id that `values` does not hold is an error, not a panic. */
  lemma MissingId(n: nat, values: map<int, bool>)
    requires n <= MaxInt && n !in values
    ensures Calculate(Itoa(n), values) == Fail(Error("empty operand value in map: " + Itoa(n)))
  {
    var ts := [Itoa(n)];
    NumeralSpaceFree(n);
    SplitJoinSpace(ts);
    AtoiItoa(n);
    var s0 := Shunt([], []);
    var s1 := Shunt(s0.out + [Itoa(n)], s0.ops);
    ShiftId(s0, n);
    RunAt(s0, ts, 0, s1);
    RunEnd(ts, s1);
    assert s1.out + Reverse(s1.ops) == ts;
  }

  /** The empty token matches `^\d*$` but `strconv.Atoi` refuses it: the empty text is an error. */
  lemma EmptyToken(values: map<int, bool>)
    ensures Calculate("", values) == Fail(Error("strconv.Atoi: invalid syntax"))
  {
    var ts := [""];
    assert Split("", " ") == ts;
    var s0 := Shunt([], []);
    var s1 := Shunt(s0.out + [""], s0.ops);
    assert AllDigits("");
    assert Step(s0, "") == Ok(s1);
    RunAt(s0, ts, 0, s1);
    RunEnd(ts, s1);
    assert s1.out + Reverse(s1.ops) == ts;
  }

  /** An unmatched `(` reaches the postfix queue and is skipped there, having no operands. */
  lemma UnmatchedOpen(n: nat, values: map<int, bool>)
    requires n <= MaxInt && n in values
    ensures Calculate("( " + Itoa(n), values) == Ok(values[n])
  {
    var ts := ["(", Itoa(n)];
    NumeralSpaceFree(n);
    WordsNotDigits();
    assert Join(ts, " ") == "( " + Itoa(n) by { assert ts[1..] == [Itoa(n)]; }
    SplitJoinSpace(ts);
    var s0 := Shunt([], []);
    var s1 := Shunt(s0.out, s0.ops + ["("]);
    var s2 := Shunt(s1.out + [Itoa(n)], s1.ops);
    PushOp(s0, "(");
    RunAt(s0, ts, 0, s1);
    ShiftId(s1, n);
    RunAt(s1, ts, 1, s2);
    RunEnd(ts, s2);
    var post := [Itoa(n), "("];
    assert s2.out + Reverse(s2.ops) == post;
    var v := [] + [values[n]];
    PushId([], n, values);
    EvalAt([], post, 0, v, values);
    EvalAt(v, post, 1, v, values);
    EvalEnd(post, v, values);
  }

  /** Surplus operands are not reported: the result is the last one. */
  lemma SurplusOperands(m: nat, n: nat, values: map<int, bool>)
    requires m <= MaxInt && n <= MaxInt && m in values && n in values
    ensures Calculate(Itoa(m) + " " + Itoa(n), values) == Ok(values[n])
  {
    var ts := [Itoa(m), Itoa(n)];
    NumeralSpaceFree(m);
    NumeralSpaceFree(n);
    assert Join(ts, " ") == Itoa(m) + " " + Itoa(n) by { assert ts[1..] == [Itoa(n)]; }
    SplitJoinSpace(ts);
    var s0 := Shunt([], []);
    var s1 := Shunt(s0.out + [Itoa(m)], s0.ops);
    var s2 := Shunt(s1.out + [Itoa(n)], s1.ops);
    ShiftId(s0, m);
    RunAt(s0, ts, 0, s1);
    ShiftId(s1, n);
    RunAt(s1, ts, 1, s2);
    RunEnd(ts, s2);
    assert s2.out + Reverse(s2.ops) == ts;
    var v1 := [] + [values[m]];
    var v2 := v1 + [values[n]];
    PushId([], m, values);
    EvalAt([], ts, 0, v1, values);
    PushId(v1, n, values);
    EvalAt(v1, ts, 1, v2, values);
    EvalEnd(ts, v2, values);
  }

  /** A binary operator with one operand pops a missing element. */
  lemma OperandUnderflow(n: nat, values: map<int, bool>)
    requires n <= MaxInt && n in values
    ensures Calculate("and " + Itoa(n), values).IsPanic()
  {
    var ts := ["and", Itoa(n)];
    NumeralSpaceFree(n);
    WordsNotDigits();
    assert Join(ts, " ") == "and " + Itoa(n) by { assert ts[1..] == [Itoa(n)]; }
    SplitJoinSpace(ts);
    var s0 := Shunt([], []);
    var s1 := Shunt(s0.out, s0.ops + ["and"]);
    var s2 := Shunt(s1.out + [Itoa(n)], s1.ops);
    PushOp(s0, "and");
    RunAt(s0, ts, 0, s1);
    ShiftId(s1, n);
    RunAt(s1, ts, 1, s2);
    RunEnd(ts, s2);
    var post := [Itoa(n), "and"];
    assert s2.out + Reverse(s2.ops) == post;
    var v := [] + [values[n]];
    PushId([], n, values);
    EvalAt([], post, 0, v, values);
    assert post[0..] == post && post[1..][0] == "and";
    assert EvalItem(v, "and", values).IsPanic();
  }

  /** A `)` that finds no `(` below the operators it pops removes a missing element. */
  lemma UnmatchedClose(m: nat, n: nat, values: map<int, bool>)
    ensures Calculate(Itoa(m) + " or " + Itoa(n) + " )", values).IsPanic()
  {
    var ts := [Itoa(m), "or", Itoa(n), ")"];
    NumeralSpaceFree(m);
    NumeralSpaceFree(n);
    WordsNotDigits();
    assert Join(ts, " ") == Itoa(m) + " or " + Itoa(n) + " )" by {
      assert ts[1..][1..][1..] == [")"];
      assert Join(ts[1..][1..], " ") == Itoa(n) + " )";
      assert Join(ts[1..], " ") == "or " + Itoa(n) + " )";
    }
    SplitJoinSpace(ts);
    UnmatchedShunt(ts, Itoa(m), Itoa(n));
  }

  /** The conversion of `x or y )` panics at the `)`. */
  lemma UnmatchedShunt(ts: seq<string>, x: string, y: string)
    requires AllDigits(x) && AllDigits(y) && ts == [x, "or", y, ")"]
    ensures ToPostfix(ts).IsPanic()
  {
    WordsNotDigits();
    var s0 := Shunt([], []);
    var s1 := Shunt([x], []);
    var s2 := Shunt([x], ["or"]);
    var s3 := Shunt([x, y], ["or"]);
    ShiftDigits(s0, x);
    assert s0.out + [x] == s1.out;
    RunAt(s0, ts, 0, s1);
    PushOp(s1, "or");
    assert s1.ops + ["or"] == s2.ops;
    RunAt(s1, ts, 1, s2);
    ShiftDigits(s2, y);
    assert s2.out + [y] == s3.out;
    RunAt(s2, ts, 2, s3);
    assert PopWhile(s3.out, s3.ops, ")") == Shunt(s3.out + ["or"], []);
    assert Step(s3, ")").IsPanic();
    assert ts[0..] == ts && ts[3..][0] == ")";
  }

  /** `not not x` moves the first `not` to the postfix queue ahead of its operand, so the second
      evaluation step finds the operand stack empty: the text panics instead of giving `x`. */
  lemma DoubleNot(n: nat, values: map<int, bool>)
    ensures Calculate("not not " + Itoa(n), values).IsPanic()
  {
    var ts := ["not", "not", Itoa(n)];
    NumeralSpaceFree(n);
    assert Join(ts, " ") == "not not " + Itoa(n) by {
      assert ts[1..][1..] == [Itoa(n)];
      assert Join(ts[1..], " ") == "not " + Itoa(n);
    }
    SplitJoinSpace(ts);
    var post := DoubleNotPostfix(ts, Itoa(n));
    assert post[0..] == post && post[0] == "not";
    WordsNotDigits();
    assert EvalItem([], "not", values).IsPanic();
  }

  /** The postfix order of `not not x` puts one `not` ahead of its operand. */
  lemma DoubleNotPostfix(ts: seq<string>, x: string) returns (post: seq<string>)
    requires AllDigits(x) && ts == ["not", "not", x]
    ensures post == ["not", x, "not"] && ToPostfix(ts) == Ok(post)
  {
    var last := Shunt(["not", x], ["not"]);
    DoubleNotRun(ts, x);
    RunEnd(ts, last);
    post := ["not", x, "not"];
    ReverseSingle("not");
    assert last.out + Reverse(last.ops) == post;
  }

  /** The token loop over `not not x`: the second `not` pops the first one to the output. */
  lemma DoubleNotRun(ts: seq<string>, x: string)
    requires AllDigits(x) && ts == ["not", "not", x]
    ensures Run(Shunt([], []), ts[0..]) == Run(Shunt(["not", x], ["not"]), ts[|ts|..])
  {
    WordsNotDigits();
    var s0 := Shunt([], []);
    var s1 := Shunt([], ["not"]);
    var s2 := Shunt(["not"], ["not"]);
    var s3 := Shunt(s2.out + [x], s2.ops);
    PushOp(s0, "not");
    assert s0.ops + ["not"] == s1.ops;
    RunAt(s0, ts, 0, s1);
    SecondNot();
    RunAt(s1, ts, 1, s2);
    ShiftDigits(s2, x);
    RunAt(s2, ts, 2, s3);
    assert s3 == Shunt(["not", x], ["not"]);
  }

  /** A `not` meeting a `not` on the stack is not bigger than it: the first moves to the queue
      and the second takes its place. */
  lemma SecondNot()
    ensures Step(Shunt([], ["not"]), "not") == Ok(Shunt(["not"], ["not"]))
  {
    WordsNotDigits();
    assert PopWhile([], ["not"], "not") == Shunt(["not"], []);
  }

  /** A bracket around a single id is never closed: `)` is bigger than `(` and is pushed on top
      of it, so what follows the bracket binds to it. `a and ( b ) or c` evaluates as
      `a && (b || c)`, which differs from `(a && b) || c` when `a` is false and `c` is true. */
  lemma BracketedId(a: nat, b: nat, c: nat, values: map<int, bool>)
    requires a <= MaxInt && b <= MaxInt && c <= MaxInt && a in values && b in values && c in values
    ensures Calculate(Itoa(a) + " and ( " + Itoa(b) + " ) or " + Itoa(c), values)
         == Ok(values[a] && (values[b] || values[c]))
    ensures !values[a] && values[c] ==>
      Calculate(Itoa(a) + " and ( " + Itoa(b) + " ) or " + Itoa(c), values)
        != Ok((values[a] && values[b]) || values[c])
  {
    var ts := [Itoa(a), "and", "(", Itoa(b), ")", "or", Itoa(c)];
    BracketedText(ts, a, b, c);
    NumeralSpaceFree(a);
    NumeralSpaceFree(b);
    NumeralSpaceFree(c);
    AtoiItoa(a);
    AtoiItoa(b);
    AtoiItoa(c);
    var post := BracketedPostfix(ts, Itoa(a), Itoa(b), Itoa(c));
    BracketedValue(post, Itoa(a), Itoa(b), Itoa(c), a, b, c, values);
  }

  /** An all-digit token that reads as an id present in `values` is pushed. */
  lemma PushDigits(stack: seq<bool>, t: string, id: int, values: map<int, bool>)
    requires AllDigits(t) && Atoi(t) == Ok(id) && id in values
    ensures EvalItem(stack, t, values) == Ok(stack + [values[id]])
  {
  }

  /** The postfix order of `x and ( y ) or z` leaves `x && (y || z)` alone on the operand stack. */
  lemma BracketedValue(post: seq<string>, x: string, y: string, z: string, a: int, b: int, c: int,
                       values: map<int, bool>)
    requires post == [x, y, z, "or", ")", "(", "and"]
    requires AllDigits(x) && AllDigits(y) && AllDigits(z)
    requires Atoi(x) == Ok(a) && Atoi(y) == Ok(b) && Atoi(z) == Ok(c)
    requires a in values && b in values && c in values
    ensures EvalRun([], post, values) == Ok([values[a] && (values[b] || values[c])])
  {
    var va, vb, vc := values[a], values[b], values[c];
    BracketedPushes(post, x, y, z, a, b, c, values);
    BracketedOperators(post, va, vb, vc, values);
    EvalEnd(post, [va && (vb || vc)], values);
  }

  /** The three ids of `x y z or ) ( and` are pushed in order. */
  lemma BracketedPushes(post: seq<string>, x: string, y: string, z: string, a: int, b: int, c: int,
                        values: map<int, bool>)
    requires |post| == 7 && post[0] == x && post[1] == y && post[2] == z
    requires AllDigits(x) && AllDigits(y) && AllDigits(z)
    requires Atoi(x) == Ok(a) && Atoi(y) == Ok(b) && Atoi(z) == Ok(c)
    requires a in values && b in values && c in values
    ensures EvalRun([], post[0..], values) == EvalRun([values[a], values[b], values[c]], post[3..], values)
  {
    var va, vb, vc := values[a], values[b], values[c];
    PushAt([], post, 0, a, values);
    assert [] + [va] == [va];
    PushAt([va], post, 1, b, values);
    assert [va] + [vb] == [va, vb];
    PushAt([va, vb], post, 2, c, values);
    assert [va, vb] + [vc] == [va, vb, vc];
  }

  /** The evaluation loop pushes the id at `k` and goes on with the rest. */
  lemma PushAt(stack: seq<bool>, items: seq<string>, k: nat, id: int, values: map<int, bool>)
    requires k < |items| && AllDigits(items[k]) && Atoi(items[k]) == Ok(id) && id in values
    ensures EvalRun(stack, items[k..], values) == EvalRun(stack + [values[id]], items[k + 1..], values)
  {
    PushDigits(stack, items[k], id, values);
    EvalAt(stack, items, k, stack + [values[id]], values);
  }

  /** Then `or` combines the last two values, the brackets are skipped, and `and` combines the
      rest. */
  lemma BracketedOperators(post: seq<string>, va: bool, vb: bool, vc: bool, values: map<int, bool>)
    requires |post| == 7 && post[3..] == ["or", ")", "(", "and"]
    ensures EvalRun([va, vb, vc], post[3..], values) == EvalRun([va && (vb || vc)], post[7..], values)
  {
    WordsNotDigits();
    var v3 := [va, vb, vc];
    var v4 := [va, vb || vc];
    var v7 := [va && (vb || vc)];
    assert post[3] == "or" && post[4] == ")" && post[5] == "(" && post[6] == "and";
    assert v3[..|v3| - 2] + [vb || vc] == v4;
    assert EvalItem(v3, "or", values) == Ok(v4);
    EvalAt(v3, post, 3, v4, values);
    EvalAt(v4, post, 4, v4, values);
    EvalAt(v4, post, 5, v4, values);
    assert v4[..|v4| - 2] + [va && (vb || vc)] == v7;
    assert EvalItem(v4, "and", values) == Ok(v7);
    EvalAt(v4, post, 6, v7, values);
  }

  /** An all-digit token goes straight to the output. */
  lemma ShiftDigits(st: Shunt, t: string)
    requires AllDigits(t)
    ensures Step(st, t) == Ok(Shunt(st.out + [t], st.ops))
  {
  }

  /** The tokens of `x and ( y ) or z` and their postfix order. */
  lemma BracketedPostfix(ts: seq<string>, x: string, y: string, z: string) returns (post: seq<string>)
    requires AllDigits(x) && AllDigits(y) && AllDigits(z)
    requires ts == [x, "and", "(", y, ")", "or", z]
    ensures post == [x, y, z, "or", ")", "(", "and"]
    ensures ToPostfix(ts) == Ok(post)
  {
    BracketedShuntHead(ts, x, y);
    BracketedShuntTail(ts, x, y, z);
    var last := Shunt([x, y, z], ["and", "(", ")", "or"]);
    RunEnd(ts, last);
    post := [x, y, z, "or", ")", "(", "and"];
    FourReversed("and", "(", ")", "or");
    assert last.out + Reverse(last.ops) == post;
  }

  /** `x and ( y`: both ids go to the output, `and` and `(` are stacked. */
  lemma BracketedShuntHead(ts: seq<string>, x: string, y: string)
    requires |ts| == 7 && ts[0] == x && ts[1] == "and" && ts[2] == "(" && ts[3] == y
    requires AllDigits(x) && AllDigits(y)
    ensures Run(Shunt([], []), ts[0..]) == Run(Shunt([x, y], ["and", "("]), ts[4..])
  {
    WordsNotDigits();
    var s0, s1 := Shunt([], []), Shunt([x], []);
    var s2, s3 := Shunt([x], ["and"]), Shunt([x], ["and", "("]);
    ShiftDigits(s0, x);
    assert s0.out + [x] == [x];
    RunAt(s0, ts, 0, s1);
    PushOp(s1, "and");
    assert s1.ops + ["and"] == ["and"];
    RunAt(s1, ts, 1, s2);
    PushOp(s2, "(");
    assert s2.ops + ["("] == s3.ops;
    RunAt(s2, ts, 2, s3);
    ShiftDigits(s3, y);
    assert s3.out + [y] == [x, y];
    RunAt(s3, ts, 3, Shunt([x, y], ["and", "("]));
  }

  /** `) or z`: `)` outranks the stacked `(` and is pushed, `or` outranks `)`, and `z` goes to
      the output. */
  lemma BracketedShuntTail(ts: seq<string>, x: string, y: string, z: string)
    requires |ts| == 7 && ts[4] == ")" && ts[5] == "or" && ts[6] == z
    requires AllDigits(z)
    ensures Run(Shunt([x, y], ["and", "("]), ts[4..]) == Run(Shunt([x, y, z], ["and", "(", ")", "or"]), ts[7..])
  {
    WordsNotDigits();
    var s4, s5 := Shunt([x, y], ["and", "("]), Shunt([x, y], ["and", "(", ")"]);
    var s6 := Shunt([x, y], ["and", "(", ")", "or"]);
    assert Top(s4.ops) == "(";
    PushOp(s4, ")");
    assert s4.ops + [")"] == s5.ops;
    RunAt(s4, ts, 4, s5);
    assert Top(s5.ops) == ")";
    PushOp(s5, "or");
    assert s5.ops + ["or"] == s6.ops;
    RunAt(s5, ts, 5, s6);
    ShiftDigits(s6, z);
    assert s6.out + [z] == [x, y, z];
    RunAt(s6, ts, 6, Shunt([x, y, z], ["and", "(", ")", "or"]));
  }

  lemma FourReversed(p: string, q: string, r: string, s: string)
    ensures Reverse([p, q, r, s]) == [s, r, q, p]
  {
    assert [p][..0] == [];
    assert Reverse([p]) == [p];
    assert [p, q][..1] == [p];
    assert Reverse([p, q]) == [q, p];
    assert [p, q, r][..2] == [p, q];
    assert Reverse([p, q, r]) == [r, q, p];
    assert [p, q, r, s][..3] == [p, q, r];
  }

  /** `a and ( b ) or c`, cut at single spaces. */
  lemma BracketedText(ts: seq<string>, a: nat, b: nat, c: nat)
    requires ts == [Itoa(a), "and", "(", Itoa(b), ")", "or", Itoa(c)]
    ensures Split(Itoa(a) + " and ( " + Itoa(b) + " ) or " + Itoa(c), " ") == ts
  {
    NumeralSpaceFree(a);
    NumeralSpaceFree(b);
    NumeralSpaceFree(c);
    var t5 := ts[5..];
    assert t5[1..] == [Itoa(c)];
    assert Join(t5, " ") == "or " + Itoa(c);
    var t4 := ts[4..];
    assert t4[1..] == t5;
    assert Join(t4, " ") == ") or " + Itoa(c);
    var t3 := ts[3..];
    assert t3[1..] == t4;
    assert Join(t3, " ") == Itoa(b) + " ) or " + Itoa(c);
    var t2 := ts[2..];
    assert t2[1..] == t3;
    assert Join(t2, " ") == "( " + Itoa(b) + " ) or " + Itoa(c);
    var t1 := ts[1..];
    assert t1[1..] == t2;
    assert Join(t1, " ") == "and ( " + Itoa(b) + " ) or " + Itoa(c);
    assert Join(ts, " ") == Itoa(a) + " and ( " + Itoa(b) + " ) or " + Itoa(c);
    SplitJoinSpace(ts);
  }
}
