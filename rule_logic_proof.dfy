/** Correctness of the stack evaluator of rule_logic.go on the normalised text of a formula: the
    operator-precedence conversion turns `Written(f)` into the postfix form `Post(f)`, and the
    operand-stack pass computes the standard value of `f`. */
module RuleLogicProof {
  import opened Wrappers
  import opened Text
  import opened Formula
  import opened RuleLogic

  predicate IsOperatorWord(t: string) {
    t == "and" || t == "or" || t == "not"
  }

  /** The lowest priority an operator written at level `k` can have without brackets: `or` is
      written at level 0 only, `and` at levels up to 1, `not` up to 2, nothing at level 3. */
  function Threshold(k: nat): int {
    if k == 0 then 2 else if k == 1 then 3 else if k == 2 then 5 else 6
  }

  /** The operators that `Render(f, k)` leaves on the operator stack, bottom first. */
  function Pending(f: Formula, k: nat): seq<string> {
    if Level(f) < k then []
    else
      match f
      case Atom(_) => []
      case Not(a) => ["not"] + Pending(a, 3)
      case And(_, b) => ["and"] + Pending(b, 2)
      case Or(_, b) => ["or"] + Pending(b, 1)
      case Group(_) => []
  }

  /** The postfix items that `Render(f, k)` sends to the output. */
  function Emitted(f: Formula, k: nat): seq<string> {
    if Level(f) < k then Post(f)
    else
      match f
      case Atom(n) => [Itoa(n)]
      case Not(a) => Emitted(a, 3)
      case And(a, b) => Post(a) + Emitted(b, 2)
      case Or(a, b) => Post(a) + Emitted(b, 1)
      case Group(a) => Post(a)
  }

  lemma {:induction false} ReverseAppend(x: seq<string>, y: seq<string>)
    ensures Reverse(x + y) == Reverse(y) + Reverse(x)
    decreases |y|
  {
    if y == [] {
      assert x + y == x;
    } else {
      assert (x + y)[..|x + y| - 1] == x + y[..|y| - 1];
      ReverseAppend(x, y[..|y| - 1]);
    }
  }

  lemma {:induction false} PendingOperators(f: Formula, k: nat)
    ensures forall t :: t in Pending(f, k) ==> IsOperatorWord(t) && Priority(t) >= Threshold(k)
  {
    if Level(f) >= k {
      match f
      case Atom(_) =>
      case Not(a) => PendingOperators(a, 3);
      case And(_, b) => PendingOperators(b, 2);
      case Or(_, b) => PendingOperators(b, 1);
      case Group(_) =>
    }
  }

  /** Whatever is left pending, once popped, completes the output to the whole postfix form. */
  lemma {:induction false} EmittedPending(f: Formula, k: nat)
    ensures Emitted(f, k) + Reverse(Pending(f, k)) == Post(f)
  {
    if Level(f) >= k {
      match f
      case Atom(n) =>
      case Not(a) =>
        EmittedPending(a, 3);
        PopLast([], Emitted(a, 3), "not", Pending(a, 3));
      case And(a, b) =>
        EmittedPending(b, 2);
        PopLast(Post(a), Emitted(b, 2), "and", Pending(b, 2));
      case Or(a, b) =>
        EmittedPending(b, 1);
        PopLast(Post(a), Emitted(b, 1), "or", Pending(b, 1));
      case Group(_) =>
    }
  }

  /** An operator pushed below the pending ones is popped last. */
  lemma PopLast(pre: seq<string>, e: seq<string>, w: string, p: seq<string>)
    ensures pre + e + Reverse([w] + p) == pre + (e + Reverse(p)) + [w]
  {
    ReverseAppend([w], p);
    ReverseSingle(w);
  }

  /** Popping while the incoming operator is not bigger empties exactly the part `ts` above a
      bigger operator (or the bottom of the stack) onto the output, top first. */
  lemma {:induction false} PopAll(out: seq<string>, ops: seq<string>, ts: seq<string>, c: string)
    requires forall t :: t in ts ==> !IsOpBigger(c, t)
    requires ops == [] || IsOpBigger(c, ops[|ops| - 1])
    ensures PopWhile(out, ops + ts, c) == Shunt(out + Reverse(ts), ops)
    decreases |ts|
  {
    if ts == [] {
      assert ops + ts == ops;
    } else {
      var t, front := ts[|ts| - 1], ts[..|ts| - 1];
      assert t in ts && ts == front + [t];
      PopOne(out, ops, front, t, c);
      PopAll(out + [t], ops, front, c);
      assert Reverse(ts) == [t] + Reverse(front);
      AppendAssoc(out, [t], Reverse(front));
    }
  }

  /** The top of the stack, when the incoming operator is not bigger, goes to the output. */
  lemma PopOne(out: seq<string>, ops: seq<string>, front: seq<string>, t: string, c: string)
    requires !IsOpBigger(c, t)
    ensures PopWhile(out, ops + (front + [t]), c) == PopWhile(out + [t], ops + front, c)
  {
    var all := ops + (front + [t]);
    assert all[|all| - 1] == t && all[..|all| - 1] == ops + front;
  }

  lemma Chain(st: Shunt, a: seq<string>, b: seq<string>, mid: Shunt, last: Result<Shunt>)
    requires Run(st, a) == Ok(mid) && Run(mid, b) == last
    ensures Run(st, a + b) == last
  {
    RunAppend(st, a, b);
  }

  lemma RunOne(st: Shunt, c: string)
    ensures Run(st, [c]) == Step(st, c)
  {
    assert [c][1..] == [];
  }

  /** A binary operator arriving after `ts` pops all of `ts` and is pushed. */
  lemma StepBinary(out: seq<string>, ops: seq<string>, ts: seq<string>, c: string)
    requires c == "and" || c == "or"
    requires forall t :: t in ts ==> !IsOpBigger(c, t)
    requires ops == [] || IsOpBigger(c, ops[|ops| - 1])
    ensures Step(Shunt(out, ops + ts), c) == Ok(Shunt(out + Reverse(ts), ops + [c]))
  {
    assert !IsDigit(c[0]);
    PopAll(out, ops, ts, c);
    if ts == [] {
      assert ops + ts == ops;
    } else {
      assert Top(ops + ts) == ts[|ts| - 1];
    }
  }

  /** A closing bracket arriving after a nonempty `ts` above its `(` pops `ts` and drops the `(`. */
  lemma StepClose(out: seq<string>, ops: seq<string>, ts: seq<string>)
    requires ts != []
    requires forall t :: t in ts ==> !IsOpBigger(")", t)
    ensures Step(Shunt(out, ops + ["("] + ts), ")") == Ok(Shunt(out + Reverse(ts), ops))
  {
    assert !IsDigit(")"[0]);
    assert Top(ops + ["("] + ts) == ts[|ts| - 1];
    PopAll(out, ops + ["("], ts, ")");
    assert (ops + ["("])[..|ops + ["("]| - 1] == ops;
  }

  lemma AppendAssoc<T>(x: seq<T>, y: seq<T>, z: seq<T>)
    ensures x + y + z == x + (y + z)
  {
  }

  /** The conversion of the rendering of `f` at level `k`, started on stacks whose top binds
      less tightly than anything `f` writes without brackets, outputs `Emitted(f, k)` and leaves
      `Pending(f, k)` on top of the operator stack. */
  lemma {:induction false} ShuntRender(f: Formula, k: nat, out: seq<string>, ops: seq<string>)
    requires k <= 3 && WellBracketed(f)
    requires ops == [] || Priority(ops[|ops| - 1]) < Threshold(k)
    ensures Run(Shunt(out, ops), Render(f, k)) == Ok(Shunt(out + Emitted(f, k), ops + Pending(f, k)))
    decreases f, k, 1
  {
    if Level(f) < k {
      ShuntBracket(f, k, out, ops);
      assert ops + Pending(f, k) == ops;
    } else {
      match f
      case Atom(n) =>
        RunOne(Shunt(out, ops), Itoa(n));
        assert ops + Pending(f, k) == ops;
      case Not(a) =>
        ShuntNot(a, k, out, ops);
        assert ops + ["not"] + Pending(a, 3) == ops + Pending(f, k);
      case And(a, b) =>
        ShuntBinary(f, a, b, "and", 1, 2, k, out, ops);
        assert Pending(f, k) == ["and"] + Pending(b, 2) && Emitted(f, k) == Post(a) + Emitted(b, 2);
        AppendAssoc(ops, ["and"], Pending(b, 2));
        AppendAssoc(out, Post(a), Emitted(b, 2));
      case Or(a, b) =>
        ShuntBinary(f, a, b, "or", 0, 1, k, out, ops);
        assert Pending(f, k) == ["or"] + Pending(b, 1) && Emitted(f, k) == Post(a) + Emitted(b, 1);
        AppendAssoc(ops, ["or"], Pending(b, 1));
        AppendAssoc(out, Post(a), Emitted(b, 1));
      case Group(a) =>
        ShuntBracket(a, 3, out, ops);
        assert Render(a, 0) == Direct(a) && Render(a, 3) == ["("] + Direct(a) + [")"];
        assert Render(f, k) == Render(a, 3);
        assert ops + Pending(f, k) == ops;
    }
  }

  /** A bracketed subformula: `(` is pushed, the inside converts at level 0, and `)` pops what
      the inside left pending, which is never empty since only operators get brackets. */
  lemma {:induction false} ShuntBracket(f: Formula, k: nat, out: seq<string>, ops: seq<string>)
    requires k <= 3 && Level(f) < k && WellBracketed(f)
    ensures Run(Shunt(out, ops), Render(f, k)) == Ok(Shunt(out + Post(f), ops))
    decreases f, k, 0
  {
    var st := Shunt(out, ops);
    var afterOpen := Shunt(out, ops + ["("]);
    var inside := Shunt(out + Emitted(f, 0), ops + ["("] + Pending(f, 0));
    OpenBracket(out, ops);
    ShuntRender(f, 0, out, ops + ["("]);
    Chain(st, ["("], Render(f, 0), afterOpen, Ok(inside));
    CloseBracket(f, out, ops);
    Chain(st, ["("] + Render(f, 0), [")"], inside, Ok(Shunt(out + Post(f), ops)));
    assert Render(f, k) == ["("] + Render(f, 0) + [")"];
  }

  /** `(` is pushed whatever is on the operator stack. */
  lemma OpenBracket(out: seq<string>, ops: seq<string>)
    ensures Run(Shunt(out, ops), ["("]) == Ok(Shunt(out, ops + ["("]))
  {
    RunOne(Shunt(out, ops), "(");
    assert !IsDigit("("[0]);
  }

  /** `)` after a bracketed operator pops what its inside left pending, completing its postfix
      form, and drops the `(`. */
  lemma CloseBracket(f: Formula, out: seq<string>, ops: seq<string>)
    requires f.Not? || f.And? || f.Or?
    ensures Run(Shunt(out + Emitted(f, 0), ops + ["("] + Pending(f, 0)), [")"]) == Ok(Shunt(out + Post(f), ops))
  {
    var inside := Shunt(out + Emitted(f, 0), ops + ["("] + Pending(f, 0));
    assert Pending(f, 0) != [];
    PendingOperators(f, 0);
    RunOne(inside, ")");
    StepClose(out + Emitted(f, 0), ops, Pending(f, 0));
    EmittedPending(f, 0);
    assert out + Emitted(f, 0) + Reverse(Pending(f, 0)) == out + Post(f);
  }

  lemma {:induction false} ShuntNot(a: Formula, k: nat, out: seq<string>, ops: seq<string>)
    requires k <= 2 && WellBracketed(a)
    requires ops == [] || Priority(ops[|ops| - 1]) < Threshold(k)
    ensures Run(Shunt(out, ops), Render(Not(a), k))
         == Ok(Shunt(out + Emitted(a, 3), ops + ["not"] + Pending(a, 3)))
    decreases Not(a), k, 0
  {
    var st := Shunt(out, ops);
    RunOne(st, "not");
    assert !IsDigit("not"[0]);
    assert Run(st, ["not"]) == Ok(Shunt(out, ops + ["not"]));
    ShuntRender(a, 3, out, ops + ["not"]);
    Chain(st, ["not"], Render(a, 3), Shunt(out, ops + ["not"]),
          Ok(Shunt(out + Emitted(a, 3), ops + ["not"] + Pending(a, 3))));
    assert Render(Not(a), k) == ["not"] + Render(a, 3);
  }

  /** A binary operator after its left operand `a` pops what `a` left pending, completing `a`'s
      postfix form, and is pushed. */
  lemma OperatorAfter(a: Formula, ka: nat, op: string, out: seq<string>, ops: seq<string>)
    requires op == "and" || op == "or"
    requires ka <= 3 && Priority(op) <= Threshold(ka)
    requires ops == [] || Priority(ops[|ops| - 1]) < Priority(op)
    ensures Run(Shunt(out + Emitted(a, ka), ops + Pending(a, ka)), [op]) == Ok(Shunt(out + Post(a), ops + [op]))
  {
    PendingOperators(a, ka);
    EmittedPending(a, ka);
    PopPending(Emitted(a, ka), Pending(a, ka), Post(a), op, out, ops);
  }

  /** The same step, for any output `emitted` and pending operators that together make `post`. */
  lemma PopPending(emitted: seq<string>, pending: seq<string>, post: seq<string>, op: string,
                   out: seq<string>, ops: seq<string>)
    requires op == "and" || op == "or"
    requires forall t :: t in pending ==> IsOperatorWord(t) && Priority(t) >= Priority(op)
    requires emitted + Reverse(pending) == post
    requires ops == [] || Priority(ops[|ops| - 1]) < Priority(op)
    ensures Run(Shunt(out + emitted, ops + pending), [op]) == Ok(Shunt(out + post, ops + [op]))
  {
    RunOne(Shunt(out + emitted, ops + pending), op);
    StepBinary(out + emitted, ops, pending, op);
    assert out + emitted + Reverse(pending) == out + post;
  }

  /** `a op b` with `a` written at level `ka` and `b` at level `kb`: `op` pops what `a` left
      pending, completing `a`'s postfix form, and is itself left below what `b` leaves. */
  lemma {:induction false} ShuntBinary(f: Formula, a: Formula, b: Formula, op: string, ka: nat, kb: nat,
                                       k: nat, out: seq<string>, ops: seq<string>)
    requires f == And(a, b) || f == Or(a, b)
    requires op == "and" || op == "or"
    requires WellBracketed(a) && WellBracketed(b)
    requires ka <= 3 && kb <= 3 && Render(f, k) == Render(a, ka) + [op] + Render(b, kb)
    requires Threshold(k) <= Threshold(ka) && Threshold(k) <= Priority(op)
    requires Priority(op) <= Threshold(ka) && Priority(op) < Threshold(kb)
    requires ops == [] || Priority(ops[|ops| - 1]) < Threshold(k)
    ensures Run(Shunt(out, ops), Render(f, k))
         == Ok(Shunt(out + Post(a) + Emitted(b, kb), ops + [op] + Pending(b, kb)))
    decreases f, k, 0
  {
    var st := Shunt(out, ops);
    var afterA := Shunt(out + Emitted(a, ka), ops + Pending(a, ka));
    var afterOp := Shunt(out + Post(a), ops + [op]);
    ShuntRender(a, ka, out, ops);
    OperatorAfter(a, ka, op, out, ops);
    Chain(st, Render(a, ka), [op], afterA, Ok(afterOp));
    ShuntRender(b, kb, out + Post(a), ops + [op]);
    Chain(st, Render(a, ka) + [op], Render(b, kb), afterOp,
          Ok(Shunt(out + Post(a) + Emitted(b, kb), ops + [op] + Pending(b, kb))));
  }

  /** The conversion phase turns the tokens of `f` into its postfix form. */
  lemma PostfixOfRender(f: Formula)
    requires WellBracketed(f)
    ensures ToPostfix(Render(f, 0)) == Ok(Post(f))
  {
    ShuntRender(f, 0, [], []);
    EmittedPending(f, 0);
    assert [] + Emitted(f, 0) == Emitted(f, 0) && [] + Pending(f, 0) == Pending(f, 0);
  }

  predicate IdsInRange(f: Formula) {
    forall n :: n in Ids(f) ==> n <= MaxInt
  }

  lemma EvalOne(stack: seq<bool>, item: string, values: map<int, bool>)
    ensures EvalRun(stack, [item], values) == EvalItem(stack, item, values)
  {
    assert [item][1..] == [];
  }

  lemma EvalChain(stack: seq<bool>, a: seq<string>, b: seq<string>, mid: seq<bool>,
                  last: Result<seq<bool>>, values: map<int, bool>)
    requires EvalRun(stack, a, values) == Ok(mid) && EvalRun(mid, b, values) == last
    ensures EvalRun(stack, a + b, values) == last
  {
    EvalRunAppend(stack, a, b, values);
  }

  /** The operand-stack pass over the postfix form of `f` pushes exactly the value of `f`. */
  lemma {:induction false} EvalPost(f: Formula, stack: seq<bool>, values: map<int, bool>)
    requires Ids(f) <= values.Keys && IdsInRange(f)
    ensures EvalRun(stack, Post(f), values) == Ok(stack + [Eval(f, values)])
    decreases f, 1
  {
    match f
    case Atom(n) =>
      AtoiItoa(n);
      EvalOne(stack, Itoa(n), values);
    case Not(a) =>
      EvalPost(a, stack, values);
      EvalNegation(stack, Eval(a, values), values);
      EvalChain(stack, Post(a), ["not"], stack + [Eval(a, values)], Ok(stack + [!Eval(a, values)]), values);
    case And(a, b) =>
      EvalBinary(f, a, b, "and", stack, values);
    case Or(a, b) =>
      EvalBinary(f, a, b, "or", stack, values);
    case Group(a) =>
      EvalPost(a, stack, values);
  }

  lemma {:induction false} EvalBinary(f: Formula, a: Formula, b: Formula, op: string,
                                      stack: seq<bool>, values: map<int, bool>)
    requires (f == And(a, b) && op == "and") || (f == Or(a, b) && op == "or")
    requires Ids(f) <= values.Keys && IdsInRange(f)
    ensures EvalRun(stack, Post(f), values) == Ok(stack + [Eval(f, values)])
    decreases f, 0
  {
    var va := Eval(a, values);
    var vb := Eval(b, values);
    EvalPost(a, stack, values);
    EvalPost(b, stack + [va], values);
    assert stack + [va] + [vb] == stack + [va, vb];
    EvalChain(stack, Post(a), Post(b), stack + [va], Ok(stack + [va, vb]), values);
    EvalOperator(stack, va, vb, op, values);
    assert Eval(f, values) == (if op == "and" then va && vb else va || vb);
    EvalChain(stack, Post(a) + Post(b), [op], stack + [va, vb], Ok(stack + [Eval(f, values)]), values);
  }

  /** `not` pops the value on top of the stack and pushes its negation. */
  lemma EvalNegation(stack: seq<bool>, v: bool, values: map<int, bool>)
    ensures EvalRun(stack + [v], ["not"], values) == Ok(stack + [!v])
  {
    EvalOne(stack + [v], "not", values);
    assert !IsDigit("not"[0]);
    assert (stack + [v])[..|stack + [v]| - 1] == stack;
  }

  /** A binary operator pops the two values on top of the stack and pushes their combination. */
  lemma EvalOperator(stack: seq<bool>, va: bool, vb: bool, op: string, values: map<int, bool>)
    requires op == "and" || op == "or"
    ensures EvalRun(stack + [va, vb], [op], values) == Ok(stack + [if op == "and" then va && vb else va || vb])
  {
    var both := stack + [va, vb];
    EvalOne(both, op, values);
    assert !IsDigit(op[0]);
    assert both[..|both| - 2] == stack && both[|both| - 2] == va && both[|both| - 1] == vb;
  }

  lemma TokensSpaceFree(ts: seq<string>)
    requires forall i :: 0 <= i < |ts| ==> IsToken(ts[i])
    ensures forall i :: 0 <= i < |ts| ==> SpaceFree(ts[i])
  {
    forall i | 0 <= i < |ts|
      ensures SpaceFree(ts[i])
    {
      var t := ts[i];
      if IsNumeral(t) {
        assert forall j :: 0 <= j < |t| ==> IsDigit(t[j]);
      }
    }
  }

  /** Correctness of the stack evaluator on normalised input: for every well-bracketed formula
      whose rule ids all have values, evaluating its text gives the standard `not` > `and` > `or`
      value. */
  lemma CalculateWritten(f: Formula, values: map<int, bool>)
    requires WellBracketed(f) && Ids(f) <= values.Keys && IdsInRange(f)
    ensures Calculate(Written(f), values) == Ok(Eval(f, values))
  {
    RenderTokens(f, 0);
    TokensSpaceFree(Render(f, 0));
    SplitJoinSpace(Render(f, 0));
    PostfixOfRender(f);
    EvalPost(f, [], values);
    assert [] + [Eval(f, values)] == [Eval(f, values)];
  }
}
