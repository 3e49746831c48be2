/** The stack evaluator of rule_logic.go: a logic expression is cut at single spaces, turned into
    postfix with an operator stack (priorities `not` 5 > `and` 3 > `or` 2 > `)` 1 > `(` 0), and the
    postfix is evaluated with an operand stack. The model keeps both phases as loops over
    sequences used as stacks (the end of a sequence is the top), proved against fold functions. */
module RuleLogic {
  import opened Wrappers
  import opened Text

  /** The priority table of `isOpBiggerInLogic`; `(` and every unknown token count as 0. */
  function Priority(op: string): int {
    if op == "or" then 2
    else if op == "and" then 3
    else if op == "not" then 5
    else if op == ")" then 1
    else 0
  }

  predicate IsOpBigger(obj: string, base: string) {
    if obj == "" then false
    else if base == "" then true
    else Priority(obj) > Priority(base)
  }

  function NumOfOperand(op: string): nat {
    if op == "and" || op == "or" then 2 else if op == "not" then 1 else 0
  }

  function ComputeOne(op: string, v: seq<bool>): Result<bool>
    requires |v| >= NumOfOperand(op)
  {
    if op == "or" then Ok(v[0] || v[1])
    else if op == "and" then Ok(v[0] && v[1])
    else if op == "not" then Ok(!v[0])
    else Fail(Error("unrecognized op"))
  }

  /** The two stacks of the conversion: the postfix output (`stackNum`) and the operators
      (`stackOp`). */
  datatype Shunt = Shunt(out: seq<string>, ops: seq<string>)

  function Top(ops: seq<string>): string {
    if ops == [] then "" else ops[|ops| - 1]
  }

  /** Moves operators from the top of `ops` to the output while the incoming `c` is not bigger. */
  function PopWhile(out: seq<string>, ops: seq<string>, c: string): Shunt
    decreases |ops|
  {
    if ops == [] || IsOpBigger(c, ops[|ops| - 1]) then Shunt(out, ops)
    else PopWhile(out + [ops[|ops| - 1]], ops[..|ops| - 1], c)
  }

  /** One token of the conversion loop. A `)` that finds the operator stack empty removes a nil
      element: a Go panic. */
  function Step(st: Shunt, c: string): Result<Shunt> {
    if AllDigits(c) then Ok(Shunt(st.out + [c], st.ops))
    else if IsOpBigger(c, Top(st.ops)) || c == "(" then Ok(Shunt(st.out, st.ops + [c]))
    else
      var p := PopWhile(st.out, st.ops, c);
      if c == ")" then
        if p.ops == [] then Fail(Panic("list.Remove of a nil element"))
        else Ok(Shunt(p.out, p.ops[..|p.ops| - 1]))
      else Ok(Shunt(p.out, p.ops + [c]))
  }

  function Run(st: Shunt, ts: seq<string>): Result<Shunt>
    decreases |ts|
  {
    if ts == [] then Ok(st)
    else
      match Step(st, ts[0])
      case Fail(e) => Fail(e)
      case Ok(next) => Run(next, ts[1..])
  }

  function Then(r: Result<Shunt>, ts: seq<string>): Result<Shunt> {
    match r
    case Fail(e) => Fail(e)
    case Ok(st) => Run(st, ts)
  }

  function Reverse(s: seq<string>): seq<string> {
    if s == [] then [] else [s[|s| - 1]] + Reverse(s[..|s| - 1])
  }

  lemma ReverseSingle(w: string)
    ensures Reverse([w]) == [w]
  {
    assert [w][..0] == [];
  }

  /** Conversion to postfix: the token loop, then the operators left on the stack, top first. */
  function ToPostfix(ts: seq<string>): Result<seq<string>> {
    match Run(Shunt([], []), ts)
    case Fail(e) => Fail(e)
    case Ok(st) => Ok(st.out + Reverse(st.ops))
  }

  /** One postfix item. An id is looked up in `values`; an operator pops its operands, and a
      missing operand is a nil element: a Go panic. Items with no operands (brackets) are skipped. */
  function EvalItem(stack: seq<bool>, item: string, values: map<int, bool>): Result<seq<bool>> {
    if AllDigits(item) then
      match Atoi(item)
      case Fail(e) => Fail(e)
      case Ok(id) =>
        if id in values then Ok(stack + [values[id]])
        else Fail(Error("empty operand value in map: " + item))
    else if NumOfOperand(item) == 2 then
      if |stack| < 2 then Fail(Panic("missing operand"))
      else
        match ComputeOne(item, [stack[|stack| - 2], stack[|stack| - 1]])
        case Fail(_) => Fail(Error("error in one compute"))
        case Ok(b) => Ok(stack[..|stack| - 2] + [b])
    else if NumOfOperand(item) == 1 then
      if |stack| < 1 then Fail(Panic("missing operand"))
      else
        match ComputeOne(item, [stack[|stack| - 1]])
        case Fail(_) => Fail(Error("error in one compute"))
        case Ok(b) => Ok(stack[..|stack| - 1] + [b])
    else Ok(stack)
  }

  function EvalRun(stack: seq<bool>, items: seq<string>, values: map<int, bool>): Result<seq<bool>>
    decreases |items|
  {
    if items == [] then Ok(stack)
    else
      match EvalItem(stack, items[0], values)
      case Fail(e) => Fail(e)
      case Ok(next) => EvalRun(next, items[1..], values)
  }

  function EvalThen(r: Result<seq<bool>>, items: seq<string>, values: map<int, bool>): Result<seq<bool>> {
    match r
    case Fail(e) => Fail(e)
    case Ok(stack) => EvalRun(stack, items, values)
  }

  /** What `CalculateExpression(expr, values)` returns: the top of the operand stack, or the
      error or panic met on the way. */
  function Calculate(expr: string, values: map<int, bool>): Result<bool> {
    match ToPostfix(Split(expr, " "))
    case Fail(e) => Fail(e)
    case Ok(post) =>
      match EvalRun([], post, values)
      case Fail(e) => Fail(e)
      case Ok(stack) =>
        if stack == [] then Fail(Panic("empty operand stack")) else Ok(stack[|stack| - 1])
  }

  lemma {:induction false} RunAppend(st: Shunt, a: seq<string>, b: seq<string>)
    ensures Run(st, a + b) == Then(Run(st, a), b)
    decreases |a|
  {
    if a == [] {
      assert a + b == b;
    } else {
      assert (a + b)[0] == a[0];
      assert (a + b)[1..] == a[1..] + b;
      match Step(st, a[0])
      case Fail(e) =>
      case Ok(next) => RunAppend(next, a[1..], b);
    }
  }

  lemma {:induction false} EvalRunAppend(stack: seq<bool>, a: seq<string>, b: seq<string>, values: map<int, bool>)
    ensures EvalRun(stack, a + b, values) == EvalThen(EvalRun(stack, a, values), b, values)
    decreases |a|
  {
    if a == [] {
      assert a + b == b;
    } else {
      assert (a + b)[0] == a[0];
      assert (a + b)[1..] == a[1..] + b;
      match EvalItem(stack, a[0], values)
      case Fail(e) =>
      case Ok(next) => EvalRunAppend(next, a[1..], b, values);
    }
  }

  /** One more token converted: the run over the longer prefix is one step further. */
  lemma RunPrefix(tokens: seq<string>, i: nat, before: Shunt)
    requires i < |tokens| && Run(Shunt([], []), tokens[..i]) == Ok(before)
    ensures Run(Shunt([], []), tokens[..i + 1]) == Step(before, tokens[i])
  {
    assert tokens[..i] + [tokens[i]] == tokens[..i + 1];
    RunSnoc(Shunt([], []), tokens[..i], tokens[i], before);
  }

  /** A prefix whose conversion fails decides the outcome of the whole conversion. */
  lemma RunPrefixFails(tokens: seq<string>, k: nat)
    requires k <= |tokens| && Run(Shunt([], []), tokens[..k]).Fail?
    ensures Run(Shunt([], []), tokens) == Run(Shunt([], []), tokens[..k])
  {
    assert tokens[..k] + tokens[k..] == tokens;
    RunFailPrefix(Shunt([], []), tokens[..k], tokens[k..]);
  }

  lemma RunSnoc(st: Shunt, ts: seq<string>, t: string, before: Shunt)
    requires Run(st, ts) == Ok(before)
    ensures Run(st, ts + [t]) == Step(before, t)
  {
    assert Run(before, [t]) == Step(before, t) by {
      assert [t][1..] == [];
    }
    RunAppend(st, ts, [t]);
  }

  lemma RunFailPrefix(st: Shunt, a: seq<string>, b: seq<string>)
    requires Run(st, a).Fail?
    ensures Run(st, a + b) == Run(st, a)
  {
    RunAppend(st, a, b);
  }

  /** The inner loop of rule_logic.go:40-56: pops at most as many operators as the stack held. */
  method PopOperators(out0: seq<string>, ops0: seq<string>, c: string) returns (out: seq<string>, ops: seq<string>)
    ensures Shunt(out, ops) == PopWhile(out0, ops0, c)
  {
    out, ops := out0, ops0;
    var iterMax := |ops|;
    var j := 0;
    while j < iterMax
      invariant 0 <= j <= iterMax && |ops| + j == iterMax
      invariant PopWhile(out, ops, c) == PopWhile(out0, ops0, c)
    {
      if ops == [] {
        break;
      }
      var top := ops[|ops| - 1];
      if IsOpBigger(c, top) {
        break;
      }
      out := out + [top];
      ops := ops[..|ops| - 1];
      j := j + 1;
    }
  }

  /** The conversion phase of `CalculateExpression` (rule_logic.go:23-75). */
  method ConvertToPostfix(tokens: seq<string>) returns (r: Result<seq<string>>)
    ensures r == ToPostfix(tokens)
  {
    var out: seq<string> := [];
    var ops: seq<string> := [];
    var i := 0;
    while i < |tokens|
      invariant 0 <= i <= |tokens|
      invariant Run(Shunt([], []), tokens[..i]) == Ok(Shunt(out, ops))
    {
      var c := tokens[i];
      ghost var before := Shunt(out, ops);
      RunPrefix(tokens, i, before);
      if AllDigits(c) {
        out := out + [c];
        assert Step(before, c) == Ok(Shunt(out, ops));
      } else {
        var lastOp := "";
        if ops != [] {
          lastOp := ops[|ops| - 1];
        }
        assert lastOp == Top(before.ops);
        if IsOpBigger(c, lastOp) || c == "(" {
          ops := ops + [c];
          assert Step(before, c) == Ok(Shunt(out, ops));
        } else {
          out, ops := PopOperators(out, ops, c);
          ghost var p := PopWhile(before.out, before.ops, c);
          assert p == Shunt(out, ops);
          if c == ")" {
            if ops == [] {
              assert Step(before, c) == Fail(Panic("list.Remove of a nil element"));
              RunPrefixFails(tokens, i + 1);
              return Fail(Panic("list.Remove of a nil element"));
            }
            ops := ops[..|ops| - 1];
            assert Step(before, c) == Ok(Shunt(p.out, p.ops[..|p.ops| - 1]));
          } else {
            ops := ops + [c];
            assert Step(before, c) == Ok(Shunt(p.out, p.ops + [c]));
          }
        }
      }
      i := i + 1;
    }
    assert tokens[..i] == tokens;
    ghost var converted := Shunt(out, ops);
    // dump the operators left on the stack, top first
    var iterMax := |ops|;
    var k := 0;
    while k < iterMax
      invariant 0 <= k <= iterMax && |ops| + k == iterMax
      invariant out + Reverse(ops) == converted.out + Reverse(converted.ops)
    {
      out := out + [ops[|ops| - 1]];
      ops := ops[..|ops| - 1];
      k := k + 1;
    }
    assert out + Reverse(ops) == out;
    r := Ok(out);
  }

  /** One more postfix item counted: the run over the longer prefix is one item further. */
  lemma EvalPrefix(post: seq<string>, n: nat, was: seq<bool>, values: map<int, bool>)
    requires n < |post| && EvalRun([], post[..n], values) == Ok(was)
    ensures EvalRun([], post[..n + 1], values) == EvalItem(was, post[n], values)
  {
    assert EvalRun(was, [post[n]], values) == EvalItem(was, post[n], values) by {
      assert [post[n]][1..] == [];
    }
    EvalRunAppend([], post[..n], [post[n]], values);
    assert post[..n] + [post[n]] == post[..n + 1];
  }

  /** A prefix whose count fails decides the outcome of the whole count. */
  lemma EvalPrefixFails(post: seq<string>, k: nat, values: map<int, bool>)
    requires k <= |post| && EvalRun([], post[..k], values).Fail?
    ensures EvalRun([], post, values) == EvalRun([], post[..k], values)
  {
    EvalRunAppend([], post[..k], post[k..], values);
    assert post[..k] + post[k..] == post;
  }

  /** The counting phase of `CalculateExpression` (rule_logic.go:77-132). */
  method EvaluatePostfix(post: seq<string>, values: map<int, bool>) returns (r: Result<seq<bool>>)
    ensures r == EvalRun([], post, values)
  {
    var stack: seq<bool> := [];
    var n := 0;
    while n < |post|
      invariant 0 <= n <= |post|
      invariant EvalRun([], post[..n], values) == Ok(stack)
    {
      var item := post[n];
      ghost var was := stack;
      EvalPrefix(post, n, was, values);
      if EvalItem(was, item, values).Fail? {
        EvalPrefixFails(post, n + 1, values);
      }
      if AllDigits(item) {
        var id := Atoi(item);
        if id.Fail? {
          return Fail(id.failure);
        }
        if id.value !in values {
          return Fail(Error("empty operand value in map: " + item));
        }
        stack := stack + [values[id.value]];
      } else {
        if NumOfOperand(item) == 2 {
          if |stack| < 2 {
            return Fail(Panic("missing operand"));
          }
          var operandB := stack[|stack| - 1];
          stack := stack[..|stack| - 1];
          var operandA := stack[|stack| - 1];
          stack := stack[..|stack| - 1];
          assert stack == was[..|was| - 2] && operandA == was[|was| - 2] && operandB == was[|was| - 1];
          var computed := ComputeOne(item, [operandA, operandB]);
          if computed.Fail? {
            return Fail(Error("error in one compute"));
          }
          stack := stack + [computed.value];
        }
        if NumOfOperand(item) == 1 {
          if |stack| < 1 {
            return Fail(Panic("missing operand"));
          }
          var operandB := stack[|stack| - 1];
          stack := stack[..|stack| - 1];
          assert stack == was[..|was| - 1] && operandB == was[|was| - 1];
          var computed := ComputeOne(item, [operandB]);
          if computed.Fail? {
            return Fail(Error("error in one compute"));
          }
          stack := stack + [computed.value];
        }
      }
      assert EvalItem(was, item, values) == Ok(stack);
      n := n + 1;
    }
    assert post[..n] == post;
    r := Ok(stack);
  }

  /** `CalculateExpression` (rule_logic.go:11-139): the result is the top of the operand stack;
      an empty stack at the end is a Go panic. */
  method CalculateExpression(expr: string, values: map<int, bool>) returns (r: Result<bool>)
    ensures r == Calculate(expr, values)
  {
    var tokens := Split(expr, " ");
    var post := ConvertToPostfix(tokens);
    if post.Fail? {
      return Fail(post.failure);
    }
    var stack := EvaluatePostfix(post.value, values);
    if stack.Fail? {
      return Fail(stack.failure);
    }
    if stack.value == [] {
      return Fail(Panic("empty operand stack"));
    }
    r := Ok(stack.value[|stack.value| - 1]);
  }
}
