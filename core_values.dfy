/** The values a rule is matched against, `pluck` (a dotted-path lookup in a nested map) and
    `Rule.fit` (the comparison one rule makes) of core.go. */
module CoreValues {
  import opened Text

  /** A Go `interface{}` as the engine meets it: nil, a string, a number (every Go numeric kind,
      read as `float64` by `formatNumber`), a bool, a nested `map[string]interface{}`, or a slice.
      Maps and slices are the values Go cannot compare. */
  datatype Value =
    | Nil
    | Str(s: string)
    | Num(n: real)
    | Bool(b: bool)
    | Obj(fields: map<string, Value>)
    | List(items: seq<Value>)

  /** `reflect.TypeOf(v).Comparable()` for a non-nil value. */
  predicate Comparable(v: Value) {
    !v.Obj? && !v.List?
  }

  /** `Rule` (bean.go:3-9). */
  datatype Rule = Rule(op: string, key: string, val: Value, id: int, msg: string)

  /** A Go map lookup: a missing key reads as nil. */
  function Lookup(o: map<string, Value>, k: string): Value {
    if k in o then o[k] else Nil
  }

  /** The walk of `pluck` along the path segments: every segment but the last must name a nested
      map. */
  function PluckPath(paths: seq<string>, o: map<string, Value>): Value
    requires |paths| > 0
    decreases |paths|
  {
    if |paths| == 1 then Lookup(o, paths[0])
    else
      match Lookup(o, paths[0])
      case Obj(m) => PluckPath(paths[1..], m)
      case _ => Nil
  }

  /** What `pluck(key, o)` returns. A nil map reads like an empty one, so one map type serves. */
  function PluckSpec(key: string, o: map<string, Value>): Value {
    if key == "" then Nil else PluckPath(Split(key, "."), o)
  }

  /** `pluck` (core.go:258-275): the loop reassigns the current map as it walks the path. */
  method Pluck(key: string, o: map<string, Value>) returns (v: Value)
    ensures v == PluckSpec(key, o)
  {
    if key == "" {
      return Nil;
    }
    var paths := Split(key, ".");
    var cur := o;
    var index := 0;
    while index < |paths|
      invariant 0 <= index < |paths|
      invariant PluckPath(paths[index..], cur) == PluckPath(paths, o)
      decreases |paths| - index
    {
      if index == |paths| - 1 {
        return Lookup(cur, paths[index]);
      }
      assert paths[index..][1..] == paths[index + 1..];
      match Lookup(cur, paths[index]) {
        case Obj(m) =>
          cur := m;
        case _ =>
          return Nil;
      }
      index := index + 1;
    }
    assert false;
  }

  /** A key without a dot looks up one level. */
  lemma PluckSingle(k: string, o: map<string, Value>)
    requires k != "" && !Contains(k, ".")
    ensures PluckSpec(k, o) == Lookup(o, k)
  {
  }

  /** `a.rest` descends into the map under `a` and plucks `rest` there; anything but a map under
      `a` gives nil. */
  lemma PluckNested(a: string, rest: string, o: map<string, Value>)
    requires !Contains(a, ".") && rest != ""
    ensures PluckSpec(a + "." + rest, o)
         == match Lookup(o, a) { case Obj(m) => PluckSpec(rest, m) case _ => Nil }
  {
    var key := a + "." + rest;
    forall j | 0 <= j < |a|
      ensures !OccursAt(key, ".", j)
    {
      assert key[j..j + 1] == a[j..j + 1];
      assert !OccursAt(a, ".", j);
    }
    IndexAfterPrefix(a, ".", rest);
    assert key[..|a|] == a && key[|a| + 1..] == rest;
    assert Split(key, ".") == [a] + Split(rest, ".");
    assert ([a] + Split(rest, "."))[1..] == Split(rest, ".");
  }

  /** Go's `<` on strings: byte-wise lexicographic order, which for valid UTF-8 is the order of
      code points used here. */
  predicate StrLess(x: string, y: string) {
    if x == [] then y != []
    else if y == [] then false
    else if x[0] != y[0] then x[0] < y[0]
    else StrLess(x[1..], y[1..])
  }

  /** Go's string order is a strict total order: exactly one of `x < y`, `x == y`, `y < x`. */
  lemma {:induction false} StrLessTrichotomy(x: string, y: string)
    ensures StrLess(x, y) || x == y || StrLess(y, x)
    ensures !(StrLess(x, y) && StrLess(y, x))
    ensures !(StrLess(x, y) && x == y)
  {
    if x != [] && y != [] && x[0] == y[0] {
      StrLessTrichotomy(x[1..], y[1..]);
      if x[1..] == y[1..] {
        assert x == [x[0]] + x[1..] && y == [y[0]] + y[1..];
      }
    }
  }

  lemma {:induction false} StrLessTransitive(x: string, y: string, z: string)
    requires StrLess(x, y) && StrLess(y, z)
    ensures StrLess(x, z)
  {
    if x != [] && x[0] == y[0] && y[0] == z[0] {
      StrLessTransitive(x[1..], y[1..], z[1..]);
    }
  }

  /** `formatNumber` (core.go:277-306): numbers as themselves, everything else as 0. */
  function FormatNumber(v: Value): real {
    if v.Num? then v.n else 0.0
  }

  /** The string a failed `v.(string)` assertion leaves in `pairStr`: the zero value "". */
  function StrOrEmpty(v: Value): string {
    if v.Str? then v.s else ""
  }

  /** The case labels of the switch in `Rule.fit`: each operator has a symbol and a word. */
  datatype Operator = Eq | Gt | Lt | Gte | Lte | Neq | Contain | NotContain | Regex | Empty | NotEmpty | Unknown

  function OperatorOf(op: string): Operator {
    if op == "=" || op == "eq" then Eq
    else if op == ">" || op == "gt" then Gt
    else if op == "<" || op == "lt" then Lt
    else if op == ">=" || op == "gte" then Gte
    else if op == "<=" || op == "lte" then Lte
    else if op == "!=" || op == "neq" then Neq
    else if op == "@" || op == "contain" then Contain
    else if op == "!@" || op == "ncontain" then NotContain
    else if op == "^$" || op == "regex" then Regex
    else if op == "0" || op == "empty" then Empty
    else if op == "1" || op == "nempty" then NotEmpty
    else Unknown
  }

  /** The comparison of `Rule.fit` for an operator: `v` is the plucked value, `val` the rule's.
      Both sides are compared as strings when both are strings, as numbers when neither is, and
      a mixed pair fits no operator. `regex(pattern, s)` stands for `checkRegex`, compile failure
      included. */
  function FitWith(op: Operator, v: Value, val: Value, regex: (string, string) -> bool): bool {
    var isStr := v.Str? && val.Str?;
    var isNum := !v.Str? && !val.Str?;
    var n0, n1 := FormatNumber(v), FormatNumber(val);
    var s0, s1 := StrOrEmpty(v), StrOrEmpty(val);
    if !isStr && !isNum then false
    else
      match op
      case Eq => if isNum then n0 == n1 else s0 == s1
      case Gt => if isNum then n0 > n1 else StrLess(s1, s0)
      case Lt => if isNum then n0 < n1 else StrLess(s0, s1)
      case Gte => if isNum then n0 >= n1 else !StrLess(s0, s1)
      case Lte => if isNum then n0 <= n1 else !StrLess(s1, s0)
      case Neq => if isNum then n0 != n1 else s0 != s1
      case Contain => regex(s1, s0)
      case NotContain => !regex(s1, s0)
      case Regex => regex(s1, s0)
      case Empty => v.Nil?
      case NotEmpty => !v.Nil?
      case Unknown => false
  }

  /** `Rule.fit` (core.go:163-256). */
  function Fit(r: Rule, v: Value, regex: (string, string) -> bool): bool {
    FitWith(OperatorOf(r.op), v, r.val, regex)
  }

  /** A string against a non-string (nil included) fits no operator, not even `empty`/`nempty`. */
  lemma FitMixedTypes(r: Rule, v: Value, regex: (string, string) -> bool)
    requires v.Str? != r.val.Str?
    ensures !Fit(r, v, regex)
  {
  }

  /** With both sides of one kind, exactly one of `<`, `=`, `>` fits. */
  lemma FitOrdering(v: Value, val: Value, regex: (string, string) -> bool)
    requires v.Str? == val.Str?
    ensures var lt, eq, gt := FitWith(Lt, v, val, regex), FitWith(Eq, v, val, regex), FitWith(Gt, v, val, regex);
      (lt || eq || gt) && !(lt && eq) && !(lt && gt) && !(eq && gt)
  {
    if v.Str? {
      StrLessTrichotomy(v.s, val.s);
    }
  }

  /** With both sides of one kind, each negated operator fits exactly when its positive
      counterpart does not; with mixed kinds neither fits. */
  lemma FitNegations(v: Value, val: Value, regex: (string, string) -> bool)
    ensures v.Str? == val.Str? ==> FitWith(Neq, v, val, regex) == !FitWith(Eq, v, val, regex)
    ensures v.Str? == val.Str? ==> FitWith(Gte, v, val, regex) == !FitWith(Lt, v, val, regex)
    ensures v.Str? == val.Str? ==> FitWith(Lte, v, val, regex) == !FitWith(Gt, v, val, regex)
    ensures v.Str? == val.Str? ==> FitWith(NotContain, v, val, regex) == !FitWith(Contain, v, val, regex)
    ensures v.Str? == val.Str? ==> FitWith(NotEmpty, v, val, regex) == !FitWith(Empty, v, val, regex)
  {
  }
}
