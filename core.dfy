/** A rule group of core.go: its construction (`NewRulesWithArray`, which numbers the rules that
    have no id), the commitment of a logic expression (`injectLogic`), its name and message
    (`injectExtractInfo`) and its evaluation against a map (`fitWithMapInFact`). */
module Core {
  import opened Wrappers
  import opened Text
  import opened Formula
  import opened RuleLogic
  import opened CoreValues
  import opened CoreFormat
  import opened CoreCheck
  import RuleLogicProof
  import RuleLogicEdges

  /** `Rules` (bean.go:11-16). The rules are held by value: the model does not share `*Rule`
      pointers between the caller's slice and the group. */
  class Rules {
    var rules: seq<Rule>
    var logic: string
    var name: string
    var msg: string

    constructor (rules: seq<Rule>)
      ensures this.rules == rules && logic == "" && name == "" && msg == ""
    {
      this.rules := rules;
      logic := "";
      name := "";
      msg := "";
    }
  }

  function RuleIds(rules: seq<Rule>): seq<int> {
    seq(|rules|, i requires 0 <= i < |rules| => rules[i].id)
  }

  // ---------------------------------------------------------------- NewRulesWithArray

  predicate InIntRange(x: int) {
    MinInt <= x <= MaxInt
  }

  /** `maxId++` on a Go `int`: wraps from the largest to the smallest value. */
  function Inc(x: int): int {
    if x == MaxInt then MinInt else x + 1
  }

  /** The first loop of `NewRulesWithArray`: the largest id, and at least `m`. */
  function MaxIdFrom(rules: seq<Rule>, m: int): int
    decreases |rules|
  {
    if rules == [] then m else MaxIdFrom(rules[1..], if rules[0].id > m then rules[0].id else m)
  }

  /** The second loop: every zero id gets the next number after `next`. */
  function Assign(rules: seq<Rule>, next: int): seq<Rule>
    decreases |rules|
  {
    if rules == [] then []
    else if rules[0].id == 0 then [rules[0].(id := Inc(next))] + Assign(rules[1..], Inc(next))
    else [rules[0]] + Assign(rules[1..], next)
  }

  /** The rules after `NewRulesWithArray`. */
  function AssignIds(rules: seq<Rule>): seq<Rule> {
    Assign(rules, MaxIdFrom(rules, 1))
  }

  lemma AssignCons(r: Rule, rest: seq<Rule>, next: int)
    ensures Assign([r] + rest, next)
         == if r.id == 0 then [r.(id := Inc(next))] + Assign(rest, Inc(next)) else [r] + Assign(rest, next)
  {
    assert ([r] + rest)[1..] == rest;
  }

  /** The number of rules without an id. */
  function Zeros(rules: seq<Rule>): nat
    decreases |rules|
  {
    if rules == [] then 0 else (if rules[0].id == 0 then 1 else 0) + Zeros(rules[1..])
  }

  /** `NewRulesWithArray` (core.go:82-99): numbers the rules of the caller's array in place. */
  method NewRulesWithArray(rules: array<Rule>) returns (g: Rules)
    modifies rules
    ensures rules[..] == AssignIds(old(rules[..]))
    ensures fresh(g) && g.rules == rules[..] && g.logic == "" && g.name == "" && g.msg == ""
  {
    var maxId := LargestId(rules);
    NumberFrom(rules, maxId);
    g := new Rules(rules[..]);
  }

  /** The second loop of `NewRulesWithArray` (core.go:90-96): every rule without an id gets the
      next number after `maxId`. */
  method NumberFrom(rules: array<Rule>, maxId: int)
    modifies rules
    ensures rules[..] == Assign(old(rules[..]), maxId)
  {
    ghost var orig := rules[..];
    ghost var done := [];
    var next := maxId;
    var index := 0;
    while index < rules.Length
      invariant 0 <= index <= rules.Length
      invariant rules[..index] == done && rules[index..] == orig[index..]
      invariant done + Assign(orig[index..], next) == Assign(orig, maxId)
    {
      NumberStep(orig, index, next, done, maxId);
      if rules[index].id == 0 {
        next := Inc(next);
        rules[index] := rules[index].(id := next);
      }
      done := done + [rules[index]];
      assert rules[..index + 1] == done;
      index := index + 1;
    }
    assert rules[..] == rules[..index];
  }

  /** One turn of the numbering loop: the rule at `index` takes its final id. */
  lemma NumberStep(orig: seq<Rule>, index: nat, next: int, done: seq<Rule>, maxId: int)
    requires index < |orig| && done + Assign(orig[index..], next) == Assign(orig, maxId)
    ensures var r := orig[index];
      var n := if r.id == 0 then Inc(next) else next;
      done + [if r.id == 0 then r.(id := n) else r] + Assign(orig[index + 1..], n) == Assign(orig, maxId)
  {
    assert orig[index..] == [orig[index]] + orig[index + 1..];
    AssignCons(orig[index], orig[index + 1..], next);
  }

  /** The first loop of `NewRulesWithArray` (core.go:84-89): the largest id, and at least 1. */
  method LargestId(rules: array<Rule>) returns (maxId: int)
    ensures maxId == MaxIdFrom(rules[..], 1)
  {
    maxId := 1;
    var i := 0;
    while i < rules.Length
      invariant 0 <= i <= rules.Length
      invariant MaxIdFrom(rules[i..], maxId) == MaxIdFrom(rules[..], 1)
    {
      assert rules[i..][1..] == rules[i + 1..];
      if rules[i].id > maxId {
        maxId := rules[i].id;
      }
      i := i + 1;
    }
  }

  lemma {:induction false} MaxIdBounds(rules: seq<Rule>, m: int)
    ensures MaxIdFrom(rules, m) >= m
    ensures forall i :: 0 <= i < |rules| ==> rules[i].id <= MaxIdFrom(rules, m)
    ensures MaxIdFrom(rules, m) == m || exists i :: 0 <= i < |rules| && rules[i].id == MaxIdFrom(rules, m)
    decreases |rules|
  {
    if rules != [] {
      var m' := if rules[0].id > m then rules[0].id else m;
      MaxIdBounds(rules[1..], m');
      var r := MaxIdFrom(rules, m);
      if r != m && r != m' {
        var j :| 0 <= j < |rules[1..]| && rules[1..][j].id == r;
        assert rules[j + 1].id == r;
      }
      forall i | 0 <= i < |rules|
        ensures rules[i].id <= r
      {
        if i > 0 {
          assert rules[i] == rules[1..][i - 1];
        }
      }
    }
  }

  /** Where the numbering does not wrap, a rule with an id keeps it and the rule at position
      `i` without one gets `next` plus the number of id-less rules up to and including it. */
  lemma {:induction false} AssignShape(rules: seq<Rule>, next: int)
    requires next + Zeros(rules) <= MaxInt
    ensures |Assign(rules, next)| == |rules|
    ensures forall i :: 0 <= i < |rules| && rules[i].id != 0 ==> Assign(rules, next)[i] == rules[i]
    ensures forall i :: 0 <= i < |rules| && rules[i].id == 0 ==>
      Assign(rules, next)[i] == rules[i].(id := next + Zeros(rules[..i + 1]))
    decreases |rules|
  {
    if rules != [] {
      var d := if rules[0].id == 0 then 1 else 0;
      assert next + d == (if rules[0].id == 0 then Inc(next) else next);
      AssignShape(rules[1..], next + d);
      var tail := Assign(rules[1..], next + d);
      assert rules == [rules[0]] + rules[1..];
      AssignCons(rules[0], rules[1..], next);
      var r := Assign(rules, next);
      assert r == [if d == 1 then rules[0].(id := next + 1) else rules[0]] + tail;
      forall i | 0 <= i < |rules|
        ensures rules[i].id != 0 ==> r[i] == rules[i]
        ensures rules[i].id == 0 ==> r[i] == rules[i].(id := next + Zeros(rules[..i + 1]))
      {
        ZerosHead(rules, i);
        if i > 0 {
          assert r[i] == tail[i - 1] && rules[i] == rules[1..][i - 1];
        }
      }
    }
  }

  lemma ZerosHead(rules: seq<Rule>, i: nat)
    requires i < |rules|
    ensures Zeros(rules[..i + 1]) == (if rules[0].id == 0 then 1 else 0) + Zeros(rules[1..][..i])
  {
    assert rules[..i + 1][0] == rules[0] && rules[..i + 1][1..] == rules[1..][..i];
  }

  lemma {:induction false} ZerosPrefix(rules: seq<Rule>, i: nat, j: nat)
    requires i <= j <= |rules|
    ensures Zeros(rules[..i]) <= Zeros(rules[..j]) <= Zeros(rules)
    ensures i < j && rules[j - 1].id == 0 ==> Zeros(rules[..i]) < Zeros(rules[..j])
    decreases |rules|
  {
    if rules != [] && j > 0 {
      assert rules[..j][1..] == rules[1..][..j - 1];
      if i > 0 {
        assert rules[..i][1..] == rules[1..][..i - 1];
        ZerosPrefix(rules[1..], i - 1, j - 1);
      } else {
        ZerosPrefix(rules[1..], 0, j - 1);
        assert rules[1..][..0] == [];
        assert rules[..0] == [];
      }
    } else if rules == [] {
      assert rules[..i] == rules[..j] == rules;
    } else {
      assert rules[..i] == [] && rules[..j] == [];
    }
  }

  /** `NewRulesWithArray` leaves no rule without an id, keeps every explicit id, and gives the
      id-less rules consecutive ids after the largest explicit one (at least 1), which therefore
      differ from each other and from every explicit id; this holds while the numbering stays
      in the range of `int`. */
  lemma AssignIdsProperties(rules: seq<Rule>)
    requires MaxIdFrom(rules, 1) + Zeros(rules) <= MaxInt
    ensures var r, m := AssignIds(rules), MaxIdFrom(rules, 1);
      && |r| == |rules|
      && (forall i :: 0 <= i < |r| ==> r[i].id != 0)
      && (forall i :: 0 <= i < |r| && rules[i].id != 0 ==> r[i] == rules[i])
      && (forall i :: 0 <= i < |r| && rules[i].id == 0 ==> r[i] == rules[i].(id := m + Zeros(rules[..i + 1])))
      && (forall i, j :: 0 <= i < |r| && 0 <= j < |r| && i != j && rules[i].id == 0 ==> r[i].id != r[j].id)
  {
    var r, m := AssignIds(rules), MaxIdFrom(rules, 1);
    AssignShape(rules, m);
    MaxIdBounds(rules, 1);
    forall i | 0 <= i < |r| && rules[i].id == 0
      ensures r[i].id > m
    {
      ZerosPrefix(rules, i, i + 1);
    }
    forall i, j | 0 <= i < |r| && 0 <= j < |r| && i != j && rules[i].id == 0
      ensures r[i].id != r[j].id
    {
      if rules[j].id == 0 {
        ZerosDistinct(rules, i, j);
        assert r[i].id == m + Zeros(rules[..i + 1]) && r[j].id == m + Zeros(rules[..j + 1]);
      } else {
        assert r[j].id == rules[j].id <= m < r[i].id;
      }
    }
  }

  /** Two different rules without an id have different counts of id-less rules up to them. */
  lemma ZerosDistinct(rules: seq<Rule>, i: nat, j: nat)
    requires i < |rules| && j < |rules| && i != j && rules[i].id == 0 && rules[j].id == 0
    ensures Zeros(rules[..i + 1]) != Zeros(rules[..j + 1])
  {
    if i < j {
      ZerosPrefix(rules, i + 1, j + 1);
    } else {
      ZerosPrefix(rules, j + 1, i + 1);
    }
  }

  // ---------------------------------------------------------------- injectLogic

  /** The decision of `injectLogic`: `Ok(None)` leaves the group as it is, `Ok(Some(t))` commits
      `t` as its logic, `Fail` is the error returned (or the panic of the probe). */
  function Injection(logic: string, ruleIds: seq<int>, draw: nat -> bool): Result<Option<string>> {
    var formatted := Format(logic, true);
    if formatted == " " || formatted == "" then Ok(None)
    else if !IsAllValidSymbol(formatted) then Fail(Error("invalid logic expression: invalid symbol"))
    else
      match Probe(formatted, draw)
      case Some(Panic(p)) => Fail(Panic(p))
      case Some(Error(_)) => Fail(Error("invalid logic expression: can not calculate"))
      case None =>
        if !IsAllIdsExist(formatted, ruleIds) then Fail(Error("invalid logic expression: invalid id"))
        else Ok(Some(formatted))
  }

  /** `injectLogic` (core.go:14-40). The group is returned on success; `Fail` stands for the nil
      group and the error. */
  method InjectLogic(g: Rules, logic: string, draw: nat -> bool) returns (r: Result<Rules>)
    modifies g
    ensures r == match Injection(logic, RuleIds(old(g.rules)), draw) { case Ok(_) => Ok(g) case Fail(e) => Fail(e) }
    ensures g.logic == match Injection(logic, RuleIds(old(g.rules)), draw) { case Ok(Some(t)) => t case _ => old(g.logic) }
    ensures g.rules == old(g.rules) && g.name == old(g.name) && g.msg == old(g.msg)
  {
    var formatted := FormatLogicExpression(logic);
    if formatted == " " || formatted == "" {
      return Ok(g);
    }
    if !IsAllValidSymbol(formatted) {
      return Fail(Error("invalid logic expression: invalid symbol"));
    }
    var err := TryProbe(formatted, draw);
    if err.Some? {
      if err.value.Panic? {
        return Fail(err.value);
      }
      return Fail(Error("invalid logic expression: can not calculate"));
    }
    if !IsAllIdsExist(formatted, RuleIds(g.rules)) {
      return Fail(Error("invalid logic expression: invalid id"));
    }
    g.logic := formatted;
    return Ok(g);
  }

  /** Logic that is blank or only spaces leaves the group unchanged. */
  lemma InjectBlank(logic: string, ruleIds: seq<int>, draw: nat -> bool)
    requires forall i :: 0 <= i < |logic| ==> logic[i] == ' '
    ensures Injection(logic, ruleIds, draw) == Ok(None)
  {
    FormatOfSpaces(logic, true);
  }

  /** Logic is committed exactly when its normal form is not blank and passes the three checks,
      and what is committed is the normal form. */
  lemma InjectCommits(logic: string, ruleIds: seq<int>, draw: nat -> bool)
    ensures var t := Format(logic, true);
      Injection(logic, ruleIds, draw).Ok? && Injection(logic, ruleIds, draw).value.Some?
      <==> t != "" && IsAllValidSymbol(t) && Probe(t, draw) == None && IsAllIdsExist(t, ruleIds)
    ensures Injection(logic, ruleIds, draw).Ok? && Injection(logic, ruleIds, draw).value.Some?
      ==> Injection(logic, ruleIds, draw).value.value == Format(logic, true)
  {
    var t := Format(logic, true);
    FormatShape(logic, true);
  }

  /** Any logic whose normal form is the normalised text of a well-bracketed formula over the
      group's ids is committed, whatever the probe draws. */
  lemma InjectCanonical(logic: string, f: Formula, ruleIds: seq<int>, draw: nat -> bool)
    requires Format(logic, true) == Written(f)
    requires forall n :: n in Ids(f) ==> n in ruleIds
    requires WellBracketed(f) && RuleLogicProof.IdsInRange(f)
    ensures Injection(logic, ruleIds, draw) == Ok(Some(Written(f)))
  {
    WrittenSymbolsValid(f);
    WrittenProbeSucceeds(f, draw);
    WrittenIdsExist(f, ruleIds);
    WrittenNonEmpty(f);
    FormatShape(logic, true);
  }

  lemma FormatPair()
    ensures Format("1 2", true) == "1 2"
  {
    assert ToLower("1 2") == "1 2";
    assert Pretty("1 2", NoClass, true) == " 1 2";
    assert Squeeze(" 1 2", false) == " 1 2";
  }

  lemma TokensPair()
    ensures Split("1 2", " ") == ["1", "2"] && Itoa(1) == "1" && Itoa(2) == "2"
  {
    var ts := ["1", "2"];
    assert Join(ts, " ") == "1 2" by { assert ts[1..] == ["2"]; }
    SplitJoinSpace(ts);
  }

  lemma ProbePair(draw: nat -> bool)
    ensures Probe("1 2", draw) == None
  {
    TokensPair();
    var probe := map[1 := draw(0), 2 := draw(1)];
    assert ProbeFrom(["1", "2"], 0, draw, map[]) == Ok(probe);
    RuleLogicEdges.SurplusOperands(1, 2, probe);
    assert Itoa(1) + " " + Itoa(2) == "1 2";
    assert Calculate("1 2", probe).Ok?;
  }

  lemma ChecksPair()
    ensures IsAllValidSymbol("1 2") && IsAllIdsExist("1 2", [1, 2])
  {
    TokensPair();
    assert IsValidSymbol("1") && IsValidSymbol("2");
    assert "1" in IdTexts([1, 2]) && "2" in IdTexts([1, 2]) by {
      assert Itoa([1, 2][0]) == "1" && Itoa([1, 2][1]) == "2";
    }
  }

  /** Surplus operands pass every check: `1 2` is stored although it is no expression, and
      evaluates to the value of rule 2 alone. */
  lemma InjectSurplus(draw: nat -> bool)
    ensures Injection("1 2", [1, 2], draw) == Ok(Some("1 2"))
  {
    FormatPair();
    ChecksPair();
    ProbePair(draw);
  }

  // ---------------------------------------------------------------- injectExtractInfo

  /** `injectExtractInfo` (core.go:42-50): only the keys present are applied. */
  method InjectExtractInfo(g: Rules, extractInfo: map<string, string>) returns (r: Rules)
    modifies g
    ensures r == g
    ensures g.name == (if "name" in extractInfo then extractInfo["name"] else old(g.name))
    ensures g.msg == (if "msg" in extractInfo then extractInfo["msg"] else old(g.msg))
    ensures g.rules == old(g.rules) && g.logic == old(g.logic)
  {
    if "name" in extractInfo {
      g.name := extractInfo["name"];
    }
    if "msg" in extractInfo {
      g.msg := extractInfo["msg"];
    }
    return g;
  }

  // ---------------------------------------------------------------- fitWithMapInFact

  /** The three maps `fitWithMapInFact` fills, keyed by rule id: each rule's outcome, the
      message of each failing rule, and each plucked value. */
  datatype Collected = Collected(results: map<int, bool>, tips: map<int, string>, values: map<int, Value>)

  /** The three results of `fitWithMapInFact`; `None` is a nil map. */
  datatype FitOutcome = FitOutcome(fit: bool, tips: Option<map<int, string>>, values: Option<map<int, Value>>)

  /** A rule whose plucked value and expected value are both non-nil while one of them is of a
      type Go cannot compare. */
  predicate Clash(r: Rule, o: map<string, Value>) {
    var v := PluckSpec(r.key, o);
    v != Nil && r.val != Nil && (!Comparable(v) || !Comparable(r.val))
  }

  /** The outcome of rule `r` against `o`. */
  predicate Holds(r: Rule, o: map<string, Value>, regex: (string, string) -> bool) {
    Fit(r, PluckSpec(r.key, o), regex)
  }

  /** What one pass of the loop records for rule `r`; a later rule overwrites the outcome and
      the value of an earlier rule with the same id. */
  function Record(r: Rule, o: map<string, Value>, regex: (string, string) -> bool, acc: Collected): Collected {
    var flag := Holds(r, o, regex);
    Collected(acc.results[r.id := flag],
              if flag then acc.tips else acc.tips[r.id := r.msg],
              acc.values[r.id := PluckSpec(r.key, o)])
  }

  /** The loop over the rules; `None` is its early exit on a clash. */
  function Collect(rules: seq<Rule>, o: map<string, Value>, regex: (string, string) -> bool, acc: Collected): Option<Collected>
    decreases |rules|
  {
    if rules == [] then Some(acc)
    else if Clash(rules[0], o) then None
    else Collect(rules[1..], o, regex, Record(rules[0], o, regex, acc))
  }

  predicate AllTrue(results: map<int, bool>) {
    forall id :: id in results ==> results[id]
  }

  /** What `fitWithMapInFact` returns; a panic of the logic evaluator propagates. */
  function FitInFact(rules: seq<Rule>, logic: string, o: map<string, Value>, regex: (string, string) -> bool): Result<FitOutcome> {
    match Collect(rules, o, regex, Collected(map[], map[], map[]))
    case None => Ok(FitOutcome(false, None, None))
    case Some(c) =>
      if logic == "" then
        if AllTrue(c.results) then Ok(FitOutcome(true, None, Some(c.values)))
        else Ok(FitOutcome(false, Some(c.tips), Some(c.values)))
      else
        match Calculate(logic, c.results)
        case Fail(Panic(p)) => Fail(Panic(p))
        case Fail(Error(_)) => Ok(FitOutcome(false, None, Some(c.values)))
        case Ok(answer) => Ok(FitOutcome(answer, Some(c.tips), Some(c.values)))
  }

  method FitWithMapInFact(g: Rules, o: map<string, Value>, regex: (string, string) -> bool) returns (r: Result<FitOutcome>)
    ensures r == FitInFact(g.rules, g.logic, o, regex)
  {
    var c := CollectRules(g.rules, o, regex);
    if c.None? {
      return Ok(FitOutcome(false, None, None));
    }
    var results, tips, values := c.value.results, c.value.tips, c.value.values;
    if g.logic == "" {
      var remaining := results.Keys;
      while remaining != {}
        invariant remaining <= results.Keys
        invariant forall id :: id in results && id !in remaining ==> results[id]
        decreases remaining
      {
        var id := Any(remaining);
        if !results[id] {
          return Ok(FitOutcome(false, Some(tips), Some(values)));
        }
        remaining := remaining - {id};
      }
      return Ok(FitOutcome(true, None, Some(values)));
    }
    var answer := CalculateExpression(g.logic, results);
    match answer {
      case Fail(Panic(p)) => return Fail(Panic(p));
      case Fail(Error(_)) => return Ok(FitOutcome(false, None, Some(values)));
      case Ok(b) => return Ok(FitOutcome(b, Some(tips), Some(values)));
    }
  }

  /** Some element of a non-empty set: the order of Go's map iteration is unspecified. */
  method Any(s: set<int>) returns (x: int)
    requires s != {}
    ensures x in s
  {
    if forall e :: e !in s {
      assert false;
    }
    x :| x in s;
  }

  /** The loop of `fitWithMapInFact` over the rules. */
  method CollectRules(rules: seq<Rule>, o: map<string, Value>, regex: (string, string) -> bool) returns (c: Option<Collected>)
    ensures c == Collect(rules, o, regex, Collected(map[], map[], map[]))
  {
    var results: map<int, bool> := map[];
    var tips: map<int, string> := map[];
    var values: map<int, Value> := map[];
    var i := 0;
    assert rules[0..] == rules;
    while i < |rules|
      invariant 0 <= i <= |rules|
      invariant Collect(rules[i..], o, regex, Collected(results, tips, values))
             == Collect(rules, o, regex, Collected(map[], map[], map[]))
    {
      var rule := rules[i];
      assert rules[i..][1..] == rules[i + 1..];
      var v := Pluck(rule.key, o);
      if v != Nil && rule.val != Nil {
        if !Comparable(v) || !Comparable(rule.val) {
          return None;
        }
      }
      values := values[rule.id := v];
      var flag := Fit(rule, v, regex);
      results := results[rule.id := flag];
      if !flag {
        tips := tips[rule.id := rule.msg];
      }
      i := i + 1;
    }
    assert rules[i..] == [];
    return Some(Collected(results, tips, values));
  }

  predicate DistinctIds(rules: seq<Rule>) {
    forall i, j :: 0 <= i < j < |rules| ==> rules[i].id != rules[j].id
  }

  predicate NoClash(rules: seq<Rule>, o: map<string, Value>) {
    forall i :: 0 <= i < |rules| ==> !Clash(rules[i], o)
  }

  /** A clash anywhere in the group makes the whole evaluation `(false, nil, nil)`. */
  lemma {:induction false} ClashAborts(rules: seq<Rule>, o: map<string, Value>, regex: (string, string) -> bool, acc: Collected, k: nat)
    requires k < |rules| && Clash(rules[k], o)
    ensures Collect(rules, o, regex, acc) == None
    decreases |rules|
  {
    if k > 0 && !Clash(rules[0], o) {
      ClashAborts(rules[1..], o, regex, Record(rules[0], o, regex, acc), k - 1);
    }
  }

  lemma {:induction false} CollectSome(rules: seq<Rule>, o: map<string, Value>, regex: (string, string) -> bool, acc: Collected)
    requires NoClash(rules, o)
    ensures Collect(rules, o, regex, acc).Some?
    decreases |rules|
  {
    if rules != [] {
      assert NoClash(rules[1..], o) by {
        forall i | 0 <= i < |rules| - 1 ensures !Clash(rules[1..][i], o) {
          assert rules[1..][i] == rules[i + 1];
        }
      }
      CollectSome(rules[1..], o, regex, Record(rules[0], o, regex, acc));
    }
  }

  /** An id that no rule carries keeps what `acc` held for it. */
  lemma {:induction false} CollectKeeps(rules: seq<Rule>, o: map<string, Value>, regex: (string, string) -> bool, acc: Collected, id: int)
    requires NoClash(rules, o)
    requires forall i :: 0 <= i < |rules| ==> rules[i].id != id
    ensures Collect(rules, o, regex, acc).Some?
    ensures var c := Collect(rules, o, regex, acc).value;
      && (id in c.results <==> id in acc.results) && (id in acc.results ==> c.results[id] == acc.results[id])
      && (id in c.tips <==> id in acc.tips) && (id in acc.tips ==> c.tips[id] == acc.tips[id])
    decreases |rules|
  {
    CollectSome(rules, o, regex, acc);
    if rules != [] {
      assert NoClash(rules[1..], o) by {
        forall i | 0 <= i < |rules| - 1 ensures !Clash(rules[1..][i], o) {
          assert rules[1..][i] == rules[i + 1];
        }
      }
      CollectKeeps(rules[1..], o, regex, Record(rules[0], o, regex, acc), id);
    }
  }

  /** With distinct ids, the `k`-th rule's outcome, value and (when it fails) message are
      recorded under its id. */
  lemma {:induction false} CollectAt(rules: seq<Rule>, o: map<string, Value>, regex: (string, string) -> bool, acc: Collected, k: nat)
    requires NoClash(rules, o) && DistinctIds(rules) && k < |rules|
    ensures Collect(rules, o, regex, acc).Some?
    ensures var c := Collect(rules, o, regex, acc).value; var r := rules[k];
      && r.id in c.results && c.results[r.id] == Holds(r, o, regex)
      && (!Holds(r, o, regex) ==> r.id in c.tips && c.tips[r.id] == r.msg)
      && r.id in c.values && c.values[r.id] == PluckSpec(r.key, o)
    decreases |rules|
  {
    CollectSome(rules, o, regex, acc);
    var rest := rules[1..];
    assert NoClash(rest, o) by {
      forall i | 0 <= i < |rest| ensures !Clash(rest[i], o) {
        assert rest[i] == rules[i + 1];
      }
    }
    var next := Record(rules[0], o, regex, acc);
    if k == 0 {
      forall i | 0 <= i < |rest| ensures rest[i].id != rules[0].id {
        assert rest[i] == rules[i + 1];
      }
      CollectKeeps(rest, o, regex, next, rules[0].id);
      CollectValueKept(rest, o, regex, next, rules[0].id);
    } else {
      assert DistinctIds(rest) by {
        forall i, j | 0 <= i < j < |rest| ensures rest[i].id != rest[j].id {
          assert rest[i] == rules[i + 1] && rest[j] == rules[j + 1];
        }
      }
      CollectAt(rest, o, regex, next, k - 1);
      assert rest[k - 1] == rules[k];
    }
  }

  /** The value map keeps, for an id no rule carries, what `acc` held. */
  lemma {:induction false} CollectValueKept(rules: seq<Rule>, o: map<string, Value>, regex: (string, string) -> bool, acc: Collected, id: int)
    requires NoClash(rules, o)
    requires forall i :: 0 <= i < |rules| ==> rules[i].id != id
    requires id in acc.values
    ensures Collect(rules, o, regex, acc).Some?
    ensures var c := Collect(rules, o, regex, acc).value; id in c.values && c.values[id] == acc.values[id]
    decreases |rules|
  {
    CollectSome(rules, o, regex, acc);
    if rules != [] {
      assert NoClash(rules[1..], o) by {
        forall i | 0 <= i < |rules| - 1 ensures !Clash(rules[1..][i], o) {
          assert rules[1..][i] == rules[i + 1];
        }
      }
      CollectValueKept(rules[1..], o, regex, Record(rules[0], o, regex, acc), id);
    }
  }

  /** Every id in the outcome and tip maps came from `acc` or from a rule, and a tip from a
      failing rule. */
  lemma {:induction false} CollectOnly(rules: seq<Rule>, o: map<string, Value>, regex: (string, string) -> bool, acc: Collected, id: int)
    requires NoClash(rules, o)
    ensures Collect(rules, o, regex, acc).Some?
    ensures var c := Collect(rules, o, regex, acc).value;
      && (id in c.results ==> id in acc.results || exists i :: 0 <= i < |rules| && rules[i].id == id)
      && (id in c.tips ==> id in acc.tips || exists i :: 0 <= i < |rules| && rules[i].id == id && !Holds(rules[i], o, regex))
    decreases |rules|
  {
    CollectSome(rules, o, regex, acc);
    if rules != [] {
      var rest := rules[1..];
      assert NoClash(rest, o) by {
        forall i | 0 <= i < |rest| ensures !Clash(rest[i], o) {
          assert rest[i] == rules[i + 1];
        }
      }
      CollectOnly(rest, o, regex, Record(rules[0], o, regex, acc), id);
      if exists i :: 0 <= i < |rest| && rest[i].id == id {
        var i :| 0 <= i < |rest| && rest[i].id == id;
        assert rules[i + 1] == rest[i];
      }
      if exists i :: 0 <= i < |rest| && rest[i].id == id && !Holds(rest[i], o, regex) {
        var i :| 0 <= i < |rest| && rest[i].id == id && !Holds(rest[i], o, regex);
        assert rules[i + 1] == rest[i];
      }
    }
  }

  /** Without logic, and with distinct ids and no clash, the verdict is the conjunction of the
      rules' outcomes; on success the tips are nil, otherwise they map exactly the failing ids to
      their messages. */
  lemma FitWithoutLogic(rules: seq<Rule>, o: map<string, Value>, regex: (string, string) -> bool)
    requires DistinctIds(rules) && NoClash(rules, o)
    ensures FitInFact(rules, "", o, regex).Ok?
    ensures var out := FitInFact(rules, "", o, regex).value;
      && (out.fit <==> forall i :: 0 <= i < |rules| ==> Holds(rules[i], o, regex))
      && (out.fit ==> out.tips == None)
      && (!out.fit ==> out.tips.Some?)
      && (!out.fit ==> forall id :: id in out.tips.value <==> exists i :: 0 <= i < |rules| && rules[i].id == id && !Holds(rules[i], o, regex))
      && (!out.fit ==> forall i :: 0 <= i < |rules| && !Holds(rules[i], o, regex) ==> out.tips.value[rules[i].id] == rules[i].msg)
  {
    CollectFromEmpty(rules, o, regex);
    var c := Collect(rules, o, regex, Collected(map[], map[], map[])).value;
    AllTrueIff(rules, c, o, regex);
  }

  /** Without distinct ids the later rule overwrites the earlier one's outcome: a failing rule
      followed by a holding rule with the same id leaves a group without logic that fits, and the
      other order leaves one that does not, with the failing rule's message as its tip. */
  lemma DuplicateIdOverwrites(bad: Rule, good: Rule, o: map<string, Value>, regex: (string, string) -> bool)
    requires bad.id == good.id && !Clash(bad, o) && !Clash(good, o)
    requires !Holds(bad, o, regex) && Holds(good, o, regex)
    ensures FitInFact([bad, good], "", o, regex) == Ok(FitOutcome(true, None, Some(map[good.id := PluckSpec(good.key, o)])))
    ensures FitInFact([good, bad], "", o, regex)
         == Ok(FitOutcome(false, Some(map[bad.id := bad.msg]), Some(map[bad.id := PluckSpec(bad.key, o)])))
  {
    FailingFirst(bad, good, o, regex);
    HoldingFirst(bad, good, o, regex);
  }

  lemma FailingFirst(bad: Rule, good: Rule, o: map<string, Value>, regex: (string, string) -> bool)
    requires bad.id == good.id && !Clash(bad, o) && !Clash(good, o)
    requires !Holds(bad, o, regex) && Holds(good, o, regex)
    ensures FitInFact([bad, good], "", o, regex) == Ok(FitOutcome(true, None, Some(map[good.id := PluckSpec(good.key, o)])))
  {
    var empty := Collected(map[], map[], map[]);
    assert [bad, good][1..] == [good] && [good][1..] == [];
    var c1 := Record(good, o, regex, Record(bad, o, regex, empty));
    assert Collect([good], o, regex, Record(bad, o, regex, empty)) == Some(c1);
    assert Collect([bad, good], o, regex, empty) == Some(c1);
    assert c1.results == map[good.id := true] && c1.values == map[good.id := PluckSpec(good.key, o)];
  }

  lemma HoldingFirst(bad: Rule, good: Rule, o: map<string, Value>, regex: (string, string) -> bool)
    requires bad.id == good.id && !Clash(bad, o) && !Clash(good, o)
    requires !Holds(bad, o, regex) && Holds(good, o, regex)
    ensures FitInFact([good, bad], "", o, regex)
         == Ok(FitOutcome(false, Some(map[bad.id := bad.msg]), Some(map[bad.id := PluckSpec(bad.key, o)])))
  {
    var empty := Collected(map[], map[], map[]);
    assert [good, bad][1..] == [bad] && [bad][1..] == [];
    var c2 := Record(bad, o, regex, Record(good, o, regex, empty));
    assert Collect([bad], o, regex, Record(good, o, regex, empty)) == Some(c2);
    assert Collect([good, bad], o, regex, empty) == Some(c2);
    assert c2.results == map[bad.id := false];
    assert bad.id in c2.results && !c2.results[bad.id];
    assert c2.tips == map[bad.id := bad.msg] && c2.values == map[bad.id := PluckSpec(bad.key, o)];
  }

  /** What the collection from empty maps holds when the ids are distinct and nothing clashes. */
  lemma CollectFromEmpty(rules: seq<Rule>, o: map<string, Value>, regex: (string, string) -> bool)
    requires DistinctIds(rules) && NoClash(rules, o)
    ensures Collect(rules, o, regex, Collected(map[], map[], map[])).Some?
    ensures var c := Collect(rules, o, regex, Collected(map[], map[], map[])).value;
      && (forall i :: 0 <= i < |rules| ==> rules[i].id in c.results && c.results[rules[i].id] == Holds(rules[i], o, regex))
      && (forall i :: 0 <= i < |rules| && !Holds(rules[i], o, regex) ==> rules[i].id in c.tips && c.tips[rules[i].id] == rules[i].msg)
      && (forall id :: id in c.results ==> exists i :: 0 <= i < |rules| && rules[i].id == id)
      && (forall id :: id in c.tips ==> exists i :: 0 <= i < |rules| && rules[i].id == id && !Holds(rules[i], o, regex))
  {
    var empty := Collected(map[], map[], map[]);
    CollectSome(rules, o, regex, empty);
    var c := Collect(rules, o, regex, empty).value;
    forall i | 0 <= i < |rules|
      ensures rules[i].id in c.results && c.results[rules[i].id] == Holds(rules[i], o, regex)
      ensures !Holds(rules[i], o, regex) ==> rules[i].id in c.tips && c.tips[rules[i].id] == rules[i].msg
    {
      CollectAt(rules, o, regex, empty, i);
    }
    forall id
      ensures id in c.results ==> exists i :: 0 <= i < |rules| && rules[i].id == id
      ensures id in c.tips ==> exists i :: 0 <= i < |rules| && rules[i].id == id && !Holds(rules[i], o, regex)
    {
      CollectOnly(rules, o, regex, empty, id);
    }
  }

  lemma AllTrueIff(rules: seq<Rule>, c: Collected, o: map<string, Value>, regex: (string, string) -> bool)
    requires forall i :: 0 <= i < |rules| ==> rules[i].id in c.results && c.results[rules[i].id] == Holds(rules[i], o, regex)
    requires forall id :: id in c.results ==> exists i :: 0 <= i < |rules| && rules[i].id == id
    ensures AllTrue(c.results) <==> forall i :: 0 <= i < |rules| ==> Holds(rules[i], o, regex)
  {
    if forall i :: 0 <= i < |rules| ==> Holds(rules[i], o, regex) {
      forall id | id in c.results
        ensures c.results[id]
      {
        var i :| 0 <= i < |rules| && rules[i].id == id;
      }
    } else {
      var i :| 0 <= i < |rules| && !Holds(rules[i], o, regex);
      assert !c.results[rules[i].id];
    }
  }

  /** With logic, and with distinct ids and no clash, the evaluator sees each rule's outcome
      under its id, a verdict it reaches is the answer, and the tips list exactly the failing
      rules whatever the verdict. */
  lemma FitWithLogic(rules: seq<Rule>, logic: string, o: map<string, Value>, regex: (string, string) -> bool)
    requires logic != ""
    requires DistinctIds(rules) && NoClash(rules, o)
    ensures Collect(rules, o, regex, Collected(map[], map[], map[])).Some?
    ensures var c := Collect(rules, o, regex, Collected(map[], map[], map[])).value;
      && (forall i :: 0 <= i < |rules| ==> rules[i].id in c.results && c.results[rules[i].id] == Holds(rules[i], o, regex))
      && (forall id :: id in c.results ==> exists i :: 0 <= i < |rules| && rules[i].id == id)
      && (forall id :: id in c.tips <==> exists i :: 0 <= i < |rules| && rules[i].id == id && !Holds(rules[i], o, regex))
      && (Calculate(logic, c.results).Ok? ==>
            FitInFact(rules, logic, o, regex) == Ok(FitOutcome(Calculate(logic, c.results).value, Some(c.tips), Some(c.values))))
      && (Calculate(logic, c.results).Fail? && !Calculate(logic, c.results).IsPanic() ==>
            FitInFact(rules, logic, o, regex) == Ok(FitOutcome(false, None, Some(c.values))))
  {
    CollectFromEmpty(rules, o, regex);
  }

  /** With the normalised text of a well-bracketed formula over the group's ids as logic, the
      verdict is the formula's standard (not > and > or) value over the rules' outcomes. */
  lemma FitCanonicalLogic(rules: seq<Rule>, f: Formula, o: map<string, Value>, regex: (string, string) -> bool)
    requires DistinctIds(rules) && NoClash(rules, o)
    requires forall n :: n in Ids(f) ==> n in RuleIds(rules)
    requires WellBracketed(f) && RuleLogicProof.IdsInRange(f)
    ensures Collect(rules, o, regex, Collected(map[], map[], map[])).Some?
    ensures var c := Collect(rules, o, regex, Collected(map[], map[], map[])).value;
      && Ids(f) <= c.results.Keys
      && FitInFact(rules, Written(f), o, regex).Ok?
      && FitInFact(rules, Written(f), o, regex).value.fit == Eval(f, c.results)
  {
    var empty := Collected(map[], map[], map[]);
    CollectSome(rules, o, regex, empty);
    var c := Collect(rules, o, regex, empty).value;
    forall n | n in Ids(f)
      ensures n in c.results
    {
      var k :| 0 <= k < |RuleIds(rules)| && RuleIds(rules)[k] == n;
      CollectAt(rules, o, regex, empty, k);
    }
    RuleLogicProof.CalculateWritten(f, c.results);
    WrittenNonEmpty(f);
  }
}
