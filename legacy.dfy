/** The older copy of the engine in rule_core.go. Two things differ from core.go: its
    normaliser does not separate adjacent brackets, and its `injectLogic` has no shortcut for
    blank logic. Everything else is the same code, so it is delegated to the core model. */
module LegacyCore {
  import opened Wrappers
  import opened Text
  import opened Formula
  import opened CoreValues
  import opened CoreCheck
  import CoreFormat
  import Core
  import CoreSet
  import Broker
  import RuleLogicProof

  /** `formatLogicExpression` (rule_core.go:352-396): spaces go only where the class changes. */
  method FormatLogicExpression(raw: string) returns (r: string)
    ensures r == CoreFormat.Format(raw, false)
  {
    r := CoreFormat.FormatWith(raw, false);
  }

  /** The decision of the legacy `injectLogic`: `Ok(t)` commits `t`. */
  function Injection(logic: string, ruleIds: seq<int>, draw: nat -> bool): Result<string> {
    var formatted := CoreFormat.Format(logic, false);
    if !IsAllValidSymbol(formatted) then Fail(Error("invalid logic expression: invalid symbol"))
    else
      match Probe(formatted, draw)
      case Some(Panic(p)) => Fail(Panic(p))
      case Some(Error(_)) => Fail(Error("invalid logic expression: can not calculate"))
      case None =>
        if !IsAllIdsExist(formatted, ruleIds) then Fail(Error("invalid logic expression: invalid id"))
        else Ok(formatted)
  }

  /** `injectLogic` (rule_core.go:14-37). */
  method InjectLogic(g: Core.Rules, logic: string, draw: nat -> bool) returns (r: Result<Core.Rules>)
    modifies g
    ensures r == match Injection(logic, Core.RuleIds(old(g.rules)), draw) { case Ok(_) => Ok(g) case Fail(e) => Fail(e) }
    ensures g.logic == match Injection(logic, Core.RuleIds(old(g.rules)), draw) { case Ok(t) => t case _ => old(g.logic) }
    ensures g.rules == old(g.rules) && g.name == old(g.name) && g.msg == old(g.msg)
  {
    var formatted := FormatLogicExpression(logic);
    if !IsAllValidSymbol(formatted) {
      return Fail(Error("invalid logic expression: invalid symbol"));
    }
    var err := TryProbe(formatted, draw);
    if err.Some? {
      if err.value.Panic? {
        return Fail(err.value);
      }
      return Fail(Error("invalid logic expression: can not calculate"));
    }
    if !IsAllIdsExist(formatted, Core.RuleIds(g.rules)) {
      return Fail(Error("invalid logic expression: invalid id"));
    }
    g.logic := formatted;
    return Ok(g);
  }

  /** Without the shortcut, blank logic normalises to the empty text, whose single empty token
      passes the symbol check as a number but which `strconv.Atoi` rejects: the logic is refused. */
  lemma BlankRejected(logic: string, ruleIds: seq<int>, draw: nat -> bool)
    requires forall i :: 0 <= i < |logic| ==> logic[i] == ' '
    ensures Injection(logic, ruleIds, draw) == Fail(Error("invalid logic expression: can not calculate"))
  {
    CoreFormat.FormatOfSpaces(logic, false);
    assert Split("", " ") == [""];
    assert Atoi("").Fail?;
  }

  /** Adjacent brackets stay glued together: `((` is one token, which the symbol check refuses,
      whereas the core normaliser writes `( (`. */
  lemma GluedBrackets(ruleIds: seq<int>, draw: nat -> bool)
    ensures CoreFormat.Format("((", false) == "(("
    ensures CoreFormat.Format("((", true) == "( ("
    ensures Injection("((", ruleIds, draw) == Fail(Error("invalid logic expression: invalid symbol"))
  {
    GluedLegacy();
    GluedCore();
    GluedRefused();
  }

  lemma GluedLegacy()
    ensures CoreFormat.Format("((", false) == "(("
  {
    assert ToLower("((") == "((";
    assert "(("[1..] == "(";
    assert "("[1..] == "";
    assert CoreFormat.Pretty("(", CoreFormat.Bracket, false) == "(";
    assert CoreFormat.Pretty("((", CoreFormat.NoClass, false) == " ((";
    assert CoreFormat.Squeeze(" ((", false) == " ((" by {
      assert " (("[1..] == "((";
      assert CoreFormat.Squeeze("((", true) == "((" by {
        assert CoreFormat.Squeeze("(", false) == "(";
      }
    }
    assert TrimLeft(" ((") == "((" by { assert " (("[1..] == "(("; }
  }

  lemma GluedCore()
    ensures CoreFormat.Format("((", true) == "( ("
  {
    assert ToLower("((") == "((";
    assert "(("[1..] == "(";
    assert "("[1..] == "";
    assert CoreFormat.Pretty("(", CoreFormat.Bracket, true) == " (";
    assert CoreFormat.Pretty("((", CoreFormat.NoClass, true) == " ( (";
    assert CoreFormat.Squeeze(" ( (", false) == " ( (" by {
      assert " ( ("[1..] == "( (";
      assert " ( ("[2..] == " (";
      assert CoreFormat.Squeeze(" (", false) == " (";
    }
    assert TrimLeft(" ( (") == "( (" by { assert " ( ("[1..] == "( ("; }
  }

  lemma GluedRefused()
    ensures !IsAllValidSymbol("((")
  {
    assert Split("((", " ") == ["(("] by {
      assert !OccursAt("((", " ", 0) by { assert "(("[0..1] == "("; }
      assert !OccursAt("((", " ", 1) by { assert "(("[1..2] == "("; }
    }
    assert !IsValidSymbol("((") by { assert !IsDigit("(("[0]); }
  }

  /** Logic whose legacy normal form is the normalised text of a well-bracketed formula over the
      group's ids is committed, whatever the probe draws. */
  lemma InjectCanonical(logic: string, f: Formula, ruleIds: seq<int>, draw: nat -> bool)
    requires CoreFormat.Format(logic, false) == Written(f)
    requires forall n :: n in Ids(f) ==> n in ruleIds
    requires WellBracketed(f) && RuleLogicProof.IdsInRange(f)
    ensures Injection(logic, ruleIds, draw) == Ok(Written(f))
  {
    WrittenSymbolsValid(f);
    WrittenProbeSucceeds(f, draw);
    WrittenIdsExist(f, ruleIds);
  }

  /** `NewRulesWithArray` (rule_core.go:135-152), the same code as in core.go. */
  method NewRulesWithArray(rules: array<Rule>) returns (g: Core.Rules)
    modifies rules
    ensures rules[..] == Core.AssignIds(old(rules[..]))
    ensures fresh(g) && g.rules == rules[..] && g.logic == "" && g.name == "" && g.msg == ""
  {
    g := Core.NewRulesWithArray(rules);
  }

  /** Whether the legacy construction with `logic` fails. */
  predicate Rejected(logic: string, ruleIds: seq<int>, draw: nat -> bool) {
    logic != "" && Injection(logic, ruleIds, draw).Fail?
  }

  /** `NewRulesWithArrayAndLogic` (rule_core.go:110-122). */
  method NewRulesWithArrayAndLogic(rules: array<Rule>, logic: string, draw: nat -> bool) returns (r: Result<Core.Rules>)
    modifies rules
    ensures rules[..] == Core.AssignIds(old(rules[..]))
    ensures Rejected(logic, Core.RuleIds(rules[..]), draw) ==> r == Fail(Injection(logic, Core.RuleIds(rules[..]), draw).failure)
    ensures !Rejected(logic, Core.RuleIds(rules[..]), draw) ==>
      r.Ok? && fresh(r.value) && r.value.rules == rules[..] && r.value.name == "" && r.value.msg == ""
      && r.value.logic == (if logic == "" then "" else Injection(logic, Core.RuleIds(rules[..]), draw).value)
  {
    var g := NewRulesWithArray(rules);
    if logic == "" {
      return Ok(g);
    }
    r := InjectLogic(g, logic, draw);
  }

  /** `NewRulesSet` (rule_core.go:49-63), the same code as in core.go. */
  method NewRulesSet(listRules: seq<Core.Rules>, extractInfo: map<string, string>) returns (s: CoreSet.RulesSet)
    modifies listRules
    ensures fresh(s) && s.groups == listRules
    ensures s.name == (if "name" in extractInfo then extractInfo["name"] else "")
    ensures s.msg == (if "msg" in extractInfo then extractInfo["msg"] else "")
    ensures forall g :: g in listRules ==> g.name == CoreSet.NameAfter(listRules, g, old(g.name)) && g.name != ""
    ensures forall g :: g in listRules ==> g.rules == old(g.rules) && g.logic == old(g.logic) && g.msg == old(g.msg)
  {
    s := CoreSet.NewRulesSet(listRules, extractInfo);
  }

  /** `FitWithMap` (rule_core.go:159-197): the loop of core.go's `fitWithMapInFact` without the
      value map, so the same verdict and tips. */
  method FitWithMap(g: Core.Rules, o: map<string, Value>, regex: (string, string) -> bool) returns (r: Result<(bool, Option<map<int, string>>)>)
    ensures r == Broker.Verdict(g.rules, g.logic, o, regex)
    ensures r.Ok? && g.logic == "" && r.value.0 ==> r.value.1 == None
  {
    r := Broker.FitWithMap(g, o, regex);
  }
}
