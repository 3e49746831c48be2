/** The public constructors and evaluation entry points of broker.go, over the group of
    core.go. */
module Broker {
  import opened Wrappers
  import opened Formula
  import opened CoreValues
  import opened CoreFormat
  import opened Core
  import RuleLogicProof

  /** The logic a freshly built group ends up with: none for empty logic, otherwise what
      `injectLogic` commits (blank logic commits nothing). */
  function LogicAfter(logic: string, ruleIds: seq<int>, draw: nat -> bool): string {
    if logic == "" then ""
    else match Injection(logic, ruleIds, draw)
      case Ok(Some(t)) => t
      case _ => ""
  }

  /** Whether building a group with `logic` fails, and with what. */
  predicate Rejected(logic: string, ruleIds: seq<int>, draw: nat -> bool) {
    logic != "" && Injection(logic, ruleIds, draw).Fail?
  }

  /** `NewRulesWithArrayAndLogic` (broker.go:50-62). The ids of the caller's rules are numbered
      in place even when the logic is then rejected. */
  method NewRulesWithArrayAndLogic(rules: array<Rule>, logic: string, draw: nat -> bool) returns (r: Result<Rules>)
    modifies rules
    ensures rules[..] == AssignIds(old(rules[..]))
    ensures Rejected(logic, RuleIds(rules[..]), draw) ==> r == Fail(Injection(logic, RuleIds(rules[..]), draw).failure)
    ensures !Rejected(logic, RuleIds(rules[..]), draw) ==>
      r.Ok? && fresh(r.value) && r.value.rules == rules[..] && r.value.name == "" && r.value.msg == ""
      && r.value.logic == LogicAfter(logic, RuleIds(rules[..]), draw)
  {
    var g := NewRulesWithArray(rules);
    if logic == "" {
      return Ok(g);
    }
    r := InjectLogic(g, logic, draw);
  }

  /** `NewRulesWithArrayAndLogicAndInfo` (broker.go:19-25). */
  method NewRulesWithArrayAndLogicAndInfo(rules: array<Rule>, logic: string, extractInfo: map<string, string>, draw: nat -> bool)
    returns (r: Result<Rules>)
    modifies rules
    ensures rules[..] == AssignIds(old(rules[..]))
    ensures Rejected(logic, RuleIds(rules[..]), draw) ==> r == Fail(Injection(logic, RuleIds(rules[..]), draw).failure)
    ensures !Rejected(logic, RuleIds(rules[..]), draw) ==>
      r.Ok? && fresh(r.value) && r.value.rules == rules[..]
      && r.value.logic == LogicAfter(logic, RuleIds(rules[..]), draw)
      && r.value.name == (if "name" in extractInfo then extractInfo["name"] else "")
      && r.value.msg == (if "msg" in extractInfo then extractInfo["msg"] else "")
  {
    r := NewRulesWithArrayAndLogic(rules, logic, draw);
    if r.Fail? {
      return r;
    }
    var g := InjectExtractInfo(r.value, extractInfo);
    return Ok(g);
  }

  /** The verdict and the tips of a group. */
  function Verdict(rules: seq<Rule>, logic: string, o: map<string, Value>, regex: (string, string) -> bool): Result<(bool, Option<map<int, string>>)> {
    match FitInFact(rules, logic, o, regex)
    case Ok(out) => Ok((out.fit, out.tips))
    case Fail(e) => Fail(e)
  }

  /** `FitWithMap` (broker.go:75-78): the verdict and tips of `fitWithMapInFact`, dropping the
      plucked values. */
  method FitWithMap(g: Rules, o: map<string, Value>, regex: (string, string) -> bool) returns (r: Result<(bool, Option<map<int, string>>)>)
    ensures r.Ok? <==> FitInFact(g.rules, g.logic, o, regex).Ok?
    ensures r.Ok? ==> r.value.0 == FitInFact(g.rules, g.logic, o, regex).value.fit
    ensures r.Ok? ==> r.value.1 == FitInFact(g.rules, g.logic, o, regex).value.tips
    ensures r == Verdict(g.rules, g.logic, o, regex)
  {
    var out := FitWithMapInFact(g, o, regex);
    match out {
      case Ok(v) => return Ok((v.fit, v.tips));
      case Fail(e) => return Fail(e);
    }
  }

  /** `FitWithMapAskVal` (broker.go:91-93): all three results of `fitWithMapInFact`. */
  method FitWithMapAskVal(g: Rules, o: map<string, Value>, regex: (string, string) -> bool) returns (r: Result<FitOutcome>)
    ensures r == FitInFact(g.rules, g.logic, o, regex)
    ensures r.Ok? ==> Verdict(g.rules, g.logic, o, regex) == Ok((r.value.fit, r.value.tips))
  {
    r := FitWithMapInFact(g, o, regex);
  }

  /** End to end: a group built from `rules` with logic whose normal form is the normalised text
      of a well-bracketed formula over the group's ids accepts that logic, and its verdict on a map is the
      formula's standard value over the rules' outcomes. */
  lemma BuiltGroupVerdict(rules: seq<Rule>, logic: string, f: Formula, draw: nat -> bool, o: map<string, Value>, regex: (string, string) -> bool)
    requires Format(logic, true) == Written(f)
    requires forall n :: n in Ids(f) ==> n in RuleIds(AssignIds(rules))
    requires WellBracketed(f) && RuleLogicProof.IdsInRange(f)
    requires DistinctIds(AssignIds(rules)) && NoClash(AssignIds(rules), o)
    ensures !Rejected(logic, RuleIds(AssignIds(rules)), draw)
    ensures LogicAfter(logic, RuleIds(AssignIds(rules)), draw) == Written(f)
    ensures Collect(AssignIds(rules), o, regex, Collected(map[], map[], map[])).Some?
    ensures var c := Collect(AssignIds(rules), o, regex, Collected(map[], map[], map[])).value;
      Ids(f) <= c.results.Keys && Verdict(AssignIds(rules), Written(f), o, regex).Ok?
      && Verdict(AssignIds(rules), Written(f), o, regex).value.0 == Eval(f, c.results)
  {
    var numbered := AssignIds(rules);
    InjectCanonical(logic, f, RuleIds(numbered), draw);
    if logic == "" {
      FormatOfSpaces(logic, true);
    }
    WrittenNonEmpty(f);
    FitCanonicalLogic(numbered, f, o, regex);
  }
}
