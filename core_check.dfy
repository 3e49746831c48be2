/** The checks core.go runs on normalised logic text before committing it to a rule group: every
    token is a legal symbol, the text evaluates under a random assignment (the probe), and every
    id names a rule of the group. */
module CoreCheck {
  import opened Wrappers
  import opened Text
  import opened Formula
  import opened RuleLogic
  import RuleLogicProof

  /** `VALID_OPERATORS` (bean.go:24). */
  const ValidOperators: seq<string> := ["and", "or", "not"]

  /** A legal token: matches `^\d*$` (the empty token included), is an operator, or a bracket. */
  predicate IsValidSymbol(t: string) {
    AllDigits(t) || t in ValidOperators || t == "(" || t == ")"
  }

  /** The early-exit loop of core.go:364-391 over the tokens. */
  function AllValidSymbols(ts: seq<string>): (r: bool)
    ensures r <==> forall i :: 0 <= i < |ts| ==> IsValidSymbol(ts[i])
  {
    if ts == [] then true
    else if !IsValidSymbol(ts[0]) then false
    else AllValidSymbols(ts[1..])
  }

  /** `isFormatLogicExpressionAllValidSymbol` (core.go:362-392). */
  predicate IsAllValidSymbol(formatted: string) {
    AllValidSymbols(Split(formatted, " "))
  }

  /** The keys of `mapExistIds`: the decimal renderings of the rules' ids. */
  function IdTexts(ruleIds: seq<int>): set<string> {
    set i | 0 <= i < |ruleIds| :: Itoa(ruleIds[i])
  }

  /** The early-exit loop of core.go:405-414: every all-digit token must be a rendered id. */
  function AllIdsExist(ts: seq<string>, existing: set<string>): (r: bool)
    ensures r <==> forall i :: 0 <= i < |ts| && AllDigits(ts[i]) ==> ts[i] in existing
  {
    if ts == [] then true
    else if AllDigits(ts[0]) && ts[0] !in existing then false
    else AllIdsExist(ts[1..], existing)
  }

  /** `isFormatLogicExpressionAllIdsExist` (core.go:394-416); ids are compared as text. */
  predicate IsAllIdsExist(formatted: string, ruleIds: seq<int>) {
    AllIdsExist(Split(formatted, " "), IdTexts(ruleIds))
  }

  /** The probe assignment built by core.go:427-437 from token `i` onwards: every all-digit
      token gets the coin `draw(i)` drawn at its position (a later occurrence of an id overwrites
      an earlier one); a token `Atoi` rejects ends the probe with its error. */
  function ProbeFrom(ts: seq<string>, i: nat, draw: nat -> bool, acc: map<int, bool>): Result<map<int, bool>>
    requires i <= |ts|
    decreases |ts| - i
  {
    if i == |ts| then Ok(acc)
    else if AllDigits(ts[i]) then
      match Atoi(ts[i])
      case Fail(e) => Fail(e)
      case Ok(id) => ProbeFrom(ts, i + 1, draw, acc[id := draw(i)])
    else ProbeFrom(ts, i + 1, draw, acc)
  }

  /** What the probe reports: `None` for a nil error. A panic of the evaluator is not caught. */
  function Probe(formatted: string, draw: nat -> bool): Option<Failure> {
    match ProbeFrom(Split(formatted, " "), 0, draw, map[])
    case Fail(e) => Some(e)
    case Ok(probe) =>
      match Calculate(formatted, probe)
      case Fail(e) => Some(e)
      case Ok(_) => None
  }

  /** `tryToCalculateResultByFormatLogicExpressionWithRandomProbe` (core.go:418-445); the coins
      of `math/rand` are the parameter `draw`. */
  method TryProbe(formatted: string, draw: nat -> bool) returns (err: Option<Failure>)
    ensures err == Probe(formatted, draw)
  {
    var ts := Split(formatted, " ");
    var probe: map<int, bool> := map[];
    var i := 0;
    while i < |ts|
      invariant 0 <= i <= |ts|
      invariant ProbeFrom(ts, i, draw, probe) == ProbeFrom(ts, 0, draw, map[])
    {
      if AllDigits(ts[i]) {
        var id := Atoi(ts[i]);
        if id.Fail? {
          return Some(id.failure);
        }
        probe := probe[id.value := draw(i)];
      }
      i := i + 1;
    }
    var answer := CalculateExpression(formatted, probe);
    if answer.Fail? {
      return Some(answer.failure);
    }
    err := None;
  }

  /** The probe assignment, when it exists, covers every id written in the tokens. */
  lemma {:induction false} ProbeCovers(ts: seq<string>, i: nat, draw: nat -> bool, acc: map<int, bool>)
    requires i <= |ts|
    requires forall j :: i <= j < |ts| && AllDigits(ts[j]) ==> Atoi(ts[j]).Ok?
    ensures ProbeFrom(ts, i, draw, acc).Ok?
    ensures acc.Keys <= ProbeFrom(ts, i, draw, acc).value.Keys
    ensures forall j :: i <= j < |ts| && AllDigits(ts[j]) ==> Atoi(ts[j]).value in ProbeFrom(ts, i, draw, acc).value
    decreases |ts| - i
  {
    if i < |ts| {
      if AllDigits(ts[i]) {
        ProbeCovers(ts, i + 1, draw, acc[Atoi(ts[i]).value := draw(i)]);
      } else {
        ProbeCovers(ts, i + 1, draw, acc);
      }
    }
  }

  lemma WrittenTokens(f: Formula)
    ensures Split(Written(f), " ") == Render(f, 0)
  {
    RenderTokens(f, 0);
    RuleLogicProof.TokensSpaceFree(Render(f, 0));
    SplitJoinSpace(Render(f, 0));
  }

  /** The normalised text of every formula passes the symbol check. */
  lemma WrittenSymbolsValid(f: Formula)
    ensures IsAllValidSymbol(Written(f))
  {
    WrittenTokens(f);
    RenderTokens(f, 0);
    var ts := Render(f, 0);
    forall i | 0 <= i < |ts|
      ensures IsValidSymbol(ts[i])
    {
      assert IsToken(ts[i]);
    }
  }

  /** The id check on normalised text holds exactly when every id of the formula is a rule's id. */
  lemma WrittenIdsExist(f: Formula, ruleIds: seq<int>)
    ensures IsAllIdsExist(Written(f), ruleIds) <==> forall n :: n in Ids(f) ==> n in ruleIds
  {
    WrittenTokens(f);
    RenderIds(f, 0);
    var ts := Render(f, 0);
    if IsAllIdsExist(Written(f), ruleIds) {
      forall n | n in Ids(f)
        ensures n in ruleIds
      {
        var t := Itoa(n);
        var i :| 0 <= i < |ts| && ts[i] == t;
        assert AllDigits(t);
        assert t in IdTexts(ruleIds);
        var k :| 0 <= k < |ruleIds| && Itoa(ruleIds[k]) == t;
        ItoaInjective(ruleIds[k], n);
      }
    }
    if forall n :: n in Ids(f) ==> n in ruleIds {
      forall i | 0 <= i < |ts| && AllDigits(ts[i])
        ensures ts[i] in IdTexts(ruleIds)
      {
        assert ts[i] in ts;
        var n :| n in Ids(f) && ts[i] == Itoa(n);
        var k :| 0 <= k < |ruleIds| && ruleIds[k] == n;
        assert Itoa(ruleIds[k]) in IdTexts(ruleIds);
      }
    }
  }

  /** Whatever the coins, the probe of the normalised text of a well-bracketed formula succeeds. */
  lemma WrittenProbeSucceeds(f: Formula, draw: nat -> bool)
    requires WellBracketed(f) && RuleLogicProof.IdsInRange(f)
    ensures Probe(Written(f), draw) == None
  {
    WrittenTokens(f);
    RenderIds(f, 0);
    var ts := Render(f, 0);
    forall j | 0 <= j < |ts| && AllDigits(ts[j])
      ensures Atoi(ts[j]).Ok? && Atoi(ts[j]).value in Ids(f)
    {
      assert ts[j] in ts;
      var n :| n in Ids(f) && ts[j] == Itoa(n);
      AtoiItoa(n);
    }
    ProbeCovers(ts, 0, draw, map[]);
    var probe := ProbeFrom(ts, 0, draw, map[]).value;
    forall n: nat | n in Ids(f)
      ensures n in probe
    {
      var j :| 0 <= j < |ts| && ts[j] == Itoa(n);
      AtoiItoa(n);
    }
    RuleLogicProof.CalculateWritten(f, probe);
  }
}
