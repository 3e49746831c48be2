/** A set of rule groups (`RulesSet`, bean.go:18-22): its construction, which names every
    unnamed group after its position, and its evaluation, which lists the names of the groups
    a map fits. */
module CoreSet {
  import opened Wrappers
  import opened Text
  import opened CoreValues
  import opened Core
  import opened Broker

  class RulesSet {
    var groups: seq<Rules>
    var name: string
    var msg: string

    constructor (groups: seq<Rules>, name: string, msg: string)
      ensures this.groups == groups && this.name == name && this.msg == msg
    {
      this.groups := groups;
      this.name := name;
      this.msg := msg;
    }
  }

  /** The position of the first occurrence of group `g` in `gs`. */
  function FirstIndex(gs: seq<Rules>, g: Rules): (r: nat)
    requires g in gs
    ensures r < |gs| && gs[r] == g
    ensures forall k :: 0 <= k < r ==> gs[k] != g
  {
    if gs[0] == g then 0 else 1 + FirstIndex(gs[1..], g)
  }

  /** The name a group carries after `NewRulesSet`: its own, or else the 1-based position of its
      first occurrence in the list. */
  function NameAfter(gs: seq<Rules>, g: Rules, oldName: string): string
    requires g in gs
  {
    if oldName == "" then Itoa(FirstIndex(gs, g) + 1) else oldName
  }

  /** `NewRulesSet` (core.go:55-69). A missing key of `extractInfo` reads as the empty string. */
  method NewRulesSet(listRules: seq<Rules>, extractInfo: map<string, string>) returns (s: RulesSet)
    modifies listRules
    ensures fresh(s) && s.groups == listRules
    ensures s.name == (if "name" in extractInfo then extractInfo["name"] else "")
    ensures s.msg == (if "msg" in extractInfo then extractInfo["msg"] else "")
    ensures forall g :: g in listRules ==> g.name == NameAfter(listRules, g, old(g.name)) && g.name != ""
    ensures forall g :: g in listRules ==> g.rules == old(g.rules) && g.logic == old(g.logic) && g.msg == old(g.msg)
  {
    NameGroups(listRules);
    var name := if "name" in extractInfo then extractInfo["name"] else "";
    var msg := if "msg" in extractInfo then extractInfo["msg"] else "";
    s := new RulesSet(listRules, name, msg);
  }

  /** The loop of `NewRulesSet`. A group listed twice is named once, after its first position. */
  method NameGroups(gs: seq<Rules>)
    modifies gs
    ensures forall g :: g in gs ==> g.name == NameAfter(gs, g, old(g.name)) && g.name != ""
    ensures forall g :: g in gs ==> g.rules == old(g.rules) && g.logic == old(g.logic) && g.msg == old(g.msg)
  {
    var index := 0;
    while index < |gs|
      invariant 0 <= index <= |gs|
      invariant forall g :: g in gs ==>
        g.name == (if old(g.name) == "" && FirstIndex(gs, g) < index then Itoa(FirstIndex(gs, g) + 1) else old(g.name))
      invariant forall g :: g in gs ==> g.rules == old(g.rules) && g.logic == old(g.logic) && g.msg == old(g.msg)
    {
      var g := gs[index];
      ghost var first := FirstIndex(gs, g);
      if g.name == "" {
        assert first == index by {
          assert |Itoa(first + 1)| > 0;
        }
        g.name := Itoa(index + 1);
      }
      index := index + 1;
    }
    forall g | g in gs
      ensures g.name != ""
    {
      assert |Itoa(FirstIndex(gs, g) + 1)| > 0;
    }
  }

  /** The names of the groups among `gs` that `o` fits, in list order; the first panic of a
      group's logic evaluation propagates. */
  function FitNames(gs: seq<Rules>, o: map<string, Value>, regex: (string, string) -> bool): Result<seq<string>>
    reads gs
    decreases |gs|
  {
    if gs == [] then Ok([])
    else
      var g := gs[|gs| - 1];
      match FitNames(gs[..|gs| - 1], o, regex)
      case Fail(e) => Fail(e)
      case Ok(names) =>
        match Verdict(g.rules, g.logic, o, regex)
        case Fail(e) => Fail(e)
        case Ok(v) => Ok(if v.0 then names + [g.name] else names)
  }

  /** Whether `o` fits group `g`, when its evaluation does not panic. */
  predicate Fits(g: Rules, o: map<string, Value>, regex: (string, string) -> bool)
    reads g
  {
    var v := Verdict(g.rules, g.logic, o, regex);
    v.Ok? && v.value.0
  }

  predicate NoPanic(gs: seq<Rules>, o: map<string, Value>, regex: (string, string) -> bool)
    reads gs
  {
    forall i :: 0 <= i < |gs| ==> Verdict(gs[i].rules, gs[i].logic, o, regex).Ok?
  }

  /** `FitSetWithMap` (core.go:106-118): `None` is the nil slice returned when no group fits. */
  method FitSetWithMap(s: RulesSet, o: map<string, Value>, regex: (string, string) -> bool) returns (r: Result<Option<seq<string>>>)
    ensures match FitNames(s.groups, o, regex) {
      case Fail(e) => r == Fail(e)
      case Ok(names) => r == Ok(if names == [] then None else Some(names))
    }
  {
    var result: seq<string> := [];
    var i := 0;
    while i < |s.groups|
      invariant 0 <= i <= |s.groups|
      invariant FitNames(s.groups[..i], o, regex) == Ok(result)
    {
      var g := s.groups[i];
      assert s.groups[..i + 1][..i] == s.groups[..i];
      var v := FitWithMap(g, o, regex);
      if v.Fail? {
        FitNamesFirstPanic(s.groups, o, regex, i);
        return Fail(v.failure);
      }
      if v.value.0 {
        result := result + [g.name];
      }
      i := i + 1;
    }
    assert s.groups[..i] == s.groups;
    if |result| == 0 {
      return Ok(None);
    }
    return Ok(Some(result));
  }

  /** When no group panics, the result lists a name for each fitting group and nothing else:
      exactly the names of the fitting groups, one per fitting group, in list order. */
  lemma {:induction false} FitNamesMembers(gs: seq<Rules>, o: map<string, Value>, regex: (string, string) -> bool)
    requires NoPanic(gs, o, regex)
    ensures FitNames(gs, o, regex).Ok?
    ensures forall i :: 0 <= i < |gs| && Fits(gs[i], o, regex) ==> gs[i].name in FitNames(gs, o, regex).value
    ensures forall n :: n in FitNames(gs, o, regex).value ==> exists i :: 0 <= i < |gs| && Fits(gs[i], o, regex) && gs[i].name == n
    ensures |FitNames(gs, o, regex).value| <= |gs|
    decreases |gs|
  {
    if gs != [] {
      var init := gs[..|gs| - 1];
      assert NoPanic(init, o, regex) by {
        forall i | 0 <= i < |init| ensures Verdict(init[i].rules, init[i].logic, o, regex).Ok? {
          assert init[i] == gs[i];
        }
      }
      FitNamesMembers(init, o, regex);
      var names := FitNames(init, o, regex).value;
      var g := gs[|gs| - 1];
      forall i | 0 <= i < |gs| && Fits(gs[i], o, regex)
        ensures gs[i].name in FitNames(gs, o, regex).value
      {
        if i < |gs| - 1 {
          assert init[i] == gs[i];
        }
      }
      forall n | n in FitNames(gs, o, regex).value
        ensures exists i :: 0 <= i < |gs| && Fits(gs[i], o, regex) && gs[i].name == n
      {
        if n in names {
          var i :| 0 <= i < |init| && Fits(init[i], o, regex) && init[i].name == n;
          assert gs[i] == init[i];
        } else {
          assert Fits(gs[|gs| - 1], o, regex) && gs[|gs| - 1].name == n;
        }
      }
    }
  }

  /** The first group whose evaluation panics decides the panic of the whole set. */
  lemma {:induction false} FitNamesFirstPanic(gs: seq<Rules>, o: map<string, Value>, regex: (string, string) -> bool, k: nat)
    requires k < |gs| && FitNames(gs[..k], o, regex).Ok? && Verdict(gs[k].rules, gs[k].logic, o, regex).Fail?
    ensures FitNames(gs, o, regex) == Fail(Verdict(gs[k].rules, gs[k].logic, o, regex).failure)
    decreases |gs|
  {
    var init := gs[..|gs| - 1];
    if k < |gs| - 1 {
      assert init[k] == gs[k] && init[..k] == gs[..k];
      FitNamesFirstPanic(init, o, regex, k);
    } else {
      assert init == gs[..k];
    }
  }
}
