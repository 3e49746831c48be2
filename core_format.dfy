/** `formatLogicExpression` of core.go (and of the legacy rule_core.go, which differs only in not
    separating adjacent brackets): the raw logic text is lower-cased, a space is inserted at every
    change of character class, runs of spaces are collapsed and the ends are trimmed. */
module CoreFormat {
  import opened Text

  /** The class a character starts: digits, letters a-z and brackets have their own class; every
      other character (a space included) continues the class of the character before it. */
  datatype CharClass = NoClass | Num | Char | Bracket

  function ClassAfter(c: char, pre: CharClass): CharClass {
    if IsDigit(c) then Num
    else if IsLetter(c) then Char
    else if IsBracket(c) then Bracket
    else pre
  }

  /** A space goes before a character when its class differs from the previous one; with
      `splitBrackets` (core.go) also between two brackets. */
  predicate SpaceBefore(now: CharClass, pre: CharClass, splitBrackets: bool) {
    now != pre || (splitBrackets && now == Bracket && pre == Bracket)
  }

  /** The first loop: the lower-cased text with the separating spaces inserted. */
  function Pretty(s: string, pre: CharClass, splitBrackets: bool): string {
    if s == [] then []
    else
      var now := ClassAfter(s[0], pre);
      (if SpaceBefore(now, pre, splitBrackets) then " " else "") + [s[0]] + Pretty(s[1..], now, splitBrackets)
  }

  /** The second loop: a space that follows a kept space is dropped. */
  function Squeeze(s: string, prevSpace: bool): string {
    if s == [] then []
    else if s[0] == ' ' && prevSpace then Squeeze(s[1..], true)
    else [s[0]] + Squeeze(s[1..], s[0] == ' ')
  }

  /** The normalised logic text. */
  function Format(raw: string, splitBrackets: bool): string {
    Trim(Squeeze(Pretty(ToLower(raw), NoClass, splitBrackets), false))
  }

  /** `formatLogicExpression` (core.go:316-360). */
  method FormatLogicExpression(raw: string) returns (r: string)
    ensures r == Format(raw, true)
  {
    r := FormatWith(raw, true);
  }

  /** core.go:316-360 and rule_core.go:352-396; only the space-insertion test differs between
      the two files. */
  method FormatWith(raw: string, splitBrackets: bool) returns (r: string)
    ensures r == Format(raw, splitBrackets)
  {
    var pretty := InsertSpaces(ToLower(raw), splitBrackets);
    var trimmed := CollapseSpaces(pretty);
    r := Trim(trimmed);
  }

  /** The first loop, carrying the class of the previous character. */
  method InsertSpaces(origin: string, splitBrackets: bool) returns (pretty: string)
    ensures pretty == Pretty(origin, NoClass, splitBrackets)
  {
    pretty := [];
    var pre := NoClass;
    var i := 0;
    assert origin[0..] == origin;
    while i < |origin|
      invariant 0 <= i <= |origin|
      invariant pretty + Pretty(origin[i..], pre, splitBrackets) == Pretty(origin, NoClass, splitBrackets)
    {
      var c := origin[i];
      var now := ClassAfter(c, pre);
      InsertStep(origin, i, pre, splitBrackets, pretty);
      ghost var before := pretty;
      if SpaceBefore(now, pre, splitBrackets) {
        pretty := pretty + " ";
      }
      pretty := pretty + [c];
      assert pretty == before + Piece(c, pre, splitBrackets);
      pre := now;
      i := i + 1;
    }
    assert origin[i..] == [];
    assert pretty + [] == pretty;
  }

  /** What the first loop appends for one character. */
  function Piece(c: char, pre: CharClass, splitBrackets: bool): string {
    (if SpaceBefore(ClassAfter(c, pre), pre, splitBrackets) then " " else "") + [c]
  }

  /** One turn of the first loop keeps its invariant. */
  lemma InsertStep(origin: string, i: nat, pre: CharClass, splitBrackets: bool, pretty: string)
    requires i < |origin|
    requires pretty + Pretty(origin[i..], pre, splitBrackets) == Pretty(origin, NoClass, splitBrackets)
    ensures pretty + Piece(origin[i], pre, splitBrackets) + Pretty(origin[i + 1..], ClassAfter(origin[i], pre), splitBrackets)
         == Pretty(origin, NoClass, splitBrackets)
  {
    assert origin[i..][1..] == origin[i + 1..];
  }

  /** The second loop, carrying whether the last kept character was a space. */
  method CollapseSpaces(pretty: string) returns (trimmed: string)
    ensures trimmed == Squeeze(pretty, false)
  {
    trimmed := [];
    var prevSpace := false;
    var j := 0;
    assert pretty[0..] == pretty;
    while j < |pretty|
      invariant 0 <= j <= |pretty|
      invariant trimmed + Squeeze(pretty[j..], prevSpace) == Squeeze(pretty, false)
    {
      var c := pretty[j];
      SqueezeStep(pretty, j, prevSpace, trimmed);
      if c == ' ' && prevSpace {
        j := j + 1;
        continue;
      }
      trimmed := trimmed + [c];
      prevSpace := c == ' ';
      j := j + 1;
    }
    assert pretty[j..] == [];
    assert trimmed + [] == trimmed;
  }

  /** One more character squeezed: a space after a space is dropped, anything else is kept. */
  lemma SqueezeStep(pretty: string, j: nat, prevSpace: bool, trimmed: string)
    requires j < |pretty| && trimmed + Squeeze(pretty[j..], prevSpace) == Squeeze(pretty, false)
    ensures pretty[j] == ' ' && prevSpace ==>
              trimmed + Squeeze(pretty[j + 1..], true) == Squeeze(pretty, false)
    ensures !(pretty[j] == ' ' && prevSpace) ==>
              (trimmed + [pretty[j]]) + Squeeze(pretty[j + 1..], pretty[j] == ' ') == Squeeze(pretty, false)
  {
    var c, rest := pretty[j], pretty[j + 1..];
    assert pretty[j..][0] == c && pretty[j..][1..] == rest;
    if !(c == ' ' && prevSpace) {
      assert Squeeze(pretty[j..], prevSpace) == [c] + Squeeze(rest, c == ' ');
      assert (trimmed + [c]) + Squeeze(rest, c == ' ') == trimmed + ([c] + Squeeze(rest, c == ' '));
    }
  }

  predicate IsClassChar(c: char) {
    IsDigit(c) || IsLetter(c) || IsBracket(c)
  }

  /** Two adjacent characters of the output are separated as the normaliser promises: when both
      are digits, letters or brackets they are of the same class, and (with `splitBrackets`) they
      are not two brackets. */
  predicate Separated(x: char, y: char, splitBrackets: bool) {
    IsClassChar(x) && IsClassChar(y) ==>
      ClassAfter(x, NoClass) == ClassAfter(y, NoClass) && !(splitBrackets && IsBracket(x))
  }

  predicate AllSeparated(s: string, splitBrackets: bool) {
    forall i :: 0 <= i < |s| - 1 ==> Separated(s[i], s[i + 1], splitBrackets)
  }

  predicate NoDoubleSpace(s: string) {
    forall i :: 0 <= i < |s| - 1 ==> !(s[i] == ' ' && s[i + 1] == ' ')
  }

  function RemoveSpaces(s: string): string {
    if s == [] then [] else (if s[0] == ' ' then "" else [s[0]]) + RemoveSpaces(s[1..])
  }

  lemma {:induction false} PrettySeparated(s: string, pre: CharClass, splitBrackets: bool)
    ensures AllSeparated(Pretty(s, pre, splitBrackets), splitBrackets)
    decreases |s|
  {
    if s != [] {
      var now := ClassAfter(s[0], pre);
      var head := (if SpaceBefore(now, pre, splitBrackets) then " " else "") + [s[0]];
      var rest := Pretty(s[1..], now, splitBrackets);
      PrettySeparated(s[1..], now, splitBrackets);
      var p := head + rest;
      assert p == Pretty(s, pre, splitBrackets);
      forall i | 0 <= i < |p| - 1
        ensures Separated(p[i], p[i + 1], splitBrackets)
      {
        if i >= |head| {
          assert p[i] == rest[i - |head|] && p[i + 1] == rest[i - |head| + 1];
        } else if i == |head| - 1 {
          assert p[i] == s[0] && p[i + 1] == rest[0];
          var next := ClassAfter(s[1], now);
          if !SpaceBefore(next, now, splitBrackets) {
            assert rest[0] == s[1];
          }
        }
      }
    }
  }

  lemma {:induction false} SqueezeShape(s: string, prevSpace: bool, splitBrackets: bool)
    requires AllSeparated(s, splitBrackets)
    ensures var r := Squeeze(s, prevSpace);
      NoDoubleSpace(r) && AllSeparated(r, splitBrackets) && (prevSpace && |r| > 0 ==> r[0] != ' ')
    decreases |s|
  {
    if s != [] {
      SqueezeShape(s[1..], s[0] == ' ' || prevSpace, splitBrackets);
      if !(s[0] == ' ' && prevSpace) {
        SqueezeShape(s[1..], s[0] == ' ', splitBrackets);
        var rest := Squeeze(s[1..], s[0] == ' ');
        var r := [s[0]] + rest;
        forall i | 0 <= i < |r| - 1
          ensures !(r[i] == ' ' && r[i + 1] == ' ') && Separated(r[i], r[i + 1], splitBrackets)
        {
          if i > 0 {
            assert r[i] == rest[i - 1] && r[i + 1] == rest[i];
          } else if s[0] != ' ' {
            assert r[1] == s[1];
          }
        }
      }
    }
  }

  lemma {:induction false} TrimLeftSuffix(s: string) returns (a: nat)
    ensures a <= |s| && TrimLeft(s) == s[a..] && (a < |s| ==> s[a] != ' ')
    ensures forall k :: 0 <= k < a ==> s[k] == ' '
    decreases |s|
  {
    if |s| > 0 && s[0] == ' ' {
      var b := TrimLeftSuffix(s[1..]);
      a := b + 1;
      assert s[1..][b..] == s[a..];
    } else {
      a := 0;
    }
  }

  lemma {:induction false} TrimRightPrefix(s: string) returns (b: nat)
    ensures b <= |s| && TrimRight(s) == s[..b] && (b > 0 ==> s[b - 1] != ' ')
    ensures forall k :: b <= k < |s| ==> s[k] == ' '
    decreases |s|
  {
    if |s| > 0 && s[|s| - 1] == ' ' {
      b := TrimRightPrefix(s[..|s| - 1]);
      assert s[..|s| - 1][..b] == s[..b];
    } else {
      b := |s|;
    }
  }

  /** `strings.Trim(s, " ")` keeps the slice between the first and the last non-space. */
  lemma TrimSlice(s: string) returns (a: nat, b: nat)
    ensures a <= b <= |s| && Trim(s) == s[a..b]
    ensures a < b ==> s[a] != ' ' && s[b - 1] != ' '
    ensures forall k :: 0 <= k < a || b <= k < |s| ==> s[k] == ' '
  {
    a := TrimLeftSuffix(s);
    var c := TrimRightPrefix(s[a..]);
    b := a + c;
    assert s[a..][..c] == s[a..b];
  }

  /** The shape of the normalised text: no space at either end, never two spaces in a row, and
      every pair of adjacent digits, letters or brackets of one class (never two brackets, in
      core.go). */
  lemma FormatShape(raw: string, splitBrackets: bool)
    ensures var r := Format(raw, splitBrackets);
      (|r| > 0 ==> r[0] != ' ' && r[|r| - 1] != ' ') && NoDoubleSpace(r) && AllSeparated(r, splitBrackets)
  {
    var p := Pretty(ToLower(raw), NoClass, splitBrackets);
    PrettySeparated(ToLower(raw), NoClass, splitBrackets);
    SqueezeShape(p, false, splitBrackets);
    var q := Squeeze(p, false);
    var a, b := TrimSlice(q);
    var r := q[a..b];
    forall i | 0 <= i < |r| - 1
      ensures !(r[i] == ' ' && r[i + 1] == ' ') && Separated(r[i], r[i + 1], splitBrackets)
    {
      assert r[i] == q[a + i] && r[i + 1] == q[a + i + 1];
    }
  }

  lemma {:induction false} RemoveSpacesAppend(x: string, y: string)
    ensures RemoveSpaces(x + y) == RemoveSpaces(x) + RemoveSpaces(y)
    decreases |x|
  {
    if x == [] {
      assert x + y == y;
    } else {
      assert (x + y)[1..] == x[1..] + y;
      RemoveSpacesAppend(x[1..], y);
    }
  }

  lemma {:induction false} RemoveSpacesOfSpaces(s: string)
    requires forall k :: 0 <= k < |s| ==> s[k] == ' '
    ensures RemoveSpaces(s) == []
    decreases |s|
  {
    if s != [] {
      RemoveSpacesOfSpaces(s[1..]);
    }
  }

  lemma {:induction false} PrettyContent(s: string, pre: CharClass, splitBrackets: bool)
    ensures RemoveSpaces(Pretty(s, pre, splitBrackets)) == RemoveSpaces(s)
    decreases |s|
  {
    if s != [] {
      var now := ClassAfter(s[0], pre);
      var sp := if SpaceBefore(now, pre, splitBrackets) then " " else "";
      PrettyContent(s[1..], now, splitBrackets);
      RemoveSpacesAppend(sp + [s[0]], Pretty(s[1..], now, splitBrackets));
      RemoveSpacesAppend(sp, [s[0]]);
      assert RemoveSpaces(sp) == [] by {
        if sp != [] {
          assert sp[1..] == [];
        }
      }
      assert RemoveSpaces([s[0]]) == (if s[0] == ' ' then "" else [s[0]]) by {
        assert [s[0]][1..] == [];
      }
    }
  }

  lemma {:induction false} SqueezeContent(s: string, prevSpace: bool)
    ensures RemoveSpaces(Squeeze(s, prevSpace)) == RemoveSpaces(s)
    decreases |s|
  {
    if s != [] {
      if s[0] == ' ' && prevSpace {
        SqueezeContent(s[1..], true);
      } else {
        SqueezeContent(s[1..], s[0] == ' ');
        assert ([s[0]] + Squeeze(s[1..], s[0] == ' '))[1..] == Squeeze(s[1..], s[0] == ' ');
      }
    }
  }

  /** The normaliser only lower-cases and moves spaces: with the spaces taken out, its output is
      the lower-cased input. */
  lemma FormatContent(raw: string, splitBrackets: bool)
    ensures RemoveSpaces(Format(raw, splitBrackets)) == RemoveSpaces(ToLower(raw))
  {
    var p := Pretty(ToLower(raw), NoClass, splitBrackets);
    PrettyContent(ToLower(raw), NoClass, splitBrackets);
    SqueezeContent(p, false);
    TrimContent(Squeeze(p, false));
  }

  /** Trimming takes out only spaces. */
  lemma TrimContent(q: string)
    ensures RemoveSpaces(Trim(q)) == RemoveSpaces(q)
  {
    var a, b := TrimSlice(q);
    assert q == q[..a] + q[a..b] + q[b..];
    RemoveSpacesAppend(q[..a] + q[a..b], q[b..]);
    RemoveSpacesAppend(q[..a], q[a..b]);
    RemoveSpacesOfSpaces(q[..a]);
    RemoveSpacesOfSpaces(q[b..]);
  }

  lemma {:induction false} PrettyOfSpaces(s: string, splitBrackets: bool)
    requires forall i :: 0 <= i < |s| ==> s[i] == ' '
    ensures Pretty(s, NoClass, splitBrackets) == s
    decreases |s|
  {
    if s != [] {
      PrettyOfSpaces(s[1..], splitBrackets);
    }
  }

  lemma {:induction false} SqueezeOfSpaces(s: string, prevSpace: bool)
    requires forall i :: 0 <= i < |s| ==> s[i] == ' '
    ensures forall i :: 0 <= i < |Squeeze(s, prevSpace)| ==> Squeeze(s, prevSpace)[i] == ' '
    decreases |s|
  {
    if s != [] {
      SqueezeOfSpaces(s[1..], true);
    }
  }

  /** Logic made only of spaces normalises to the empty text. */
  lemma FormatOfSpaces(raw: string, splitBrackets: bool)
    requires forall i :: 0 <= i < |raw| ==> raw[i] == ' '
    ensures Format(raw, splitBrackets) == ""
  {
    PrettyOfSpaces(ToLower(raw), splitBrackets);
    var q := Squeeze(ToLower(raw), false);
    SqueezeOfSpaces(ToLower(raw), false);
    var a, b := TrimSlice(q);
  }

  // ---------------------------------------------------------------------------------------
  // Idempotence
  // ---------------------------------------------------------------------------------------

  /** Every character that the space insertion would give a space in front of, reading `s` after
      a character of class `pre`, already has one; `prevSpace` says whether the character before
      `s` is a space. A space itself never needs one: it merges with the inserted one. */
  predicate SpacedOut(s: string, pre: CharClass, prevSpace: bool, splitBrackets: bool)
    decreases |s|
  {
    s == [] ||
      var now := ClassAfter(s[0], pre);
      (SpaceBefore(now, pre, splitBrackets) && s[0] != ' ' ==> prevSpace)
      && SpacedOut(s[1..], now, s[0] == ' ', splitBrackets)
  }

  /** No upper-case ASCII letter. */
  predicate Lowered(s: string) {
    forall i :: 0 <= i < |s| ==> !('A' <= s[i] <= 'Z')
  }

  lemma {:induction false} PrettySpacedOut(s: string, pre: CharClass, prevSpace: bool, splitBrackets: bool)
    ensures SpacedOut(Pretty(s, pre, splitBrackets), pre, prevSpace, splitBrackets)
    decreases |s|
  {
    if s != [] {
      var c, now := s[0], ClassAfter(s[0], pre);
      var p := Pretty(s[1..], now, splitBrackets);
      PrettySpacedOut(s[1..], now, c == ' ', splitBrackets);
      assert ([c] + p)[1..] == p;
      if SpaceBefore(now, pre, splitBrackets) {
        assert (" " + [c] + p)[1..] == [c] + p;
        assert ClassAfter(' ', pre) == pre;
      }
    }
  }

  lemma {:induction false} SqueezeSpacedOut(q: string, pre: CharClass, prevSpace: bool, splitBrackets: bool)
    requires SpacedOut(q, pre, prevSpace, splitBrackets)
    ensures SpacedOut(Squeeze(q, prevSpace), pre, prevSpace, splitBrackets)
    decreases |q|
  {
    if q != [] {
      var c, now := q[0], ClassAfter(q[0], pre);
      if c == ' ' && prevSpace {
        assert now == pre;
        SqueezeSpacedOut(q[1..], pre, true, splitBrackets);
      } else {
        SqueezeSpacedOut(q[1..], now, c == ' ', splitBrackets);
        assert ([c] + Squeeze(q[1..], c == ' '))[1..] == Squeeze(q[1..], c == ' ');
      }
    }
  }

  /** On text that is already spaced out, inserting spaces changes nothing once runs of spaces
      are collapsed. */
  lemma {:induction false} PrettySqueeze(s: string, pre: CharClass, prevSpace: bool, splitBrackets: bool)
    requires SpacedOut(s, pre, prevSpace, splitBrackets)
    ensures Squeeze(Pretty(s, pre, splitBrackets), prevSpace) == Squeeze(s, prevSpace)
    decreases |s|
  {
    if s != [] {
      var c, t, now := s[0], s[1..], ClassAfter(s[0], pre);
      var p := Pretty(t, now, splitBrackets);
      PrettySqueeze(t, now, c == ' ', splitBrackets);
      assert ([c] + p)[1..] == p;
      if SpaceBefore(now, pre, splitBrackets) {
        assert (" " + [c] + p)[1..] == [c] + p;
        if c == ' ' {
          assert now == pre;
          PrettySqueeze(t, now, true, splitBrackets);
        }
      }
    }
  }

  lemma {:induction false} SpacedOutSuffix(s: string, pre: CharClass, k: nat, splitBrackets: bool)
    requires SpacedOut(s, pre, true, splitBrackets) && k <= |s|
    requires forall i :: 0 <= i < k ==> s[i] == ' '
    ensures SpacedOut(s[k..], pre, true, splitBrackets)
    decreases k
  {
    if k > 0 {
      assert ClassAfter(' ', pre) == pre;
      SpacedOutSuffix(s[1..], pre, k - 1, splitBrackets);
      assert s[1..][k - 1..] == s[k..];
    }
  }

  lemma {:induction false} SpacedOutPrefix(s: string, pre: CharClass, prevSpace: bool, k: nat, splitBrackets: bool)
    requires SpacedOut(s, pre, prevSpace, splitBrackets) && k <= |s|
    ensures SpacedOut(s[..k], pre, prevSpace, splitBrackets)
    decreases k
  {
    if k > 0 {
      SpacedOutPrefix(s[1..], ClassAfter(s[0], pre), s[0] == ' ', k - 1, splitBrackets);
      assert s[..k][1..] == s[1..][..k - 1];
    }
  }

  /** A leading space is trimmed whether or not the collapse keeps it. */
  lemma SqueezeHead(x: string)
    ensures Trim(Squeeze(x, false)) == Trim(Squeeze(x, true))
  {
    if x != [] && x[0] == ' ' {
      var y := Squeeze(x[1..], true);
      assert Squeeze(x, false) == " " + y;
      assert TrimLeft(" " + y) == TrimLeft(y) by {
        assert (" " + y)[1..] == y;
      }
    }
  }

  lemma {:induction false} SqueezeId(x: string, prevSpace: bool)
    requires NoDoubleSpace(x) && (prevSpace && x != [] ==> x[0] != ' ')
    ensures Squeeze(x, prevSpace) == x
    decreases |x|
  {
    if x != [] {
      assert NoDoubleSpace(x[1..]) by {
        forall i | 0 <= i < |x[1..]| - 1 ensures !(x[1..][i] == ' ' && x[1..][i + 1] == ' ') {
          assert x[1..][i] == x[i + 1] && x[1..][i + 1] == x[i + 2];
        }
      }
      if |x| > 1 {
        assert !(x[0] == ' ' && x[1] == ' ');
      }
      SqueezeId(x[1..], x[0] == ' ');
    }
  }

  lemma {:induction false} PrettyLowered(s: string, pre: CharClass, splitBrackets: bool)
    requires Lowered(s)
    ensures Lowered(Pretty(s, pre, splitBrackets))
    decreases |s|
  {
    if s != [] {
      PrettyLowered(s[1..], ClassAfter(s[0], pre), splitBrackets);
    }
  }

  lemma {:induction false} SqueezeLowered(s: string, prevSpace: bool)
    requires Lowered(s)
    ensures Lowered(Squeeze(s, prevSpace))
    decreases |s|
  {
    if s != [] {
      SqueezeLowered(s[1..], s[0] == ' ');
      SqueezeLowered(s[1..], true);
    }
  }

  lemma FormatLowered(raw: string, splitBrackets: bool)
    ensures ToLower(Format(raw, splitBrackets)) == Format(raw, splitBrackets)
  {
    var p := Pretty(ToLower(raw), NoClass, splitBrackets);
    PrettyLowered(ToLower(raw), NoClass, splitBrackets);
    SqueezeLowered(p, false);
    var q := Squeeze(p, false);
    var a, b := TrimSlice(q);
    assert Lowered(q[a..b]);
  }

  lemma FormatSpacedOut(raw: string, splitBrackets: bool)
    ensures SpacedOut(Format(raw, splitBrackets), NoClass, true, splitBrackets)
  {
    var p := Pretty(ToLower(raw), NoClass, splitBrackets);
    PrettySpacedOut(ToLower(raw), NoClass, true, splitBrackets);
    SqueezeSpacedOut(p, NoClass, true, splitBrackets);
    SqueezeHead(p);
    var q := Squeeze(p, true);
    var a, b := TrimSlice(q);
    SpacedOutSuffix(q, NoClass, a, splitBrackets);
    SpacedOutPrefix(q[a..], NoClass, true, b - a, splitBrackets);
    assert q[a..][..b - a] == q[a..b];
  }

  /** The normaliser is idempotent: normalising normalised text gives it back. */
  lemma FormatIdempotent(raw: string, splitBrackets: bool)
    ensures Format(Format(raw, splitBrackets), splitBrackets) == Format(raw, splitBrackets)
  {
    var r := Format(raw, splitBrackets);
    FormatLowered(raw, splitBrackets);
    FormatSpacedOut(raw, splitBrackets);
    SqueezeHead(Pretty(r, NoClass, splitBrackets));
    PrettySqueeze(r, NoClass, true, splitBrackets);
    FormatShape(raw, splitBrackets);
    SqueezeId(r, true);
  }
}
