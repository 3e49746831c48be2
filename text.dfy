/** The pieces of Go's `strings`, `strconv` and `regexp` packages that the rule engine relies on,
    over `string` = `seq<char>`. Only ASCII lower-casing is modelled, and the two regular
    expressions the engine uses on tokens (`^\d*$` and `^\d+$`) are explicit predicates. */
module Text {
  import opened Wrappers

  predicate IsDigit(c: char) { '0' <= c <= '9' }
  predicate IsLetter(c: char) { 'a' <= c <= 'z' }
  predicate IsBracket(c: char) { c == '(' || c == ')' }

  /** The regular expression `^\d*$`: every character is a decimal digit (the empty string matches). */
  predicate AllDigits(s: string) { forall i :: 0 <= i < |s| ==> IsDigit(s[i]) }

  /** The regular expression `^\d+$`. */
  predicate IsNumeral(s: string) { |s| > 0 && AllDigits(s) }

  /** `strings.ToLower`, restricted to ASCII upper-case letters. */
  function LowerChar(c: char): char {
    if 'A' <= c <= 'Z' then (c as int + 32) as char else c
  }

  function ToLower(s: string): (r: string)
    ensures |r| == |s|
    ensures forall i :: 0 <= i < |s| ==> r[i] == LowerChar(s[i])
  {
    if s == [] then [] else [LowerChar(s[0])] + ToLower(s[1..])
  }

  predicate OccursAt(s: string, pat: string, i: int) {
    0 <= i && i + |pat| <= |s| && s[i..i + |pat|] == pat
  }

  /** The first occurrence of `pat` in `s` at or after `from`. */
  function FindFrom(s: string, pat: string, from: nat): (r: Option<nat>)
    decreases |s| - from
    ensures r.Some? ==> from <= r.value && OccursAt(s, pat, r.value)
    ensures r.Some? ==> forall j :: from <= j < r.value ==> !OccursAt(s, pat, j)
    ensures r.None? ==> forall j :: from <= j ==> !OccursAt(s, pat, j)
  {
    if from + |pat| > |s| then None
    else if s[from..from + |pat|] == pat then Some(from)
    else FindFrom(s, pat, from + 1)
  }

  /** `strings.Index` */
  function Index(s: string, pat: string): Option<nat> {
    FindFrom(s, pat, 0)
  }

  /** `strings.Contains` */
  predicate Contains(s: string, pat: string) {
    Index(s, pat).Some?
  }

  /** `strings.Split(s, sep)` for a non-empty separator: the pieces between successive
      left-to-right occurrences of `sep`. */
  function Split(s: string, sep: string): (r: seq<string>)
    requires |sep| > 0
    decreases |s|
    ensures |r| > 0
  {
    match Index(s, sep)
    case None => [s]
    case Some(i) => [s[..i]] + Split(s[i + |sep|..], sep)
  }

  /** `strings.Join` */
  function Join(ts: seq<string>, sep: string): string {
    if |ts| == 0 then ""
    else if |ts| == 1 then ts[0]
    else ts[0] + sep + Join(ts[1..], sep)
  }

  /** `strings.Replace(s, pat, rep, 1)` */
  function ReplaceFirst(s: string, pat: string, rep: string): string
    requires |pat| > 0
  {
    match Index(s, pat)
    case None => s
    case Some(i) => s[..i] + rep + s[i + |pat|..]
  }

  /** `strings.Replace(s, pat, rep, -1)` */
  function ReplaceAll(s: string, pat: string, rep: string): string
    requires |pat| > 0
    decreases |s|
  {
    match Index(s, pat)
    case None => s
    case Some(i) => s[..i] + rep + ReplaceAll(s[i + |pat|..], pat, rep)
  }

  function TrimLeft(s: string): string {
    if |s| > 0 && s[0] == ' ' then TrimLeft(s[1..]) else s
  }

  function TrimRight(s: string): string {
    if |s| > 0 && s[|s| - 1] == ' ' then TrimRight(s[..|s| - 1]) else s
  }

  /** `strings.Trim(s, " ")` */
  function Trim(s: string): string {
    TrimRight(TrimLeft(s))
  }

  function DigitChar(d: nat): char
    requires d < 10
  {
    ('0' as int + d) as char
  }

  /** Decimal rendering of a natural number, most significant digit first, no leading zero. */
  function NatToString(n: nat): (r: string)
    decreases n
    ensures IsNumeral(r)
  {
    if n < 10 then [DigitChar(n)] else NatToString(n / 10) + [DigitChar(n % 10)]
  }

  /** `strconv.Itoa` */
  function Itoa(n: int): string {
    if n < 0 then "-" + NatToString(-n) else NatToString(n)
  }

  function DigitsValue(s: string): nat
    requires AllDigits(s)
  {
    if s == [] then 0 else 10 * DigitsValue(s[..|s| - 1]) + (s[|s| - 1] as int - '0' as int)
  }

  /** Go's `int` is 64 bits wide. */
  const MaxInt: int := 0x7FFF_FFFF_FFFF_FFFF
  const MinInt: int := -0x8000_0000_0000_0000

  /** `strconv.Atoi`: an optional sign, then one or more decimal digits, in the range of `int`. */
  function Atoi(s: string): Result<int> {
    var neg := |s| > 0 && s[0] == '-';
    var body := if |s| > 0 && (s[0] == '-' || s[0] == '+') then s[1..] else s;
    if !IsNumeral(body) then Fail(Error("strconv.Atoi: invalid syntax"))
    else
      var mag: int := DigitsValue(body);
      var v := if neg then -mag else mag;
      if MinInt <= v <= MaxInt then Ok(v) else Fail(Error("strconv.Atoi: value out of range"))
  }

  /** A space-free token list survives `Join` with single spaces followed by `Split` on a space. */
  predicate SpaceFree(t: string) { forall i :: 0 <= i < |t| ==> t[i] != ' ' }

  /** An occurrence of `pat` right after a prefix that holds none is the first one. */
  lemma IndexAfterPrefix(a: string, pat: string, b: string)
    requires forall j :: 0 <= j < |a| ==> !OccursAt(a + pat + b, pat, j)
    ensures Index(a + pat + b, pat) == Some(|a|)
  {
    assert OccursAt(a + pat + b, pat, |a|);
  }

  lemma {:induction false} SplitJoinSpace(ts: seq<string>)
    requires |ts| > 0
    requires forall k :: 0 <= k < |ts| ==> SpaceFree(ts[k])
    ensures Split(Join(ts, " "), " ") == ts
  {
    if |ts| == 1 {
      var t := ts[0];
      forall j | 0 <= j ensures !OccursAt(t, " ", j) {
        if j < |t| { assert t[j..j + 1] == [t[j]]; }
      }
    } else {
      var rest := Join(ts[1..], " ");
      var s := ts[0] + " " + rest;
      assert Join(ts, " ") == s;
      forall j | 0 <= j < |ts[0]| ensures !OccursAt(s, " ", j) {
        assert s[j..j + 1] == [s[j]];
      }
      IndexAfterPrefix(ts[0], " ", rest);
      assert s[..|ts[0]|] == ts[0];
      assert s[|ts[0]| + 1..] == rest;
      SplitJoinSpace(ts[1..]);
    }
  }

  lemma {:induction false} NatToStringValue(n: nat)
    ensures DigitsValue(NatToString(n)) == n
  {
    var s := NatToString(n);
    if n >= 10 {
      NatToStringValue(n / 10);
      assert s[..|s| - 1] == NatToString(n / 10);
    }
  }

  /** `strconv.Atoi` reads back what `strconv.Itoa` wrote, for every non-negative `int`. */
  lemma AtoiItoa(n: nat)
    requires n <= MaxInt
    ensures Atoi(Itoa(n)) == Ok(n)
  {
    NatToStringValue(n);
  }

  lemma NatToStringInjective(m: nat, n: nat)
    requires NatToString(m) == NatToString(n)
    ensures m == n
  {
    NatToStringValue(m);
    NatToStringValue(n);
  }

  /** A non-negative id and any `int` render to the same text only when they are equal: a
      negative number's rendering starts with `-`. */
  lemma ItoaInjective(m: int, n: nat)
    requires Itoa(m) == Itoa(n)
    ensures m == n
  {
    assert IsDigit(Itoa(n)[0]);
    assert |Itoa(m)| > 0 && (Itoa(m)[0] == '-' <==> m < 0) by {
      if m >= 0 {
        assert IsDigit(Itoa(m)[0]);
      }
    }
    NatToStringInjective(m, n);
  }

  /** Joining two non-empty lists is joining each and gluing with the separator. */
  lemma {:induction false} JoinAppend(x: seq<string>, y: seq<string>, sep: string)
    requires |x| > 0 && |y| > 0
    ensures Join(x + y, sep) == Join(x, sep) + sep + Join(y, sep)
    decreases |x|
  {
    if |x| == 1 {
      assert (x + y)[1..] == y;
    } else {
      assert (x + y)[1..] == x[1..] + y;
      JoinAppend(x[1..], y, sep);
    }
  }

  /** When `pat` does not start inside `a`, searching `a + b` is searching `b`. */
  lemma IndexShift(a: string, b: string, pat: string)
    requires forall j :: 0 <= j < |a| ==> !OccursAt(a + b, pat, j)
    ensures Index(a + b, pat) == if Index(b, pat).Some? then Some(|a| + Index(b, pat).value) else None
  {
    forall k: nat
      ensures OccursAt(a + b, pat, |a| + k) == OccursAt(b, pat, k)
    {
      if k + |pat| <= |b| {
        assert (a + b)[|a| + k..|a| + k + |pat|] == b[k..k + |pat|];
      }
    }
    match Index(b, pat)
    case Some(k) =>
      assert OccursAt(a + b, pat, |a| + k);
      var m := Index(a + b, pat).value;
      assert m >= |a|;
      assert OccursAt(b, pat, m - |a|);
    case None =>
      assert forall m :: OccursAt(a + b, pat, m) ==> OccursAt(b, pat, m - |a|);
  }

  lemma ReplaceAllShift(a: string, b: string, pat: string, rep: string)
    requires |pat| > 0
    requires forall j :: 0 <= j < |a| ==> !OccursAt(a + b, pat, j)
    ensures ReplaceAll(a + b, pat, rep) == a + ReplaceAll(b, pat, rep)
  {
    IndexShift(a, b, pat);
    match Index(b, pat)
    case Some(k) =>
      ReplaceAllShiftAt(a, b, pat, rep, k);
    case None =>
      ReplaceAllNone(a + b, pat, rep);
      ReplaceAllNone(b, pat, rep);
  }

  lemma ReplaceAllShiftAt(a: string, b: string, pat: string, rep: string, k: nat)
    requires |pat| > 0 && Index(b, pat) == Some(k) && Index(a + b, pat) == Some(|a| + k)
    ensures ReplaceAll(a + b, pat, rep) == a + ReplaceAll(b, pat, rep)
  {
    var s := a + b;
    assert OccursAt(b, pat, k);
    var x, post := b[..k], b[k + |pat|..];
    assert s[|a| + k + |pat|..] == post;
    assert s[..|a| + k] == a + x;
    ReplaceAllUnfold(s, pat, rep, |a| + k, a + x, post);
    ReplaceAllUnfold(b, pat, rep, k, x, post);
    ConcatRegroup(a, x, rep, ReplaceAll(post, pat, rep));
  }

  lemma ConcatRegroup(a: string, x: string, rep: string, tail: string)
    ensures (a + x) + rep + tail == a + (x + rep + tail)
  {
  }

  lemma ReplaceAllNone(s: string, pat: string, rep: string)
    requires |pat| > 0 && Index(s, pat) == None
    ensures ReplaceAll(s, pat, rep) == s
  {
  }

  lemma ReplaceAllAt(s: string, pat: string, rep: string, i: nat)
    requires |pat| > 0 && Index(s, pat) == Some(i)
    ensures i + |pat| <= |s|
    ensures ReplaceAll(s, pat, rep) == s[..i] + rep + ReplaceAll(s[i + |pat|..], pat, rep)
  {
    assert OccursAt(s, pat, i);
    ReplaceAllUnfold(s, pat, rep, i, s[..i], s[i + |pat|..]);
  }

  /** One step of `strings.Replace(.., -1)` at the first occurrence, the text around it named. */
  lemma ReplaceAllUnfold(s: string, pat: string, rep: string, i: nat, pre: string, post: string)
    requires |pat| > 0 && Index(s, pat) == Some(i) && i + |pat| <= |s|
    requires pre == s[..i] && post == s[i + |pat|..]
    ensures ReplaceAll(s, pat, rep) == pre + rep + ReplaceAll(post, pat, rep)
  {
  }
}
