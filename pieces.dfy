/** How `splitExprToChildren` and `shipChildren` read the elided normalised text of a formula:
    a split on ` or `, ` and ` or `not ` falls exactly between whole tokens, and expanding the
    keys of a piece gives back the text of the operand it stands for. */
module Pieces {
  import opened Wrappers
  import opened Text
  import opened Formula
  import opened Tree
  import opened TreeFacts
  import opened Canonical

  // ---------------------------------------------------------------------------------------
  // Occurrences of a separator in a text of space-separated tokens
  // ---------------------------------------------------------------------------------------

  /** Tokens that are not empty and hold no space. */
  predicate Words(ts: seq<string>) {
    forall k :: 0 <= k < |ts| ==> |ts[k]| > 0 && SpaceFree(ts[k])
  }

  /** What follows a token list: nothing, or a space first. */
  predicate Spaced(u: string) { u == [] || u[0] == ' ' }

  lemma OccursChars(s: string, pat: string, j: int)
    ensures OccursAt(s, pat, j) ==> forall m :: 0 <= m < |pat| ==> s[j + m] == pat[m]
  {
    if OccursAt(s, pat, j) {
      forall m | 0 <= m < |pat| ensures s[j + m] == pat[m] {
        assert s[j..j + |pat|][m] == s[j + m];
      }
    }
  }

  lemma OccursShift(a: string, b: string, pat: string, j: nat)
    ensures OccursAt(a + b, pat, |a| + j) == OccursAt(b, pat, j)
  {
    if j + |pat| <= |b| {
      assert (a + b)[|a| + j..|a| + j + |pat|] == b[j..j + |pat|];
    }
  }

  /** A space-free word followed by a space, read where the token `t` starts, is `t` itself. */
  lemma FirstWord(t: string, v: string, w: string)
    requires |t| > 0 && SpaceFree(t) && Spaced(v) && SpaceFree(w)
    ensures |w| < |t + v| && (t + v)[..|w|] == w && (t + v)[|w|] == ' ' ==> w == t
  {
    var s := t + v;
    assert forall k :: 0 <= k < |t| ==> s[k] == t[k];
    assert |v| > 0 ==> s[|t|] == ' ';
    if |w| < |s| && s[..|w|] == w {
      assert forall k :: 0 <= k < |w| ==> w[k] == s[k];
      if |w| == |t| {
        assert s[..|t|] == t;
      }
    }
  }

  lemma JoinSplit(ts: seq<string>)
    requires |ts| > 1
    ensures Join(ts, " ") == ts[0] + " " + Join(ts[1..], " ")
  {
  }

  /** ` w ` starts inside a token list only at the space before a later token `w`, and then
      ends inside the list unless that token is the last one. */
  lemma {:induction false} SeparatorAt(ts: seq<string>, w: string, u: string)
    requires |ts| > 0 && Words(ts) && SpaceFree(w) && Spaced(u)
    ensures forall j :: 0 <= j < |Join(ts, " ")| && OccursAt(Join(ts, " ") + u, " " + w + " ", j) ==>
      (exists m :: 1 <= m < |ts| && ts[m] == w)
    ensures ts[|ts| - 1] != w ==>
      forall j :: 0 <= j < |Join(ts, " ")| && OccursAt(Join(ts, " ") + u, " " + w + " ", j) ==>
        j + |w| + 2 <= |Join(ts, " ")|
    decreases |ts|
  {
    var pat := " " + w + " ";
    var t := ts[0];
    var s := Join(ts, " ") + u;
    forall j | 0 <= j < |t| ensures !OccursAt(s, pat, j) {
      OccursChars(s, pat, j);
      assert s[j] == t[j];
    }
    if |ts| > 1 {
      SeparatorNext(ts, w, u);
    }
  }

  lemma {:induction false} SeparatorNext(ts: seq<string>, w: string, u: string)
    requires |ts| > 1 && Words(ts) && SpaceFree(w) && Spaced(u)
    requires forall j :: 0 <= j < |ts[0]| ==> !OccursAt(Join(ts, " ") + u, " " + w + " ", j)
    ensures forall j :: 0 <= j < |Join(ts, " ")| && OccursAt(Join(ts, " ") + u, " " + w + " ", j) ==>
      (exists m :: 1 <= m < |ts| && ts[m] == w)
    ensures ts[|ts| - 1] != w ==>
      forall j :: 0 <= j < |Join(ts, " ")| && OccursAt(Join(ts, " ") + u, " " + w + " ", j) ==>
        j + |w| + 2 <= |Join(ts, " ")|
    decreases |ts|, 0
  {
    var pat := " " + w + " ";
    var t, rest := ts[0], ts[1..];
    var jr := Join(rest, " ");
    var s := Join(ts, " ") + u;
    JoinSplit(ts);
    assert s == (t + " ") + (jr + u);
    SeparatorAt(rest, w, u);
    FirstAfterSpace(t, rest, w, u);
    forall j | 0 <= j < |Join(ts, " ")| && OccursAt(s, pat, j)
      ensures (exists m :: 1 <= m < |ts| && ts[m] == w)
      ensures ts[|ts| - 1] != w ==> j + |w| + 2 <= |Join(ts, " ")|
    {
      if j == |t| {
        assert ts[1] == w;
      } else {
        OccursShift(t + " ", jr + u, pat, j - |t| - 1);
        var m :| 1 <= m < |rest| && rest[m] == w;
        assert ts[m + 1] == w;
      }
    }
  }

  /** The separator at the space after the first token is followed by the second token. */
  lemma FirstAfterSpace(t: string, rest: seq<string>, w: string, u: string)
    requires |rest| > 0 && Words(rest) && SpaceFree(w) && Spaced(u)
    ensures OccursAt(t + " " + (Join(rest, " ") + u), " " + w + " ", |t|) ==>
      rest[0] == w && (|rest| > 1 ==> |w| + 1 < |Join(rest, " ")|)
  {
    var pat := " " + w + " ";
    var jr := Join(rest, " ");
    var s := t + " " + (jr + u);
    var v := if |rest| > 1 then " " + Join(rest[1..], " ") + u else u;
    if |rest| > 1 {
      JoinSplit(rest);
    }
    assert jr + u == rest[0] + v;
    FirstWord(rest[0], v, w);
    if OccursAt(s, pat, |t|) {
      WordAfterSpace(t, jr + u, w);
    }
  }

  /** A separator ` w ` found at the space after `t` puts `w` and a space at the head of what
      follows that space. */
  lemma WordAfterSpace(t: string, x: string, w: string)
    requires OccursAt(t + " " + x, " " + w + " ", |t|)
    ensures |w| < |x| && x[..|w|] == w && x[|w|] == ' '
  {
    var s, pat := t + " " + x, " " + w + " ";
    var e := |t| + |pat|;
    assert s[|t|..e][1..] == s[|t| + 1..e] == x[..|w| + 1];
    assert pat[1..] == w + " ";
    assert x[..|w| + 1][..|w|] == x[..|w|];
    assert (w + " ")[..|w|] == w;
    assert x[..|w| + 1][|w|] == x[|w|];
  }

  // ---------------------------------------------------------------------------------------
  // strings.Split on a separator that follows every other occurrence
  // ---------------------------------------------------------------------------------------

  lemma IndexIs(s: string, pat: string, i: nat)
    requires OccursAt(s, pat, i) && forall j :: 0 <= j < i ==> !OccursAt(s, pat, j)
    ensures Index(s, pat) == Some(i)
  {
  }

  /** Splitting `a`, the separator, then a separator-free `b` splits `a` and adds `b`, as long
      as no occurrence of the separator starts in `a` and runs past its end. */
  lemma {:induction false} SplitLast(a: string, sep: string, b: string)
    requires |sep| > 0 && Index(b, sep) == None
    requires forall j :: 0 <= j < |a| && OccursAt(a + sep + b, sep, j) ==> j + |sep| <= |a|
    ensures Split(a + sep + b, sep) == Split(a, sep) + [b]
    decreases |a|, 1
  {
    var s := a + sep + b;
    forall j | 0 <= j && j + |sep| <= |a| ensures OccursAt(s, sep, j) == OccursAt(a, sep, j) {
      assert s[j..j + |sep|] == a[j..j + |sep|];
    }
    if Index(a, sep).None? {
      assert s[|a|..|a| + |sep|] == sep;
      IndexIs(s, sep, |a|);
      assert s[..|a|] == a;
      assert s[|a| + |sep|..] == b;
    } else {
      SplitLastAt(a, sep, b, Index(a, sep).value);
    }
  }

  lemma {:induction false} SplitLastAt(a: string, sep: string, b: string, i: nat)
    requires |sep| > 0 && Index(b, sep) == None && Index(a, sep) == Some(i)
    requires forall j :: 0 <= j && j + |sep| <= |a| ==> OccursAt(a + sep + b, sep, j) == OccursAt(a, sep, j)
    requires forall j :: 0 <= j < |a| && OccursAt(a + sep + b, sep, j) ==> j + |sep| <= |a|
    ensures Split(a + sep + b, sep) == Split(a, sep) + [b]
    decreases |a|, 0
  {
    var s := a + sep + b;
    assert OccursAt(a, sep, i);
    IndexIs(s, sep, i);
    var a' := a[i + |sep|..];
    assert s[..i] == a[..i];
    assert s[i + |sep|..] == a' + sep + b;
    assert a[..i + |sep|] + (a' + sep + b) == s;
    forall j | 0 <= j < |a'| && OccursAt(a' + sep + b, sep, j) ensures j + |sep| <= |a'| {
      OccursShift(a[..i + |sep|], a' + sep + b, sep, j);
    }
    SplitLast(a', sep, b);
    SplitAt(s, sep, i);
    SplitAt(a, sep, i);
    assert [a[..i]] + (Split(a', sep) + [b]) == ([a[..i]] + Split(a', sep)) + [b];
  }

  /** One step of `strings.Split` at the first separator. */
  lemma SplitAt(s: string, sep: string, i: nat)
    requires |sep| > 0 && Index(s, sep) == Some(i)
    ensures i + |sep| <= |s| && Split(s, sep) == [s[..i]] + Split(s[i + |sep|..], sep)
  {
  }

  lemma IndexNone(s: string, pat: string)
    requires |pat| > 0 && forall j :: 0 <= j < |s| ==> !OccursAt(s, pat, j)
    ensures Index(s, pat) == None
  {
  }

  /** No ` w ` in a token list whose tokens after the first differ from `w`. */
  lemma NoSeparator(ts: seq<string>, w: string)
    requires |ts| > 0 && Words(ts) && SpaceFree(w)
    requires forall m :: 1 <= m < |ts| ==> ts[m] != w
    ensures Index(Join(ts, " "), " " + w + " ") == None
  {
    SeparatorAt(ts, w, "");
    assert Join(ts, " ") + "" == Join(ts, " ");
    IndexNone(Join(ts, " "), " " + w + " ");
  }

  lemma JoinInfixTokens(x: seq<string>, w: string, y: seq<string>)
    requires |x| > 0 && |y| > 0
    ensures Join(x + [w] + y, " ") == Join(x, " ") + (" " + w + " ") + Join(y, " ")
  {
    var a, b := Join(x, " "), Join(y, " ");
    var jw := Join([w] + y, " ");
    assert jw == w + " " + b by {
      JoinAppend([w], y, " ");
      assert Join([w], " ") == w;
    }
    assert x + [w] + y == x + ([w] + y);
    JoinAppend(x, [w] + y, " ");
    Spaces(a, w, b);
  }

  lemma Spaces(a: string, w: string, b: string)
    ensures a + " " + (w + " " + b) == a + (" " + w + " ") + b
  {
  }

  /** Splitting the tokens `x`, then `w`, then the `w`-free tokens `y`. */
  lemma SplitTokens(x: seq<string>, w: string, y: seq<string>)
    requires |x| > 0 && |y| > 0 && Words(x) && Words(y) && SpaceFree(w)
    requires x[|x| - 1] != w && forall m :: 0 <= m < |y| ==> y[m] != w
    ensures Split(Join(x + [w] + y, " "), " " + w + " ") == Split(Join(x, " "), " " + w + " ") + [Join(y, " ")]
  {
    var pat := " " + w + " ";
    var a, b := Join(x, " "), Join(y, " ");
    JoinInfixTokens(x, w, y);
    assert Spaced(pat + b);
    SeparatorAt(x, w, pat + b);
    SeparatorsBefore(a, pat, b, |w| + 2);
    NoSeparator(y, w);
    SplitLast(a, pat, b);
  }

  lemma SeparatorsBefore(a: string, pat: string, b: string, n: nat)
    requires n == |pat|
    requires forall j :: 0 <= j < |a| && OccursAt(a + (pat + b), pat, j) ==> j + n <= |a|
    ensures forall j :: 0 <= j < |a| && OccursAt(a + pat + b, pat, j) ==> j + |pat| <= |a|
  {
    assert a + pat + b == a + (pat + b);
  }

  // ---------------------------------------------------------------------------------------
  // Keys in a text
  // ---------------------------------------------------------------------------------------

  /** The shape of a key: `#`, decimal digits, `#`. */
  predicate IsKey(t: string) {
    |t| >= 3 && t[0] == '#' && t[|t| - 1] == '#' && forall k :: 0 < k < |t| - 1 ==> IsDigit(t[k])
  }

  predicate KeyOrFree(t: string) { HashFree(t) || IsKey(t) }

  lemma KeyIsKey(i: nat)
    ensures IsKey(Key(i)) && |Key(i)| > 0 && SpaceFree(Key(i)) && !HashFree(Key(i))
  {
    KeyShape(i);
  }

  lemma KeyInjective(i: nat, k: nat)
    ensures Key(i) == Key(k) <==> i == k
  {
    if Key(i) == Key(k) {
      assert Itoa(i) == Key(i)[1..|Key(i)| - 1];
      assert Itoa(k) == Key(k)[1..|Key(k)| - 1];
      ItoaInjective(i, k);
    }
  }

  /** A key occurs in a token that is a key or free of `#`, followed by nothing or a space, only
      as that whole token. */
  lemma KeyOccurs(t: string, u: string, i: nat)
    requires KeyOrFree(t) && Spaced(u)
    ensures forall j :: 0 <= j < |t| ==> (OccursAt(t + u, Key(i), j) <==> j == 0 && t == Key(i))
  {
    var s, key := t + u, Key(i);
    KeyIsKey(i);
    assert forall k :: 0 <= k < |t| ==> s[k] == t[k];
    assert |u| > 0 ==> s[|t|] == ' ';
    forall j | 0 <= j < |t| ensures OccursAt(s, key, j) <==> j == 0 && t == key {
      OccursChars(s, key, j);
      if j == 0 && t == key {
        assert s[..|key|] == key;
      }
      if OccursAt(s, key, j) && j == 0 && |t| == |key| {
        assert s[..|key|] == t;
      }
    }
  }

  /** The tokens with every `Key(i)` replaced by `r`. */
  function Repl(ts: seq<string>, i: nat, r: string): (rs: seq<string>)
    ensures |rs| == |ts|
  {
    seq(|ts|, j requires 0 <= j < |ts| => if ts[j] == Key(i) then r else ts[j])
  }

  lemma ReplCons(ts: seq<string>, i: nat, r: string)
    requires |ts| > 0
    ensures Repl(ts, i, r) == [if ts[0] == Key(i) then r else ts[0]] + Repl(ts[1..], i, r)
  {
  }

  /** A space right before the text keeps a key from starting there. */
  lemma NoKeyAtSpace(s: string, j: nat, i: nat)
    requires j < |s| && s[j] == ' '
    ensures !OccursAt(s, Key(i), j)
  {
    KeyIsKey(i);
    OccursChars(s, Key(i), j);
  }

  /** `strings.Replace(.., Key(i), r, -1)` on a text of tokens that are keys or free of `#`
      replaces exactly the tokens equal to `Key(i)`. */
  lemma {:induction false} ReplaceAllKey(ts: seq<string>, i: nat, r: string)
    requires |ts| > 0 && forall k :: 0 <= k < |ts| ==> KeyOrFree(ts[k])
    ensures ReplaceAll(Join(ts, " "), Key(i), r) == Join(Repl(ts, i, r), " ")
    decreases |ts|
  {
    var t, key := ts[0], Key(i);
    KeyIsKey(i);
    if |ts| == 1 {
      ReplaceAllOne(t, i, r);
      assert Repl(ts, i, r) == [if t == key then r else t];
    } else {
      var rest := ts[1..];
      var jr := Join(rest, " ");
      JoinSplit(ts);
      ReplaceAllKey(rest, i, r);
      ReplCons(ts, i, r);
      JoinCons(if t == key then r else t, Repl(rest, i, r));
      ReplaceAllFirst(t, jr, i, r);
    }
  }

  lemma ReplaceAllOne(t: string, i: nat, r: string)
    requires KeyOrFree(t)
    ensures ReplaceAll(t, Key(i), r) == if t == Key(i) then r else t
  {
    var key := Key(i);
    KeyIsKey(i);
    KeyOccurs(t, "", i);
    assert t + "" == t;
    if t == key {
      IndexIs(t, key, 0);
      ReplaceAllAt(t, key, r, 0);
      assert t[|key|..] == "";
      IndexNone("", key);
    } else {
      IndexNone(t, key);
    }
  }

  lemma ReplaceAllFirst(t: string, rest: string, i: nat, r: string)
    requires KeyOrFree(t)
    ensures ReplaceAll(t + " " + rest, Key(i), r)
         == (if t == Key(i) then r else t) + " " + ReplaceAll(rest, Key(i), r)
  {
    KeyIsKey(i);
    KeyOccurs(t, " " + rest, i);
    if t == Key(i) {
      ReplaceAllFirstKey(rest, i, r);
    } else {
      ReplaceAllFirstOther(t, rest, i, r);
    }
  }

  lemma ReplaceAllFirstKey(rest: string, i: nat, r: string)
    ensures ReplaceAll(Key(i) + " " + rest, Key(i), r) == r + " " + ReplaceAll(rest, Key(i), r)
  {
    KeyIsKey(i);
    ReplaceLeadingToken(Key(i), rest, r);
  }

  /** Replacing every `key` in a text that starts with `key` and a space. */
  lemma ReplaceLeadingToken(key: string, rest: string, r: string)
    requires |key| > 0 && SpaceFree(key)
    ensures ReplaceAll(key + " " + rest, key, r) == r + " " + ReplaceAll(rest, key, r)
  {
    var s := key + " " + rest;
    assert s[..|key|] == key;
    IndexIs(s, key, 0);
    assert s[..0] == "" && s[|key|..] == " " + rest;
    ReplaceAllUnfold(s, key, r, 0, "", " " + rest);
    assert !OccursAt(" " + rest, key, 0) by {
      OccursChars(" " + rest, key, 0);
      assert key[0] != ' ' && (" " + rest)[0] == ' ';
    }
    ReplaceAllShift(" ", rest, key, r);
    var tail := ReplaceAll(rest, key, r);
    assert "" + r + (" " + tail) == r + " " + tail;
  }

  lemma ReplaceAllFirstOther(t: string, rest: string, i: nat, r: string)
    requires t != Key(i)
    requires forall j :: 0 <= j < |t| ==> !OccursAt(t + (" " + rest), Key(i), j)
    ensures ReplaceAll(t + " " + rest, Key(i), r) == t + " " + ReplaceAll(rest, Key(i), r)
  {
    var key := Key(i);
    var s := t + " " + rest;
    KeyIsKey(i);
    assert s == t + (" " + rest) == (t + " ") + rest;
    NoKeyAtSpace(s, |t|, i);
    ReplaceAllShift(t + " ", rest, key, r);
  }

  // ---------------------------------------------------------------------------------------
  // Expanding the keys of a piece
  // ---------------------------------------------------------------------------------------

  /** A table whose texts hold no `#`. */
  predicate TableFree(table: seq<string>) {
    forall k :: 0 <= k < |table| ==> HashFree(table[k])
  }

  /** What the inner loop of `shipChildren` does to one token from key `i` on, when the token is
      not the whole piece. */
  function SubFrom(t: string, table: seq<string>, i: nat): string
    decreases |table| - i
  {
    if i >= |table| then t
    else if t == Key(i) then "( " + table[i] + " )"
    else SubFrom(t, table, i + 1)
  }

  function SubAll(ts: seq<string>, table: seq<string>, i: nat): (rs: seq<string>)
    ensures |rs| == |ts|
  {
    seq(|ts|, j requires 0 <= j < |ts| => SubFrom(ts[j], table, i))
  }

  lemma {:induction false} SubFromFree(t: string, table: seq<string>, i: nat)
    requires HashFree(t)
    ensures SubFrom(t, table, i) == t
    decreases |table| - i
  {
    if i < |table| {
      KeyIsKey(i);
      SubFromFree(t, table, i + 1);
    }
  }

  lemma {:induction false} SubFromKey(k: nat, table: seq<string>, i: nat)
    requires i <= k < |table|
    ensures SubFrom(Key(k), table, i) == "( " + table[k] + " )"
    decreases k - i
  {
    KeyInjective(i, k);
    if i < k {
      SubFromKey(k, table, i + 1);
    }
  }

  lemma Bracketed(w: string)
    requires HashFree(w)
    ensures HashFree("( " + w + " )")
  {
  }

  /** A text free of `#` holds no key and comes out of the loop unchanged. */
  lemma {:induction false} ExpandFree(o: string, table: seq<string>, i: nat)
    requires HashFree(o)
    ensures Expand(o, table, i) == o
    decreases |table| - i
  {
    if i < |table| {
      KeyIsKey(i);
      forall j | 0 <= j < |o| ensures !OccursAt(o, Key(i), j) {
        OccursChars(o, Key(i), j);
      }
      IndexNone(o, Key(i));
      ExpandFree(o, table, i + 1);
    }
  }

  /** A piece that is the single key `Key(k)` becomes the text stored under it. */
  lemma {:induction false} ExpandKey(k: nat, table: seq<string>, i: nat)
    requires i <= k < |table| && TableFree(table)
    ensures Expand(Key(k), table, i) == table[k]
    decreases k - i
  {
    KeyInjective(i, k);
    if i == k {
      ExpandFree(table[k], table, k + 1);
    } else {
      KeyIsKey(k);
      KeyOccurs(Key(k), "", i);
      assert Key(k) + "" == Key(k);
      IndexNone(Key(k), Key(i));
      ExpandKey(k, table, i + 1);
    }
  }

  /** A piece of several tokens, or of one token without `#`, gets every key token replaced by
      its bracketed text. */
  lemma {:induction false} ExpandJoin(ts: seq<string>, table: seq<string>, i: nat)
    requires |ts| > 0 && (forall k :: 0 <= k < |ts| ==> KeyOrFree(ts[k])) && TableFree(table)
    requires |ts| > 1 || HashFree(ts[0])
    ensures Expand(Join(ts, " "), table, i) == Join(SubAll(ts, table, i), " ")
    decreases |table| - i
  {
    if i >= |table| {
      assert SubAll(ts, table, i) == ts;
    } else {
      var o, key := Join(ts, " "), Key(i);
      var r := "( " + table[i] + " )";
      KeyIsKey(i);
      if |ts| > 1 {
        JoinSplit(ts);
        assert o[|ts[0]|] == ' ';
      }
      assert o != key;
      Bracketed(table[i]);
      ReplaceAllKey(ts, i, r);
      var ts' := Repl(ts, i, r);
      ExpandJoin(ts', table, i + 1);
      forall j | 0 <= j < |ts| ensures SubFrom(ts'[j], table, i + 1) == SubFrom(ts[j], table, i) {
        if ts[j] == key {
          SubFromFree(r, table, i + 1);
        }
      }
      assert SubAll(ts', table, i + 1) == SubAll(ts, table, i);
    }
  }

  // ---------------------------------------------------------------------------------------
  // From items to tokens
  // ---------------------------------------------------------------------------------------

  /** After elision a token item keeps its word and a block becomes a key. */
  lemma {:induction false} KeyToksAt(xs: seq<Item>, i: nat)
    ensures |KeyToks(xs, i)| == |xs|
    ensures forall k :: 0 <= k < |xs| ==>
      (xs[k].Tok? ==> KeyToks(xs, i)[k] == xs[k].t) && (xs[k].Grp? ==> IsKey(KeyToks(xs, i)[k]))
    decreases |xs|
  {
    KeyToksLength(xs, i);
    if xs != [] {
      var i' := if xs[0].Grp? then i + 1 else i;
      KeyToksAt(xs[1..], i');
      var head := if xs[0].Grp? then Key(i) else xs[0].t;
      var ks := KeyToks(xs, i);
      assert ks == [head] + KeyToks(xs[1..], i');
      KeyIsKey(i);
      forall k | 1 <= k < |xs|
        ensures (xs[k].Tok? ==> ks[k] == xs[k].t) && (xs[k].Grp? ==> IsKey(ks[k]))
      {
        assert ks[k] == KeyToks(xs[1..], i')[k - 1] && xs[k] == xs[1..][k - 1];
      }
    }
  }

  lemma KeyToksShape(xs: seq<Item>, i: nat)
    requires PlainToks(xs)
    ensures Words(KeyToks(xs, i)) && forall k :: 0 <= k < |KeyToks(xs, i)| ==> KeyOrFree(KeyToks(xs, i)[k])
  {
    KeyToksAt(xs, i);
    forall k | 0 <= k < |xs| ensures |KeyToks(xs, i)[k]| > 0 && SpaceFree(KeyToks(xs, i)[k]) && KeyOrFree(KeyToks(xs, i)[k]) {
      if xs[k].Tok? {
        PlainFacts(xs[k].t);
      } else {
        KeyOnly(KeyToks(xs, i)[k]);
      }
    }
  }

  lemma KeyOnly(t: string)
    requires IsKey(t)
    ensures |t| > 0 && SpaceFree(t) && KeyOrFree(t)
  {
    assert forall k :: 0 < k < |t| - 1 ==> IsDigit(t[k]);
  }

  /** A word without `#` is a token of the elided items only where it is a token item. */
  lemma KeyToksWord(xs: seq<Item>, i: nat, w: string, k: nat)
    requires HashFree(w) && k < |xs| && k < |KeyToks(xs, i)| && KeyToks(xs, i)[k] == w
    ensures xs[k] == Tok(w)
  {
    KeyToksAt(xs, i);
  }

  lemma {:induction false} TextsFree(xs: seq<Item>)
    ensures TableFree(Texts(xs))
    decreases |xs|
  {
    if xs != [] {
      TextsFree(xs[1..]);
      if xs[0].Grp? {
        WrittenFacts(xs[0].g);
      }
    }
  }

  /** The table holds the texts of the blocks of `xs` from position `i0` on. */
  predicate Holds(table: seq<string>, i0: nat, xs: seq<Item>) {
    i0 + |Texts(xs)| <= |table| && forall m :: 0 <= m < |Texts(xs)| ==> table[i0 + m] == Texts(xs)[m]
  }

  lemma SubAllCons(h: string, r: seq<string>, table: seq<string>, i: nat)
    ensures SubAll([h] + r, table, i) == [SubFrom(h, table, i)] + SubAll(r, table, i)
  {
    var l, rr := SubAll([h] + r, table, i), [SubFrom(h, table, i)] + SubAll(r, table, i);
    forall k | 0 <= k < |l| ensures l[k] == rr[k] {
      if k > 0 {
        assert ([h] + r)[k] == r[k - 1];
      }
    }
  }

  lemma ItemTextsCons(xs: seq<Item>)
    requires xs != []
    ensures ItemTexts(xs) == [ItemText(xs[0])] + ItemTexts(xs[1..])
  {
  }

  /** The first item of `xs` substitutes to its own text, and the table still holds the rest. */
  lemma ItemSubHead(xs: seq<Item>, i0: nat, table: seq<string>)
    requires xs != [] && PlainToks(xs) && Holds(table, i0, xs)
    ensures SubFrom(if xs[0].Grp? then Key(i0) else xs[0].t, table, 0) == ItemText(xs[0])
    ensures Holds(table, if xs[0].Grp? then i0 + 1 else i0, xs[1..])
  {
    HoldsRest(xs, i0, table);
    if xs[0].Grp? {
      ItemSubGroup(xs, i0, table);
    } else {
      PlainFacts(xs[0].t);
      SubFromFree(xs[0].t, table, 0);
    }
  }

  lemma ItemSubGroup(xs: seq<Item>, i0: nat, table: seq<string>)
    requires xs != [] && xs[0].Grp? && Holds(table, i0, xs)
    ensures SubFrom(Key(i0), table, 0) == ItemText(xs[0])
  {
    assert Texts(xs)[0] == Written(xs[0].g);
    assert table[i0 + 0] == Written(xs[0].g);
    SubFromKey(i0, table, 0);
  }

  lemma HoldsRest(xs: seq<Item>, i0: nat, table: seq<string>)
    requires xs != [] && Holds(table, i0, xs)
    ensures Holds(table, if xs[0].Grp? then i0 + 1 else i0, xs[1..])
  {
    var rest := xs[1..];
    if xs[0].Grp? {
      assert Texts(xs) == [Written(xs[0].g)] + Texts(rest);
      forall m | 0 <= m < |Texts(rest)| ensures table[i0 + 1 + m] == Texts(rest)[m] {
        assert Texts(rest)[m] == Texts(xs)[m + 1];
      }
    } else {
      assert Texts(xs) == Texts(rest);
    }
  }

  /** Substituting the keys of the elided items gives back their texts. */
  lemma {:induction false} ItemSub(xs: seq<Item>, i0: nat, table: seq<string>)
    requires PlainToks(xs) && Holds(table, i0, xs)
    ensures SubAll(KeyToks(xs, i0), table, 0) == ItemTexts(xs)
    decreases |xs|
  {
    if xs != [] {
      var i' := if xs[0].Grp? then i0 + 1 else i0;
      var head := if xs[0].Grp? then Key(i0) else xs[0].t;
      PlainRest(xs);
      ItemSubHead(xs, i0, table);
      ItemSub(xs[1..], i', table);
      assert KeyToks(xs, i0) == [head] + KeyToks(xs[1..], i');
      SubAllCons(head, KeyToks(xs[1..], i'), table, 0);
      ItemTextsCons(xs);
    }
  }

  /** The piece of the items `xs`, keys numbered from `i0`, expands to their text; a piece that
      is a single block expands to the text inside it. */
  lemma PartExpand(xs: seq<Item>, i0: nat, table: seq<string>)
    requires |xs| > 0 && PlainToks(xs) && Holds(table, i0, xs) && TableFree(table)
    ensures Expand(Join(KeyToks(xs, i0), " "), table, 0)
         == if |xs| == 1 && xs[0].Grp? then Written(xs[0].g) else Join(ItemTexts(xs), " ")
  {
    KeyToksLength(xs, i0);
    if |xs| == 1 && xs[0].Grp? {
      assert KeyToks(xs, i0) == [Key(i0)];
      assert Join(KeyToks(xs, i0), " ") == Key(i0);
      assert Texts(xs) == [Written(xs[0].g)] + Texts(xs[1..]);
      assert table[i0 + 0] == Texts(xs)[0];
      ExpandKey(i0, table, 0);
    } else {
      KeyToksShape(xs, i0);
      if |xs| == 1 {
        assert KeyToks(xs, i0) == [xs[0].t];
        PlainFacts(xs[0].t);
      }
      ExpandJoin(KeyToks(xs, i0), table, 0);
      ItemSub(xs, i0, table);
    }
  }
}
