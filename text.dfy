/**
 * The string operations the plugin relies on: Python's `str.strip()`,
 * `startswith`/`endswith`, `lower()` and the code-point ordering used by `sorted()`.
 */
module Text {

  /** Python's `str.isspace()`: the characters that `str.strip()` removes. */
  predicate IsSpace(c: char) {
    || ('\t' <= c <= '\r')
    || ('\U{1C}' <= c <= '\U{1F}')
    || c == ' ' || c == '\U{85}' || c == '\U{A0}' || c == '\U{1680}'
    || ('\U{2000}' <= c <= '\U{200A}')
    || c == '\U{2028}' || c == '\U{2029}' || c == '\U{202F}' || c == '\U{205F}' || c == '\U{3000}'
  }

  predicate AllSpace(s: string) {
    forall i :: 0 <= i < |s| ==> IsSpace(s[i])
  }

  /** Drops the leading whitespace: what is left is a suffix that does not start with whitespace. */
  function TrimStart(s: string): (r: string)
    ensures |r| <= |s| && r == s[|s| - |r|..]
    ensures AllSpace(s[..|s| - |r|])
    ensures r == [] || !IsSpace(r[0])
  {
    if |s| > 0 && IsSpace(s[0]) then
      var r := TrimStart(s[1..]);
      assert s[1..][..|s| - 1 - |r|] == s[1..|s| - |r|];
      assert s[1..][|s| - 1 - |r|..] == s[|s| - |r|..];
      SpaceThenSpaces(s, |s| - |r|);
      r
    else s
  }

  /** Drops the trailing whitespace: what is left is a prefix that does not end with whitespace. */
  function TrimEnd(s: string): (r: string)
    ensures |r| <= |s| && r == s[..|r|]
    ensures AllSpace(s[|r|..])
    ensures r == [] || !IsSpace(r[|r| - 1])
  {
    if |s| > 0 && IsSpace(s[|s| - 1]) then
      var r := TrimEnd(s[..|s| - 1]);
      assert s[..|s| - 1][..|r|] == s[..|r|];
      assert s[..|s| - 1][|r|..] == s[|r|..|s| - 1];
      SpacesThenSpace(s, |r|);
      r
    else s
  }

  /** A whitespace character followed by whitespace is whitespace. */
  lemma SpaceThenSpaces(s: string, j: nat)
    requires 0 < j <= |s| && IsSpace(s[0]) && AllSpace(s[1..j])
    ensures AllSpace(s[..j])
  {
    forall k | 0 < k < j
      ensures IsSpace(s[..j][k])
    {
      assert s[..j][k] == s[1..j][k - 1];
    }
  }

  /** Whitespace followed by a final whitespace character is whitespace. */
  lemma SpacesThenSpace(s: string, i: nat)
    requires i < |s| && AllSpace(s[i..|s| - 1]) && IsSpace(s[|s| - 1])
    ensures AllSpace(s[i..])
  {
    forall k | 0 <= k < |s| - 1 - i
      ensures IsSpace(s[i..][k])
    {
      assert s[i..][k] == s[i..|s| - 1][k];
    }
  }

  /** Python's `s.strip()`: whitespace removed at both ends. */
  function Strip(s: string): (r: string)
    ensures |r| <= |s|
    ensures r == [] || (!IsSpace(r[0]) && !IsSpace(r[|r| - 1]))
  {
    TrimEnd(TrimStart(s))
  }

  /** What `strip()` returns is the slice of `s` between a whitespace prefix and a whitespace suffix. */
  lemma StripIsSlice(s: string)
    ensures exists i :: PaddedSlice(s, Strip(s), i)
  {
    var t := TrimStart(s);
    SliceOfSlice(s, t, TrimEnd(t));
    assert PaddedSlice(s, Strip(s), |s| - |t|);
  }

  /** A whitespace-padded piece of a whitespace-padded suffix is a whitespace-padded slice. */
  lemma SliceOfSlice(s: string, t: string, r: string)
    requires |r| <= |t| <= |s| && t == s[|s| - |t|..] && r == t[..|r|]
    requires AllSpace(s[..|s| - |t|]) && AllSpace(t[|r|..])
    ensures PaddedSlice(s, r, |s| - |t|)
  {
    var i := |s| - |t|;
    assert s[i..i + |r|] == r;
    assert s[i + |r|..] == t[|r|..];
  }

  /** `r` sits in `s` at index `i` with only whitespace before and after it. */
  predicate PaddedSlice(s: string, r: string, i: int) {
    0 <= i <= |s| - |r| && r == s[i..i + |r|] && AllSpace(s[..i]) && AllSpace(s[i + |r|..])
  }

  lemma {:induction false} TrimStartPadded(a: string, x: string)
    requires AllSpace(a)
    ensures TrimStart(a + x) == TrimStart(x)
  {
    if a == [] {
      assert a + x == x;
    } else {
      assert (a + x)[1..] == a[1..] + x;
      TrimStartPadded(a[1..], x);
    }
  }

  lemma {:induction false} TrimEndPadded(x: string, b: string)
    requires AllSpace(b)
    ensures TrimEnd(x + b) == TrimEnd(x)
  {
    if b == [] {
      assert x + b == x;
    } else {
      var xb := x + b;
      assert xb[..|xb| - 1] == x + b[..|b| - 1];
      TrimEndPadded(x, b[..|b| - 1]);
    }
  }

  lemma {:induction false} TrimStartAppend(m: string, b: string)
    ensures TrimStart(m) != [] ==> TrimStart(m + b) == TrimStart(m) + b
    ensures TrimStart(m) == [] ==> TrimStart(m + b) == TrimStart(b)
  {
    if m == [] {
      assert m + b == b;
    } else {
      assert (m + b)[1..] == m[1..] + b;
      if IsSpace(m[0]) {
        TrimStartAppend(m[1..], b);
      }
    }
  }

  /** Whitespace around a string never changes what `strip()` returns. */
  lemma StripIgnoresPadding(a: string, m: string, b: string)
    requires AllSpace(a) && AllSpace(b)
    ensures Strip(a + m + b) == Strip(m)
  {
    assert a + m + b == a + (m + b);
    TrimStartPadded(a, m + b);
    TrimStartAppend(m, b);
    if TrimStart(m) != [] {
      TrimEndPadded(TrimStart(m), b);
    } else {
      TrimStartPadded(b, []);
      assert b + [] == b;
    }
  }

  /** Text that neither starts nor ends with whitespace is its own `strip()`. */
  lemma StripKeepsTrimmed(s: string)
    requires s == [] || (!IsSpace(s[0]) && !IsSpace(s[|s| - 1]))
    ensures Strip(s) == s
  {
    assert TrimStart(s) == s;
    assert TrimEnd(s) == s;
  }

  predicate StartsWith(s: string, prefix: string) {
    |prefix| <= |s| && s[..|prefix|] == prefix
  }

  predicate EndsWith(s: string, suffix: string) {
    |suffix| <= |s| && s[|s| - |suffix|..] == suffix
  }

  /** `s.startswith("http://") or s.startswith("https://")` */
  predicate IsHttpUrl(s: string) {
    StartsWith(s, "http://") || StartsWith(s, "https://")
  }

  function LowerChar(c: char): char {
    if 'A' <= c <= 'Z' then (c as int + 32) as char else c
  }

  /** `s.lower()` on the ASCII letters (other scripts are kept as they are). */
  function Lower(s: string): (r: string)
    ensures |r| == |s|
    ensures forall i :: 0 <= i < |s| ==> r[i] == LowerChar(s[i])
  {
    if s == [] then [] else [LowerChar(s[0])] + Lower(s[1..])
  }

  /** Python's `a < b` on `str`: lexicographic by code point, a proper prefix first. */
  predicate Below(a: string, b: string) {
    |b| > 0 && (|a| == 0 || a[0] < b[0] || (a[0] == b[0] && Below(a[1..], b[1..])))
  }

  lemma {:induction false} BelowIrreflexive(a: string)
    ensures !Below(a, a)
  {
    if |a| > 0 {
      BelowIrreflexive(a[1..]);
    }
  }

  lemma {:induction false} BelowTransitive(a: string, b: string, c: string)
    requires Below(a, b) && Below(b, c)
    ensures Below(a, c)
  {
    if |a| > 0 && a[0] == b[0] && b[0] == c[0] {
      BelowTransitive(a[1..], b[1..], c[1..]);
    }
  }

  lemma {:induction false} BelowTotal(a: string, b: string)
    requires a != b
    ensures Below(a, b) || Below(b, a)
  {
    if |a| > 0 && |b| > 0 && a[0] == b[0] {
      assert a == [a[0]] + a[1..] && b == [b[0]] + b[1..];
      BelowTotal(a[1..], b[1..]);
    }
  }

  function Elements(xs: seq<string>): set<string> {
    set x | x in xs
  }

  /** Sorted in Python's order with no repeated element. */
  predicate StrictlySorted(xs: seq<string>) {
    forall i, j :: 0 <= i < j < |xs| ==> Below(xs[i], xs[j])
  }

  /** Adds `x` to a sorted, duplicate-free list, keeping it so. */
  function Insert(xs: seq<string>, x: string): (r: seq<string>)
    requires StrictlySorted(xs)
    ensures StrictlySorted(r)
    ensures Elements(r) == Elements(xs) + {x}
    ensures |r| == if x in xs then |xs| else |xs| + 1
  {
    if xs == [] then [x]
    else if x == xs[0] then xs
    else if Below(x, xs[0]) then
      InsertBeforeHead(xs, x);
      ElementsCons(x, xs);
      [x] + xs
    else
      BelowTotal(x, xs[0]);
      var rest := Insert(xs[1..], x);
      InsertAfterHead(xs, x, rest);
      ElementsCons(xs[0], rest);
      ElementsCons(xs[0], xs[1..]);
      assert [xs[0]] + xs[1..] == xs;
      [xs[0]] + rest
  }

  lemma ElementsCons(a: string, s: seq<string>)
    ensures Elements([a] + s) == {a} + Elements(s)
  {
    assert forall y :: y in [a] + s <==> y == a || y in s;
  }

  lemma InsertBeforeHead(xs: seq<string>, x: string)
    requires StrictlySorted(xs) && xs != [] && Below(x, xs[0])
    ensures StrictlySorted([x] + xs)
    ensures x !in xs
  {
    forall j | 0 <= j < |xs|
      ensures Below(x, xs[j])
    {
      if j > 0 {
        BelowTransitive(x, xs[0], xs[j]);
      }
    }
    if x in xs {
      var j :| 0 <= j < |xs| && xs[j] == x;
      BelowIrreflexive(x);
    }
  }

  lemma InsertAfterHead(xs: seq<string>, x: string, rest: seq<string>)
    requires StrictlySorted(xs) && xs != [] && Below(xs[0], x)
    requires StrictlySorted(rest) && Elements(rest) == Elements(xs[1..]) + {x}
    ensures StrictlySorted([xs[0]] + rest)
  {
    forall j | 0 <= j < |rest|
      ensures Below(xs[0], rest[j])
    {
      assert rest[j] in Elements(rest);
      if rest[j] != x {
        var k :| 0 <= k < |xs[1..]| && xs[1..][k] == rest[j];
        assert xs[k + 1] == rest[j];
      }
    }
  }
}
