/**
 * Python's `int()` on the two kinds of value the plugin feeds it: fortune-table
 * keys (strings) and the `pre_cache_concurrency` setting. Only ASCII digits are
 * recognised.
 */
module PyInt {
  import opened Wrappers
  import opened Text

  predicate IsDigit(c: char) {
    '0' <= c <= '9'
  }

  function DigitValue(c: char): nat
    requires IsDigit(c)
  {
    c as int - '0' as int
  }

  function DigitChar(d: nat): (c: char)
    requires d < 10
    ensures IsDigit(c) && DigitValue(c) == d
  {
    ('0' as int + d) as char
  }

  predicate DigitsOrUnderscores(s: string) {
    forall i :: 0 <= i < |s| ==> IsDigit(s[i]) || s[i] == '_'
  }

  /** A base-10 literal body: digits, with single underscores allowed between two digits. */
  predicate IsDigitGroup(s: string) {
    && |s| > 0 && IsDigit(s[0]) && IsDigit(s[|s| - 1])
    && DigitsOrUnderscores(s)
    && (forall i :: 0 <= i < |s| - 1 && s[i] == '_' ==> IsDigit(s[i + 1]))
  }

  /** The number the digits of `s` spell, underscores skipped. */
  function DigitsValue(s: string): nat
    requires DigitsOrUnderscores(s)
  {
    if s == [] then 0
    else
      var v := DigitsValue(s[..|s| - 1]);
      if s[|s| - 1] == '_' then v else 10 * v + DigitValue(s[|s| - 1])
  }

  /**
   * `int(s)` for a `str`: surrounding whitespace is ignored, one optional sign,
   * then a digit group; `None` stands for the `ValueError` Python raises.
   */
  function ParseInt(s: string): Option<int> {
    ParseTrimmed(Strip(s))
  }

  /** `int()` on text that has already been stripped. */
  function ParseTrimmed(t: string): Option<int> {
    if |t| > 0 && (t[0] == '-' || t[0] == '+') then
      var body := t[1..];
      if IsDigitGroup(body) then Some(if t[0] == '-' then -(DigitsValue(body) as int) else DigitsValue(body)) else None
    else if IsDigitGroup(t) then Some(DigitsValue(t))
    else None
  }

  /** `str(n)` for a non-negative `n`. */
  function ShowNat(n: nat): (s: string)
    ensures |s| > 0 && forall i :: 0 <= i < |s| ==> IsDigit(s[i])
    decreases n
  {
    if n < 10 then [DigitChar(n)] else ShowNat(n / 10) + [DigitChar(n % 10)]
  }

  /** `str(n)`. */
  function ShowInt(n: int): string {
    if n < 0 then "-" + ShowNat(-n) else ShowNat(n)
  }

  lemma {:induction false} ShowNatValue(n: nat)
    ensures DigitsOrUnderscores(ShowNat(n)) && DigitsValue(ShowNat(n)) == n
    decreases n
  {
    var s := ShowNat(n);
    if n >= 10 {
      ShowNatValue(n / 10);
      assert s[..|s| - 1] == ShowNat(n / 10);
    }
  }

  lemma ShowNatParses(n: nat)
    ensures IsDigitGroup(ShowNat(n)) && !IsSpace(ShowNat(n)[0]) && !IsSpace(ShowNat(n)[|ShowNat(n)| - 1])
    ensures ParseTrimmed(ShowNat(n)) == Some(n)
  {
    ShowNatValue(n);
    var d := ShowNat(n);
    assert IsDigit(d[0]) && IsDigit(d[|d| - 1]);
    assert IsDigitGroup(d);
  }

  lemma ShowIntParses(n: int)
    ensures var s := ShowInt(n); !IsSpace(s[0]) && !IsSpace(s[|s| - 1])
    ensures ParseTrimmed(ShowInt(n)) == Some(n)
  {
    if n < 0 {
      ShowNegativeParses(-n);
    } else {
      ShowNatParses(n);
    }
  }

  lemma ShowNegativeParses(m: nat)
    requires m > 0
    ensures var s := ShowInt(-(m as int)); !IsSpace(s[0]) && !IsSpace(s[|s| - 1])
    ensures ParseTrimmed(ShowInt(-(m as int))) == Some(-(m as int))
  {
    var d := ShowNat(m);
    ShowNatValue(m);
    ShowNatParses(m);
    NegativeParses(d);
    assert ShowInt(-(m as int)) == "-" + d;
  }

  /** A minus sign before a digit group negates its value; the text neither starts nor ends with whitespace. */
  lemma NegativeParses(d: string)
    requires IsDigitGroup(d)
    ensures var t := "-" + d; !IsSpace(t[0]) && !IsSpace(t[|t| - 1])
    ensures ParseTrimmed("-" + d) == Some(-(DigitsValue(d) as int))
  {
    var t := "-" + d;
    assert t[1..] == d && t[|t| - 1] == d[|d| - 1];
  }

  /** `int(str(n)) == n`: the parser reads back every number the formatter writes. */
  lemma ParseShowRoundTrip(n: int)
    ensures ParseInt(ShowInt(n)) == Some(n)
  {
    ShowIntParses(n);
    StripKeepsTrimmed(ShowInt(n));
  }

  /** Whitespace around the text never changes what `int()` makes of it. */
  lemma ParseIgnoresPadding(a: string, m: string, b: string)
    requires AllSpace(a) && AllSpace(b)
    ensures ParseInt(a + m + b) == ParseInt(m)
  {
    StripIgnoresPadding(a, m, b);
  }

  /** A fraction is not an integer. */
  lemma RejectsFraction()
    ensures ParseInt("7.5") == None
  {
    var t := "7.5";
    assert ParseTrimmed(t) == None by {
      assert !IsDigit(t[1]) && t[1] != '_';
      assert !IsDigitGroup(t);
    }
    StripKeepsTrimmed(t);
  }

  /** Underscores may only separate single digits. */
  lemma RejectsDoubledUnderscore()
    ensures ParseInt("1__0") == None
  {
    var t := "1__0";
    assert ParseTrimmed(t) == None by {
      assert t[1] == '_' && !IsDigit(t[2]);
      assert !IsDigitGroup(t);
    }
    StripKeepsTrimmed(t);
  }

  /** Blank text, or a sign with no digits, is not an integer. */
  lemma RejectsMissingDigits()
    ensures ParseInt("") == None
    ensures ParseInt("-") == None && ParseInt("+") == None
  {
    StripKeepsTrimmed("");
    SignAloneIsRejected('-');
    SignAloneIsRejected('+');
  }

  lemma SignAloneIsRejected(c: char)
    requires c == '-' || c == '+'
    ensures ParseInt([c]) == None
  {
    StripKeepsTrimmed([c]);
    assert [c][1..] == [];
  }
}
