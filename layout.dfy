/**
 * The text layout of the poster: `wrap_text`, a greedy character-by-character
 * line breaker driven by the font's measured width, and the shift of the
 * unsign and warning texts when the unsign text runs past three lines. The
 * font metric is a function passed in.
 */
module Layout {

  /** `draw.textbbox((0, 0), s, font)` width (right minus left). */
  type Measure = string -> int

  const TextWrapWidth: int := 1000

  /** The lines closed so far and the line being built. */
  datatype WrapState = WrapState(lines: seq<string>, current: string)

  /** One turn of the loop: the character joins the current line if the result fits, else it opens a new line. */
  function Next(st: WrapState, c: char, width: Measure, maxWidth: int): WrapState {
    var testLine := st.current + [c];
    if width(testLine) <= maxWidth then WrapState(st.lines, testLine)
    else WrapState(st.lines + [st.current], [c])
  }

  /** The loop state after the first `n` characters of `text` have been consumed. */
  function WrapSteps(text: string, n: nat, width: Measure, maxWidth: int): WrapState
    requires n <= |text|
  {
    if n == 0 then WrapState([], "")
    else Next(WrapSteps(text, n - 1, width, maxWidth), text[n - 1], width, maxWidth)
  }

  /** `wrap_text`'s result: the closed lines plus the last one when it is not empty. */
  function Wrap(text: string, width: Measure, maxWidth: int): seq<string> {
    var st := WrapSteps(text, |text|, width, maxWidth);
    if st.current != "" then st.lines + [st.current] else st.lines
  }

  /** The lines of `wrap_text` (whose metric never raises here). */
  method WrapText(text: string, width: Measure, maxWidth: int) returns (lines: seq<string>)
    ensures lines == Wrap(text, width, maxWidth)
  {
    lines := [];
    var currentLine := "";
    var i := 0;
    while i < |text|
      invariant 0 <= i <= |text|
      invariant WrapSteps(text, i, width, maxWidth) == WrapState(lines, currentLine)
    {
      var ch := text[i];
      var testLine := currentLine + [ch];
      if width(testLine) <= maxWidth {
        currentLine := testLine;
      } else {
        lines := lines + [currentLine];
        currentLine := [ch];
      }
      i := i + 1;
    }
    if currentLine != "" {
      lines := lines + [currentLine];
    }
  }

  /** `"".join(lines)` */
  function Concat(lines: seq<string>): string {
    if lines == [] then "" else Concat(lines[..|lines| - 1]) + lines[|lines| - 1]
  }

  lemma ConcatAppend(lines: seq<string>, s: string)
    ensures Concat(lines + [s]) == Concat(lines) + s
  {
    assert (lines + [s])[..|lines|] == lines;
  }

  /** What the state spells: the closed lines, then the current one. */
  function Spelled(st: WrapState): string {
    Concat(st.lines) + st.current
  }

  /** A turn of the loop adds exactly the character read to what the state spells. */
  lemma NextSpells(st: WrapState, c: char, width: Measure, maxWidth: int)
    ensures Spelled(Next(st, c, width, maxWidth)) == Spelled(st) + [c]
    ensures Next(st, c, width, maxWidth).current != ""
  {
    if width(st.current + [c]) > maxWidth {
      ConcatAppend(st.lines, st.current);
    }
  }

  /** The loop loses and invents nothing: the closed lines and the current one spell what was read. */
  lemma {:induction false} StepsSpellText(text: string, n: nat, width: Measure, maxWidth: int)
    requires n <= |text|
    ensures Spelled(WrapSteps(text, n, width, maxWidth)) == text[..n]
  {
    if n > 0 {
      var st := WrapSteps(text, n - 1, width, maxWidth);
      assert WrapSteps(text, n, width, maxWidth) == Next(st, text[n - 1], width, maxWidth);
      StepsSpellText(text, n - 1, width, maxWidth);
      NextSpells(st, text[n - 1], width, maxWidth);
      assert text[..n] == text[..n - 1] + [text[n - 1]];
    }
  }

  /** The current line is empty only before the first character. */
  lemma StepsCurrentEmpty(text: string, n: nat, width: Measure, maxWidth: int)
    requires n <= |text|
    ensures WrapSteps(text, n, width, maxWidth).current == "" <==> n == 0
  {
    if n > 0 {
      NextSpells(WrapSteps(text, n - 1, width, maxWidth), text[n - 1], width, maxWidth);
    }
  }

  /** Joining the lines gives back the text. */
  lemma WrapRoundTrip(text: string, width: Measure, maxWidth: int)
    ensures Concat(Wrap(text, width, maxWidth)) == text
  {
    StepsSpellText(text, |text|, width, maxWidth);
    var st := WrapSteps(text, |text|, width, maxWidth);
    assert text[..|text|] == text;
    if st.current != "" {
      ConcatAppend(st.lines, st.current);
    }
  }

  /** Empty text wraps to no line at all, and any other text to at least one. */
  lemma WrapEmpty(text: string, width: Measure, maxWidth: int)
    ensures Wrap(text, width, maxWidth) == [] <==> text == ""
  {
    StepsCurrentEmpty(text, |text|, width, maxWidth);
  }

  /**
   * The shape of every line: it fits, or it is a single character too wide
   * on its own, or it is the empty first line left when the very first
   * character does not fit.
   */
  predicate LineShape(lines: seq<string>, width: Measure, maxWidth: int) {
    forall k :: 0 <= k < |lines| ==> Shaped(lines[k], k, width, maxWidth)
  }

  predicate Shaped(line: string, k: nat, width: Measure, maxWidth: int) {
    width(line) <= maxWidth || |line| == 1 || (k == 0 && line == "")
  }

  /** Greedy: a line is closed only because the next line's first character would not fit on it. */
  ghost predicate Greedy(lines: seq<string>, width: Measure, maxWidth: int) {
    forall i, j :: 0 <= i < j < |lines| && j == i + 1 ==> BrokenBefore(lines[i], lines[j], width, maxWidth)
  }

  /** `next` starts a new line because its first character did not fit after `prev`. */
  predicate BrokenBefore(prev: string, next: string, width: Measure, maxWidth: int) {
    next != "" && width(prev + [next[0]]) > maxWidth
  }

  /** What the loop keeps true of its state, with the current line counted as the last one. */
  ghost predicate StateShape(st: WrapState, width: Measure, maxWidth: int) {
    && LineShape(st.lines + [st.current], width, maxWidth)
    && Greedy(st.lines + [st.current], width, maxWidth)
    && (st.lines != [] ==> st.current != "")
  }

  /** A turn of the loop keeps the shape of the state. */
  lemma NextKeepsShape(st: WrapState, c: char, width: Measure, maxWidth: int)
    requires StateShape(st, width, maxWidth)
    requires st.current == "" ==> st.lines == []
    ensures StateShape(Next(st, c, width, maxWidth), width, maxWidth)
  {
    var all := st.lines + [st.current];
    var nx := Next(st, c, width, maxWidth);
    var next := nx.lines + [nx.current];
    if width(st.current + [c]) <= maxWidth {
      assert next == st.lines + [st.current + [c]];
      forall k | 0 <= k < |next|
        ensures Shaped(next[k], k, width, maxWidth)
      {
        if k < |st.lines| {
          assert next[k] == all[k];
        }
      }
      forall i, j | 0 <= i < j < |next| && j == i + 1
        ensures BrokenBefore(next[i], next[j], width, maxWidth)
      {
        assert next[i] == all[i];
        if j < |st.lines| {
          assert next[j] == all[j];
        } else {
          assert next[j][0] == all[j][0];
        }
      }
    } else {
      assert next == all + [[c]];
      forall k | 0 <= k < |next|
        ensures Shaped(next[k], k, width, maxWidth)
      {
        if k < |all| {
          assert next[k] == all[k];
        }
      }
      forall i, j | 0 <= i < j < |next| && j == i + 1
        ensures BrokenBefore(next[i], next[j], width, maxWidth)
      {
        assert next[i] == all[i];
        if j < |all| {
          assert next[j] == all[j];
        }
      }
    }
  }

  lemma {:induction false} StepsKeepShape(text: string, n: nat, width: Measure, maxWidth: int)
    requires n <= |text|
    ensures StateShape(WrapSteps(text, n, width, maxWidth), width, maxWidth)
  {
    if n == 0 {
      assert WrapSteps(text, n, width, maxWidth).lines + [""] == [""];
    } else {
      StepsKeepShape(text, n - 1, width, maxWidth);
      StepsCurrentEmpty(text, n - 1, width, maxWidth);
      NextKeepsShape(WrapSteps(text, n - 1, width, maxWidth), text[n - 1], width, maxWidth);
    }
  }

  /** Every line of the result has the shape above, and the breaks are greedy. */
  lemma WrapShape(text: string, width: Measure, maxWidth: int)
    ensures LineShape(Wrap(text, width, maxWidth), width, maxWidth)
    ensures Greedy(Wrap(text, width, maxWidth), width, maxWidth)
  {
    StepsKeepShape(text, |text|, width, maxWidth);
  }

  /** Text whose every prefix fits stays on a single line. */
  lemma FittingTextIsOneLine(text: string, width: Measure, maxWidth: int)
    requires text != []
    requires forall j :: 1 <= j <= |text| ==> width(text[..j]) <= maxWidth
    ensures Wrap(text, width, maxWidth) == [text]
  {
    FittingPrefix(text, width, maxWidth, |text|);
    assert text[..|text|] == text;
  }

  lemma {:induction false} FittingPrefix(text: string, width: Measure, maxWidth: int, n: nat)
    requires n <= |text|
    requires forall j :: 1 <= j <= |text| ==> width(text[..j]) <= maxWidth
    ensures WrapSteps(text, n, width, maxWidth) == WrapState([], text[..n])
  {
    if n > 0 {
      FittingPrefix(text, width, maxWidth, n - 1);
      assert text[..n - 1] + [text[n - 1]] == text[..n];
      assert width(text[..n]) <= maxWidth;
    }
  }

  // ---------------------------------------------------------------- offsets

  const UnsignTextY: int := 1700
  const WarningTextY: int := 1850
  const WarningTextYOffset: int := 10
  const UnsignTextYOffset: int := 15

  /** The two y positions after the overflow adjustment. */
  datatype TextRows = TextRows(unsignY: int, warningY: int)

  /** The number of unsign lines past the third. */
  function Overflow(n: nat): nat {
    if n > 3 then n - 3 else 0
  }

  /** Where the two texts end up for `n` unsign lines, as one closed formula. */
  function Shifted(unsignY: int, warningY: int, n: nat): TextRows {
    TextRows(unsignY - Overflow(n) * UnsignTextYOffset, warningY + Overflow(n) * WarningTextYOffset)
  }

  /**
   * The adjustment applied to the two locals: for every unsign line past the
   * third, the warning moves 10 down and the unsign text 15 up.
   */
  method AdjustForOverflow(unsignY: int, warningY: int, unsignLines: nat) returns (rows: TextRows)
    ensures rows == Shifted(unsignY, warningY, unsignLines)
    ensures unsignLines <= 3 ==> rows == TextRows(unsignY, warningY)
    ensures unsignLines > 3 ==>
      && rows.warningY == warningY + (unsignLines - 3) * WarningTextYOffset
      && rows.unsignY == unsignY - (unsignLines - 3) * UnsignTextYOffset
  {
    var warningTextY := warningY;
    var unsignTextY := unsignY;
    if unsignLines > 3 {
      warningTextY := warningTextY + (unsignLines - 3) * WarningTextYOffset;
      unsignTextY := unsignTextY - (unsignLines - 3) * UnsignTextYOffset;
    }
    return TextRows(unsignTextY, warningTextY);
  }

  /**
   * Every extra line opens the gap between the two texts by 25, and more
   * lines never move the warning up or the unsign text down.
   */
  lemma ShiftedGap(unsignY: int, warningY: int, n: nat, m: nat)
    requires n <= m
    ensures Shifted(unsignY, warningY, n).warningY - Shifted(unsignY, warningY, n).unsignY
         == warningY - unsignY + Overflow(n) * (WarningTextYOffset + UnsignTextYOffset)
    ensures Shifted(unsignY, warningY, n).warningY <= Shifted(unsignY, warningY, m).warningY
    ensures Shifted(unsignY, warningY, m).unsignY <= Shifted(unsignY, warningY, n).unsignY
  {
  }
}
