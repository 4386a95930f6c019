/**
 * The values shared by both diff parsers (src/services/git.rs and src/git/mod.rs):
 * one line of a pane, its kind, the pair of panes, and the small string
 * helpers the parsers use (splitting on "\n", splitting off the first char,
 * recognising a hunk header).
 */
module DiffLines {
  import opened Wrappers

  datatype DiffKind = Addition | Removal | Neutral | Blank

  /** One row of a pane; `lineNumber` is `None` only for filler rows. */
  datatype DiffLine = DiffLine(content: string, kind: DiffKind, lineNumber: Option<nat>)

  /**
   * The two panes. `oldDiff` is the left (removed/original) pane and
   * `currentDiff` the right (added/new) one; src/git/mod.rs calls them
   * `diff_one` and `diff_two`.
   */
  datatype Diff = Diff(oldDiff: seq<DiffLine>, currentDiff: seq<DiffLine>)

  /** The filler row pushed to keep the panes aligned. */
  const BlankLine := DiffLine("", Blank, None)

  /** The marker shown in front of a row of the given kind. */
  function Value(kind: DiffKind): (r: string)
    ensures |r| == 1
    ensures r == "+" <==> kind == Addition
    ensures r == "-" <==> kind == Removal
    ensures r == " " <==> kind in {Neutral, Blank}
  {
    match kind
    case Addition => "+"
    case Removal => "-"
    case Neutral => " "
    case Blank => " "
  }

  /**
   * Splits a line into its first character and the rest; an empty line
   * gets the neutral marker ' ' and empty content.
   */
  function RemoveFirstChar(line: string): (r: (char, string))
    ensures line == [] ==> r == (' ', [])
    ensures line != [] ==> [r.0] + r.1 == line
  {
    if line == [] then (' ', []) else (line[0], line[1..])
  }

  /** `str::split("\n")`: the pieces between newlines, never an empty list. */
  function SplitLines(text: string): (r: seq<string>)
    ensures |r| >= 1
    ensures forall i :: 0 <= i < |r| ==> '\n' !in r[i]
    ensures JoinLines(r) == text
    decreases |text|
  {
    if text == [] then [""]
    else if text[0] == '\n' then [""] + SplitLines(text[1..])
    else
      var rest := SplitLines(text[1..]);
      [[text[0]] + rest[0]] + rest[1..]
  }

  /** The pieces glued back together with "\n" in between. */
  function JoinLines(lines: seq<string>): string
    requires |lines| >= 1
    decreases |lines|
  {
    if |lines| == 1 then lines[0] else lines[0] + "\n" + JoinLines(lines[1..])
  }

  /** A piece without newlines glued in front of a text extends the text's first piece. */
  lemma {:induction false} SplitLinesPrefix(piece: string, text: string)
    requires '\n' !in piece
    ensures SplitLines(piece + text) == [piece + SplitLines(text)[0]] + SplitLines(text)[1..]
    decreases |piece|
  {
    var split := SplitLines(text);
    if piece == [] {
      assert piece + text == text;
      assert piece + split[0] == split[0];
      assert split == [split[0]] + split[1..];
    } else {
      assert (piece + text)[0] == piece[0] && piece[0] != '\n';
      assert (piece + text)[1..] == piece[1..] + text;
      SplitLinesPrefix(piece[1..], text);
      assert [piece[0]] + (piece[1..] + split[0]) == piece + split[0];
    }
  }

  /** Splitting undoes joining, for pieces that hold no newline. */
  lemma {:induction false} SplitJoin(lines: seq<string>)
    requires |lines| >= 1
    requires forall i :: 0 <= i < |lines| ==> '\n' !in lines[i]
    ensures SplitLines(JoinLines(lines)) == lines
    decreases |lines|
  {
    if |lines| == 1 {
      SplitLinesPrefix(lines[0], "");
      assert lines[0] + "" == lines[0];
    } else {
      var tail := JoinLines(lines[1..]);
      SplitJoin(lines[1..]);
      assert lines[0] + "\n" + tail == lines[0] + ("\n" + tail);
      SplitLinesPrefix(lines[0], "\n" + tail);
      assert ("\n" + tail)[0] == '\n' && ("\n" + tail)[1..] == tail;
      assert SplitLines("\n" + tail) == [""] + lines[1..];
      assert lines[0] + "" == lines[0];
      assert lines == [lines[0]] + lines[1..];
    }
  }

  /** A trailing newline adds one empty last piece. */
  lemma {:induction false} SplitLinesTrailingNewline(text: string)
    ensures SplitLines(text + "\n") == SplitLines(text) + [""]
    decreases |text|
  {
    if text != [] {
      assert (text + "\n")[1..] == text[1..] + "\n";
      SplitLinesTrailingNewline(text[1..]);
    }
  }

  /** A hunk header both starts and ends with "@@" ("@@" alone counts). */
  predicate IsHunkHeader(line: string)
    ensures IsHunkHeader(line) <==>
      |line| >= 2 && line[0] == line[1] == line[|line| - 2] == line[|line| - 1] == '@'
  {
    |line| >= 2 && line[..2] == "@@" && line[|line| - 2..] == "@@"
  }

  /** `n` filler rows. */
  function Blanks(n: nat): (r: seq<DiffLine>)
    ensures |r| == n
    ensures forall i :: 0 <= i < n ==> r[i] == BlankLine
  {
    if n == 0 then [] else Blanks(n - 1) + [BlankLine]
  }

  /** The rows of a pane that are not filler, in order. */
  function NonBlanks(pane: seq<DiffLine>): (r: seq<DiffLine>)
    ensures |r| <= |pane|
    ensures forall i :: 0 <= i < |r| ==> r[i].kind != Blank
  {
    if pane == [] then []
    else
      var last := pane[|pane| - 1];
      NonBlanks(pane[..|pane| - 1]) + (if last.kind == Blank then [] else [last])
  }

  lemma {:induction false} NonBlanksAppend(a: seq<DiffLine>, b: seq<DiffLine>)
    ensures NonBlanks(a + b) == NonBlanks(a) + NonBlanks(b)
    decreases |b|
  {
    if b == [] {
      assert a + b == a;
    } else {
      assert (a + b)[..|a + b| - 1] == a + b[..|b| - 1];
      NonBlanksAppend(a, b[..|b| - 1]);
    }
  }

  lemma {:induction false} NonBlanksOfBlanks(n: nat)
    ensures NonBlanks(Blanks(n)) == []
  {
    if n > 0 {
      assert Blanks(n)[..n - 1] == Blanks(n - 1);
      NonBlanksOfBlanks(n - 1);
    }
  }

  /** Every filler row of a pane is exactly the empty, unnumbered `Blank` row. */
  ghost predicate BlanksAreFiller(pane: seq<DiffLine>) {
    forall i :: 0 <= i < |pane| && pane[i].kind == Blank ==> pane[i] == BlankLine
  }

  /** The line number of a row, 0 for an unnumbered one. */
  function NumberOrZero(line: DiffLine): nat {
    match line.lineNumber
    case Some(n) => n
    case None => 0
  }

  /**
   * The largest line number in a pane, 0 when no row is numbered
   * (free `largest_line_number` of src/git/mod.rs).
   */
  function LargestLineNumber(pane: seq<DiffLine>): (r: nat)
    ensures forall i :: 0 <= i < |pane| ==> NumberOrZero(pane[i]) <= r
    ensures r == 0 || exists i :: 0 <= i < |pane| && pane[i].lineNumber == Some(r)
  {
    if pane == [] then 0
    else
      var init := pane[..|pane| - 1];
      var prev := LargestLineNumber(init);
      var last := NumberOrZero(pane[|pane| - 1]);
      assert forall i :: 0 <= i < |init| ==> init[i] == pane[i];
      if prev >= last then prev else last
  }

  function Pow10(n: nat): nat {
    if n == 0 then 1 else 10 * Pow10(n - 1)
  }

  /** The length of `n.to_string()`: the number of decimal digits of `n`. */
  function DigitCount(n: nat): (r: nat)
    ensures r >= 1
    ensures n < Pow10(r)
    ensures r > 1 ==> Pow10(r - 1) <= n
  {
    if n < 10 then 1 else 1 + DigitCount(n / 10)
  }

  /**
   * The column width of a line number: its digit count, capped at the
   * largest 16-bit unsigned value.
   */
  function NumberWidth(n: nat): (r: nat)
    ensures 1 <= r <= 65535
    ensures r < 65535 ==> n < Pow10(r)
    ensures r > 1 ==> Pow10(r - 1) <= n
  {
    var digits := DigitCount(n);
    assert digits > 65535 ==> Pow10(65534) <= n by {
      if digits > 65535 {
        Pow10Monotone(65534, digits - 1);
      }
    }
    Min(digits, 65535)
  }

  lemma {:induction false} Pow10Monotone(a: nat, b: nat)
    requires a <= b
    ensures Pow10(a) <= Pow10(b)
  {
    if a < b {
      Pow10Monotone(a, b - 1);
    }
  }
}
