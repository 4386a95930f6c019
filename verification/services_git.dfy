/**
 * The pane measurements of src/services/git.rs: the last row a cursor can
 * jump to, and the width of the line-number column.
 *
 * `largest_line_number` there reads the left pane for both of its results,
 * so the width it gives ignores the right pane. The model keeps that
 * definition as `LargestLineNumbersAsWritten`, shows an input where it
 * matters, and otherwise uses the corrected `LargestLineNumbers`.
 */
module ServicesGit {
  import opened Wrappers
  import opened DiffLines
  import opened DiffParser
  import GitMod

  /**
   * The index of the last row of the longer pane. One is subtracted from an
   * unsigned length, so at least one pane must have a row.
   */
  function LongestDiffLen(d: Diff): (r: nat)
    requires |d.oldDiff| > 0 || |d.currentDiff| > 0
    ensures r < |d.oldDiff| || r < |d.currentDiff|
    ensures |d.oldDiff| <= r + 1 && |d.currentDiff| <= r + 1
  {
    Max(|d.oldDiff|, |d.currentDiff|) - 1
  }

  /** For a parsed diff the last row is a valid row of both panes, and the last of each. */
  lemma ParsedLastRow(lines: seq<string>)
    requires |ParseLines(lines).oldDiff| > 0
    ensures var d := ParseLines(lines);
      LongestDiffLen(d) == |d.oldDiff| - 1 == |d.currentDiff| - 1
  {
    ParseLinesCorrect(lines);
  }

  /** `largest_line_number` as written: both results come from the left pane. */
  function LargestLineNumbersAsWritten(d: Diff): (r: (nat, nat))
    ensures r.0 == r.1 == LargestLineNumber(d.oldDiff)
    ensures forall i :: 0 <= i < |d.oldDiff| ==> NumberOrZero(d.oldDiff[i]) <= r.1
  {
    (LargestLineNumber(d.oldDiff), LargestLineNumber(d.oldDiff))
  }

  /** The pair as written does not depend on the right pane at all. */
  lemma AsWrittenIgnoresRight(d: Diff, right: seq<DiffLine>)
    ensures LargestLineNumbersAsWritten(Diff(d.oldDiff, right)) == LargestLineNumbersAsWritten(d)
  {
  }

  /** `largest_line_number` as intended: the largest line number of each pane. */
  function LargestLineNumbers(d: Diff): (r: (nat, nat))
    ensures forall i :: 0 <= i < |d.oldDiff| ==> NumberOrZero(d.oldDiff[i]) <= r.0
    ensures forall i :: 0 <= i < |d.currentDiff| ==> NumberOrZero(d.currentDiff[i]) <= r.1
    ensures r.0 == 0 || exists i :: 0 <= i < |d.oldDiff| && d.oldDiff[i].lineNumber == Some(r.0)
    ensures r.1 == 0 || exists i :: 0 <= i < |d.currentDiff| && d.currentDiff[i].lineNumber == Some(r.1)
  {
    (LargestLineNumber(d.oldDiff), LargestLineNumber(d.currentDiff))
  }

  /** The line-number column width, from the pair as written. */
  function LargestLineNumberCharLenAsWritten(d: Diff): (r: nat)
    ensures r == NumberWidth(LargestLineNumber(d.oldDiff))
  {
    var (left, right) := LargestLineNumbersAsWritten(d);
    NumberWidth(Max(left, right))
  }

  /** The line-number column width, from the corrected pair: the same width `get_diff`'s diff uses. */
  function LargestLineNumberCharLen(d: Diff): (r: nat)
    ensures r == GitMod.LargestLineNumberLen(d)
    ensures 1 <= r <= 65535
  {
    var (left, right) := LargestLineNumbers(d);
    NumberWidth(Max(left, right))
  }

  /** No row of a filler run is numbered. */
  lemma LargestOfBlanks(n: nat)
    ensures LargestLineNumber(Blanks(n)) == 0
  {
  }

  /** A run of rows numbered from 1 has its length as its largest number. */
  lemma LargestOfNumberedRun(lines: seq<string>, kind: DiffKind)
    ensures LargestLineNumber(MarkedRows(lines, kind, 1)) == |lines|
  {
    var rows := MarkedRows(lines, kind, 1);
    var r := LargestLineNumber(rows);
    if lines != [] {
      assert NumberOrZero(rows[|lines| - 1]) == |lines|;
      if r != 0 {
        var i :| 0 <= i < |rows| && rows[i].lineNumber == Some(r);
        assert r == i + 1;
      }
    }
  }

  /** The scanner after a header and a run of additions. */
  lemma AdditionsOnlyRun(added: seq<string>)
    requires AllMarked(added, '+')
    ensures var after := Run(Init, ["@@"] + added);
      && after.oldDiff == [] && after.currentDiff == MarkedRows(added, Addition, 1)
      && after.additions == |added| && after.removals == 0
  {
    var started := Init.(started := true);
    var rows := MarkedRows(added, Addition, 1);
    HeaderFirst("@@", added);
    assert Run(started, added) == started.(currentDiff := rows, currentLine := 1 + |added|,
                                           additions := |added|) by {
      AdditionRun(started, added);
      assert [] + rows == rows;
    }
  }

  /** A hunk of additions only: the left pane is all filler, the right pane numbered 1, 2, .... */
  lemma AdditionsOnlyHunk(added: seq<string>)
    requires AllMarked(added, '+')
    ensures ParseLines(["@@"] + added) == Diff(Blanks(|added|), MarkedRows(added, Addition, 1))
  {
    var after := Run(Init, ["@@"] + added);
    AdditionsOnlyRun(added);
    assert ParseLines(["@@"] + added) == Flush(after);
    assert Blanks(0) == [];
    assert MarkedRows(added, Addition, 1) + Blanks(0) == MarkedRows(added, Addition, 1);
    assert [] + Blanks(|added|) == Blanks(|added|);
  }

  /**
   * With only additions the left pane has no numbered row, so the width as
   * written is always 1, while the right pane needs the digits of its
   * number of rows.
   */
  lemma AdditionsOnlyWidth(added: seq<string>)
    requires AllMarked(added, '+')
    ensures LargestLineNumberCharLenAsWritten(ParseLines(["@@"] + added)) == 1
    ensures LargestLineNumberCharLen(ParseLines(["@@"] + added)) == NumberWidth(|added|)
  {
    AdditionsOnlyHunk(added);
    LargestOfBlanks(|added|);
    LargestOfNumberedRun(added, Addition);
  }

  /** Ten added lines: the numbers run to 10, but the column is one digit wide. */
  lemma TenAdditionsTruncated()
    ensures var d := ParseLines(["@@"] + seq(10, _ => "+x"));
      LargestLineNumberCharLenAsWritten(d) == 1 && LargestLineNumberCharLen(d) == 2
  {
    var added := seq(10, _ => "+x");
    assert AllMarked(added, '+');
    AdditionsOnlyWidth(added);
    assert DigitCount(10) == 2;
  }
}
