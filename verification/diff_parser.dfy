/**
 * The diff parser: unified-diff text to two row-aligned panes
 * (`Diff::parse_diff` in src/services/git.rs and its twin `get_diff` in
 * src/git/mod.rs).
 *
 * The specification is a left fold of `Step` over the "\n"-separated lines
 * followed by a final `Flush` of the pending filler rows. The reference it is
 * proved against is independent of the counters: `Body` (the lines the parser
 * actually reads) and `Column` (the numbered rows each pane must show).
 */
module DiffParser {
  import opened Wrappers
  import opened DiffLines

  /** The loop variables of the parser. */
  datatype Scan = Scan(
    started: bool,
    additions: nat,
    removals: nat,
    oldLine: nat,
    currentLine: nat,
    oldDiff: seq<DiffLine>,
    currentDiff: seq<DiffLine>)

  const Init := Scan(false, 0, 0, 1, 1, [], [])

  /**
   * One iteration of the parser's loop. Rows are only ever appended, a
   * started scan stays started, nothing happens before the first header,
   * and the left length minus the right length changes exactly as
   * removals minus additions does.
   */
  function Step(s: Scan, line: string): (r: Scan)
    ensures s.oldDiff <= r.oldDiff && s.currentDiff <= r.currentDiff
    ensures s.started ==> r.started
    ensures !s.started && !IsHunkHeader(line) ==> r == s
    ensures (|r.oldDiff| - |r.currentDiff|) - (r.removals - r.additions)
      == (|s.oldDiff| - |s.currentDiff|) - (s.removals - s.additions)
  {
    if IsHunkHeader(line) then s.(started := true)
    else if !s.started then s
    else
      var (prefix, content) := RemoveFirstChar(line);
      match prefix
      case '+' =>
        s.(currentDiff := s.currentDiff + [DiffLine(content, Addition, Some(s.currentLine))],
           currentLine := s.currentLine + 1,
           removals := if s.removals > 0 then s.removals - 1 else s.removals,
           additions := if s.removals > 0 then s.additions else s.additions + 1)
      case '-' =>
        s.(oldDiff := s.oldDiff + [DiffLine(content, Removal, Some(s.oldLine))],
           oldLine := s.oldLine + 1,
           removals := s.removals + 1)
      case _ =>
        s.(currentDiff := s.currentDiff + Blanks(s.removals) + [DiffLine(content, Neutral, Some(s.currentLine))],
           oldDiff := s.oldDiff + Blanks(s.additions) + [DiffLine(content, Neutral, Some(s.oldLine))],
           removals := 0,
           additions := 0,
           oldLine := s.oldLine + 1,
           currentLine := s.currentLine + 1)
  }

  /** The loop over all lines, from state `s`. */
  function Run(s: Scan, lines: seq<string>): Scan {
    if lines == [] then s else Step(Run(s, lines[..|lines| - 1]), lines[|lines| - 1])
  }

  /** After the loop: pending removals pad the right pane, pending additions the left. */
  function Flush(s: Scan): (r: Diff)
    ensures s.oldDiff <= r.oldDiff && s.currentDiff <= r.currentDiff
    ensures |r.oldDiff| - |r.currentDiff| == (|s.oldDiff| - |s.currentDiff|) - (s.removals - s.additions)
  {
    Diff(s.oldDiff + Blanks(s.additions), s.currentDiff + Blanks(s.removals))
  }

  function ParseLines(lines: seq<string>): Diff {
    Flush(Run(Init, lines))
  }

  /** What the parser returns for a whole diff text. */
  function ParseText(text: string): Diff {
    ParseLines(SplitLines(text))
  }

  // ---------------------------------------------------------------------
  // The reference: which lines are read, and which rows each pane must show.

  predicate HasHeader(lines: seq<string>) {
    exists i :: 0 <= i < |lines| && IsHunkHeader(lines[i])
  }

  /** The lines the parser reads: every non-header line after the first hunk header. */
  function Body(lines: seq<string>): seq<string> {
    if lines == [] then []
    else
      var init, last := lines[..|lines| - 1], lines[|lines| - 1];
      if IsHunkHeader(last) || !HasHeader(init) then Body(init) else Body(init) + [last]
  }

  function KindOf(prefix: char): DiffKind {
    if prefix == '+' then Addition else if prefix == '-' then Removal else Neutral
  }

  /**
   * The non-filler rows of one pane: every body line whose marker is not
   * `skip` ('+' for the left pane, '-' for the right), numbered 1, 2, 3, ...
   */
  function Column(body: seq<string>, skip: char): (r: seq<DiffLine>)
    requires skip in {'+', '-'}
    ensures forall k :: 0 <= k < |r| ==>
      r[k].lineNumber == Some(k + 1) && r[k].kind != Blank && r[k].kind != KindOf(skip)
  {
    if body == [] then []
    else
      var prev := Column(body[..|body| - 1], skip);
      var (prefix, content) := RemoveFirstChar(body[|body| - 1]);
      if prefix == skip then prev else prev + [DiffLine(content, KindOf(prefix), Some(|prev| + 1))]
  }

  /** What holds of the loop variables after reading `lines`. */
  ghost predicate Inv(lines: seq<string>, s: Scan) {
    && s.started == HasHeader(lines)
    && NonBlanks(s.oldDiff) == Column(Body(lines), '+')
    && NonBlanks(s.currentDiff) == Column(Body(lines), '-')
    && s.oldLine == |NonBlanks(s.oldDiff)| + 1
    && s.currentLine == |NonBlanks(s.currentDiff)| + 1
    && BlanksAreFiller(s.oldDiff)
    && BlanksAreFiller(s.currentDiff)
    && |s.oldDiff| - |s.currentDiff| == s.removals - s.additions
  }

  lemma HasHeaderSnoc(lines: seq<string>, line: string)
    ensures HasHeader(lines + [line]) <==> HasHeader(lines) || IsHunkHeader(line)
  {
    if HasHeader(lines) {
      var i :| 0 <= i < |lines| && IsHunkHeader(lines[i]);
      assert (lines + [line])[i] == lines[i];
    }
    if IsHunkHeader(line) {
      assert (lines + [line])[|lines|] == line;
    }
  }

  lemma NonBlanksSnoc(pane: seq<DiffLine>, row: DiffLine)
    requires row.kind != Blank
    ensures NonBlanks(pane + [row]) == NonBlanks(pane) + [row]
  {
    assert (pane + [row])[..|pane|] == pane;
  }

  lemma FillerAppend(a: seq<DiffLine>, b: seq<DiffLine>)
    requires BlanksAreFiller(a) && BlanksAreFiller(b)
    ensures BlanksAreFiller(a + b)
  {
    forall i | 0 <= i < |a + b| && (a + b)[i].kind == Blank
      ensures (a + b)[i] == BlankLine
    {
      if i >= |a| { assert (a + b)[i] == b[i - |a|]; }
    }
  }

  /** One step keeps the invariant, for a line that is read ('+' marker). */
  lemma StepAddition(lines: seq<string>, s: Scan, line: string)
    requires Inv(lines, s) && s.started && !IsHunkHeader(line)
    requires RemoveFirstChar(line).0 == '+'
    ensures Inv(lines + [line], Step(s, line))
  {
    var next := Step(s, line);
    var content := RemoveFirstChar(line).1;
    var row := DiffLine(content, Addition, Some(s.currentLine));
    var all := lines + [line];
    assert all[..|all| - 1] == lines;
    HasHeaderSnoc(lines, line);
    assert Body(all) == Body(lines) + [line];
    assert (Body(lines) + [line])[..|Body(lines)|] == Body(lines);
    NonBlanksSnoc(s.currentDiff, row);
    FillerAppend(s.currentDiff, [row]);
  }

  /** One step keeps the invariant, for a line that is read ('-' marker). */
  lemma StepRemoval(lines: seq<string>, s: Scan, line: string)
    requires Inv(lines, s) && s.started && !IsHunkHeader(line)
    requires RemoveFirstChar(line).0 == '-'
    ensures Inv(lines + [line], Step(s, line))
  {
    var content := RemoveFirstChar(line).1;
    var row := DiffLine(content, Removal, Some(s.oldLine));
    var all := lines + [line];
    assert all[..|all| - 1] == lines;
    HasHeaderSnoc(lines, line);
    assert Body(all) == Body(lines) + [line];
    assert (Body(lines) + [line])[..|Body(lines)|] == Body(lines);
    NonBlanksSnoc(s.oldDiff, row);
    FillerAppend(s.oldDiff, [row]);
  }

  /** Padding a pane and then pushing a numbered row adds just that row to its non-filler rows. */
  lemma PadThenPush(pane: seq<DiffLine>, n: nat, row: DiffLine)
    requires BlanksAreFiller(pane) && row.kind != Blank
    ensures NonBlanks(pane + Blanks(n) + [row]) == NonBlanks(pane) + [row]
    ensures BlanksAreFiller(pane + Blanks(n) + [row])
  {
    NonBlanksAppend(pane, Blanks(n));
    NonBlanksOfBlanks(n);
    NonBlanksSnoc(pane + Blanks(n), row);
    FillerAppend(pane, Blanks(n));
    FillerAppend(pane + Blanks(n), [row]);
  }

  /** The state after a context line that is read. */
  lemma StepContextState(s: Scan, line: string)
    requires s.started && !IsHunkHeader(line)
    requires RemoveFirstChar(line).0 !in {'+', '-'}
    ensures var content := RemoveFirstChar(line).1;
      Step(s, line) == s.(
        currentDiff := s.currentDiff + Blanks(s.removals) + [DiffLine(content, Neutral, Some(s.currentLine))],
        oldDiff := s.oldDiff + Blanks(s.additions) + [DiffLine(content, Neutral, Some(s.oldLine))],
        removals := 0,
        additions := 0,
        oldLine := s.oldLine + 1,
        currentLine := s.currentLine + 1)
  {
  }

  /** One step keeps the invariant, for a context line that is read. */
  lemma StepContext(lines: seq<string>, s: Scan, line: string)
    requires Inv(lines, s) && s.started && !IsHunkHeader(line)
    requires RemoveFirstChar(line).0 !in {'+', '-'}
    ensures Inv(lines + [line], Step(s, line))
  {
    var (prefix, content) := RemoveFirstChar(line);
    var oldRow := DiffLine(content, Neutral, Some(s.oldLine));
    var currentRow := DiffLine(content, Neutral, Some(s.currentLine));
    StepContextState(s, line);
    var next := Step(s, line);
    var all := lines + [line];
    var body := Body(lines);
    assert Body(all) == body + [line] by {
      assert all[..|all| - 1] == lines;
      HasHeaderSnoc(lines, line);
    }
    assert Column(Body(all), '+') == Column(body, '+') + [oldRow] by {
      assert (body + [line])[..|body|] == body;
      assert KindOf(prefix) == Neutral;
    }
    assert Column(Body(all), '-') == Column(body, '-') + [currentRow] by {
      assert (body + [line])[..|body|] == body;
      assert KindOf(prefix) == Neutral;
    }
    PadThenPush(s.oldDiff, s.additions, oldRow);
    PadThenPush(s.currentDiff, s.removals, currentRow);
    HasHeaderSnoc(lines, line);
  }

  /** One step keeps the invariant, for any line. */
  lemma StepKeepsInv(lines: seq<string>, s: Scan, line: string)
    requires Inv(lines, s)
    ensures Inv(lines + [line], Step(s, line))
  {
    var all := lines + [line];
    assert all[..|all| - 1] == lines;
    HasHeaderSnoc(lines, line);
    if IsHunkHeader(line) || !s.started {
      assert Body(all) == Body(lines);
    } else if RemoveFirstChar(line).0 == '+' {
      StepAddition(lines, s, line);
    } else if RemoveFirstChar(line).0 == '-' {
      StepRemoval(lines, s, line);
    } else {
      StepContext(lines, s, line);
    }
  }

  lemma {:induction false} RunKeepsInv(lines: seq<string>)
    ensures Inv(lines, Run(Init, lines))
  {
    if lines != [] {
      var init := lines[..|lines| - 1];
      RunKeepsInv(init);
      StepKeepsInv(init, Run(Init, init), lines[|lines| - 1]);
      assert init + [lines[|lines| - 1]] == lines;
    }
  }

  /**
   * The parser's result: both panes have the same number of rows; every
   * filler row is the empty unnumbered `Blank`; with the filler removed,
   * the left pane is exactly the removed and context lines of the body and
   * the right pane exactly the added and context lines, each numbered
   * 1, 2, 3, ... in order of appearance.
   */
  lemma {:induction false} ParseLinesCorrect(lines: seq<string>)
    ensures |ParseLines(lines).oldDiff| == |ParseLines(lines).currentDiff|
    ensures BlanksAreFiller(ParseLines(lines).oldDiff)
    ensures BlanksAreFiller(ParseLines(lines).currentDiff)
    ensures NonBlanks(ParseLines(lines).oldDiff) == Column(Body(lines), '+')
    ensures NonBlanks(ParseLines(lines).currentDiff) == Column(Body(lines), '-')
    ensures Aligned(ParseLines(lines).oldDiff, ParseLines(lines).currentDiff)
  {
    var s := Run(Init, lines);
    RunKeepsInv(lines);
    RunAligned(lines);
    AlignedGrow(s.oldDiff, s.currentDiff, Blanks(s.additions), Blanks(s.removals));
    NonBlanksAppend(s.oldDiff, Blanks(s.additions));
    NonBlanksOfBlanks(s.additions);
    NonBlanksAppend(s.currentDiff, Blanks(s.removals));
    NonBlanksOfBlanks(s.removals);
    FillerAppend(s.oldDiff, Blanks(s.additions));
    FillerAppend(s.currentDiff, Blanks(s.removals));
  }

  // ---------------------------------------------------------------------
  // Row alignment of the context lines.

  /**
   * Two panes are row-aligned: every context row of either pane sits at the
   * same index of the other pane, as a context row with the same content.
   */
  predicate Aligned(a: seq<DiffLine>, b: seq<DiffLine>) {
    && (forall i :: 0 <= i < |a| && a[i].kind == Neutral ==>
          i < |b| && b[i].kind == Neutral && b[i].content == a[i].content)
    && (forall i :: 0 <= i < |b| && b[i].kind == Neutral ==>
          i < |a| && a[i].kind == Neutral && a[i].content == b[i].content)
  }

  /** No row is a context row. */
  predicate NoContext(rows: seq<DiffLine>) {
    forall k :: 0 <= k < |rows| ==> rows[k].kind != Neutral
  }

  /** Rows other than context rows may be appended to either pane without breaking the alignment. */
  lemma AlignedGrow(a: seq<DiffLine>, b: seq<DiffLine>, x: seq<DiffLine>, y: seq<DiffLine>)
    requires Aligned(a, b) && NoContext(x) && NoContext(y)
    ensures Aligned(a + x, b + y)
  {
  }

  /** Two context rows with the same content pushed onto panes of equal length stay aligned. */
  lemma AlignedPushContext(a: seq<DiffLine>, b: seq<DiffLine>, content: string, na: Option<nat>, nb: Option<nat>)
    requires Aligned(a, b) && |a| == |b|
    ensures Aligned(a + [DiffLine(content, Neutral, na)], b + [DiffLine(content, Neutral, nb)])
  {
  }

  lemma NoContextInBlanks(n: nat)
    ensures NoContext(Blanks(n))
  {
  }

  /**
   * After any prefix of the input the context rows of the two panes are
   * aligned. A context line pads each pane with the other side's pending
   * count; since the left length minus the right length is removals minus
   * additions, both context rows land at the same index.
   */
  lemma {:induction false} RunAligned(lines: seq<string>)
    ensures Aligned(Run(Init, lines).oldDiff, Run(Init, lines).currentDiff)
  {
    if lines != [] {
      var init, line := lines[..|lines| - 1], lines[|lines| - 1];
      var s := Run(Init, init);
      RunAligned(init);
      RunKeepsInv(init);
      assert Run(Init, lines) == Step(s, line);
      if IsHunkHeader(line) || !s.started {
      } else {
        var (prefix, content) := RemoveFirstChar(line);
        Routing(s, line);
        if prefix == '+' {
          AlignedGrow(s.oldDiff, s.currentDiff, [], [DiffLine(content, Addition, Some(s.currentLine))]);
          assert s.oldDiff + [] == s.oldDiff;
        } else if prefix == '-' {
          AlignedGrow(s.oldDiff, s.currentDiff, [DiffLine(content, Removal, Some(s.oldLine))], []);
          assert s.currentDiff + [] == s.currentDiff;
        } else {
          NoContextInBlanks(s.additions);
          NoContextInBlanks(s.removals);
          AlignedGrow(s.oldDiff, s.currentDiff, Blanks(s.additions), Blanks(s.removals));
          AlignedPushContext(s.oldDiff + Blanks(s.additions), s.currentDiff + Blanks(s.removals),
                             content, Some(s.oldLine), Some(s.currentLine));
        }
      }
    }
  }

  // ---------------------------------------------------------------------
  // Hunk headers and the preamble.

  /** A header line emits no row and resets neither the counters nor the line numbers. */
  lemma HeaderEmitsNothing(s: Scan, line: string)
    requires IsHunkHeader(line)
    ensures Step(s, line) == s.(started := true)
  {
  }

  lemma {:induction false} RunAppend(s: Scan, a: seq<string>, b: seq<string>)
    ensures Run(s, a + b) == Run(Run(s, a), b)
    decreases |b|
  {
    if b == [] {
      assert a + b == a;
    } else {
      assert (a + b)[..|a + b| - 1] == a + b[..|b| - 1];
      RunAppend(s, a, b[..|b| - 1]);
    }
  }

  lemma {:induction false} RunWithoutHeader(lines: seq<string>)
    requires !HasHeader(lines)
    ensures Run(Init, lines) == Init
  {
    if lines != [] {
      var init := lines[..|lines| - 1];
      HasHeaderSnoc(init, lines[|lines| - 1]);
      assert init + [lines[|lines| - 1]] == lines;
      RunWithoutHeader(init);
    }
  }

  /** Text without any hunk header gives two empty panes. */
  lemma NoHeaderGivesEmptyDiff(lines: seq<string>)
    requires !HasHeader(lines)
    ensures ParseLines(lines) == Diff([], [])
  {
    RunWithoutHeader(lines);
  }

  /** Everything before the first hunk header is discarded. */
  lemma PreambleDiscarded(preamble: seq<string>, rest: seq<string>)
    requires !HasHeader(preamble)
    ensures ParseLines(preamble + rest) == ParseLines(rest)
  {
    RunAppend(Init, preamble, rest);
    RunWithoutHeader(preamble);
  }

  /** Empty input gives an empty diff. */
  lemma EmptyTextGivesEmptyDiff()
    ensures ParseText("") == Diff([], [])
  {
    assert SplitLines("") == [""];
    assert !IsHunkHeader("");
    NoHeaderGivesEmptyDiff([""]);
  }

  // ---------------------------------------------------------------------
  // Routing of one line that is read.

  /**
   * Once a header has been seen: a '+' line adds exactly one `Addition` to the
   * right pane only, a '-' line exactly one `Removal` to the left pane only,
   * and any other line (the empty line included, whose marker is ' ') first
   * pays the pending filler, pending removals on the right and pending
   * additions on the left, then adds one `Neutral` row with the same content
   * to each pane.
   */
  lemma Routing(s: Scan, line: string)
    requires s.started && !IsHunkHeader(line)
    ensures var next := Step(s, line);
      var (prefix, content) := RemoveFirstChar(line);
      && (prefix == '+' ==>
           next.oldDiff == s.oldDiff
           && next.currentDiff == s.currentDiff + [DiffLine(content, Addition, Some(s.currentLine))])
      && (prefix == '-' ==>
           next.currentDiff == s.currentDiff
           && next.oldDiff == s.oldDiff + [DiffLine(content, Removal, Some(s.oldLine))])
      && (prefix !in {'+', '-'} ==>
           next.oldDiff == s.oldDiff + Blanks(s.additions) + [DiffLine(content, Neutral, Some(s.oldLine))]
           && next.currentDiff == s.currentDiff + Blanks(s.removals) + [DiffLine(content, Neutral, Some(s.currentLine))]
           && next.additions == 0 && next.removals == 0)
      && (line == "" ==> prefix == ' ' && content == "")
  {
  }

  /** A diff that opens with a hunk header is read from the started state. */
  lemma HeaderFirst(header: string, rest: seq<string>)
    requires IsHunkHeader(header)
    ensures Run(Init, [header] + rest) == Run(Init.(started := true), rest)
  {
    assert Run(Init, [header]) == Init.(started := true) by {
      assert [header][..0] == [];
    }
    RunAppend(Init, [header], rest);
  }

  // ---------------------------------------------------------------------
  // A change block: a run of removals, then a run of additions, then context.

  /** Every line carries the given marker as its first character. */
  predicate AllMarked(lines: seq<string>, marker: char) {
    forall i :: 0 <= i < |lines| ==> lines[i] != [] && lines[i][0] == marker
  }

  /** The rows a run of marked lines produces on its own side, numbered from `first`. */
  function MarkedRows(lines: seq<string>, kind: DiffKind, first: nat): (r: seq<DiffLine>)
    ensures |r| == |lines|
    ensures forall i :: 0 <= i < |r| ==> r[i].kind == kind && r[i].lineNumber == Some(first + i)
  {
    if lines == [] then []
    else
      var init := lines[..|lines| - 1];
      MarkedRows(init, kind, first) + [DiffLine(RemoveFirstChar(lines[|lines| - 1]).1, kind, Some(first + |init|))]
  }

  lemma NotHeader(line: string)
    requires line != [] && line[0] != '@'
    ensures !IsHunkHeader(line)
  {
    if |line| >= 2 {
      assert line[..2][0] == line[0];
    }
  }

  /** One removal line, as a record update. */
  lemma RemovalStep(s: Scan, line: string)
    requires s.started && line != [] && line[0] == '-'
    ensures Step(s, line) == s.(
      oldDiff := s.oldDiff + [DiffLine(RemoveFirstChar(line).1, Removal, Some(s.oldLine))],
      oldLine := s.oldLine + 1,
      removals := s.removals + 1)
  {
    NotHeader(line);
  }

  /** One addition line, as a record update. */
  lemma AdditionStep(s: Scan, line: string)
    requires s.started && line != [] && line[0] == '+'
    ensures Step(s, line) == s.(
      currentDiff := s.currentDiff + [DiffLine(RemoveFirstChar(line).1, Addition, Some(s.currentLine))],
      currentLine := s.currentLine + 1,
      removals := if s.removals > 0 then s.removals - 1 else 0,
      additions := if s.removals > 0 then s.additions else s.additions + 1)
  {
    NotHeader(line);
  }

  /** A run of removals fills the left pane and raises the pending removals. */
  lemma {:induction false} RemovalRun(s: Scan, removed: seq<string>)
    requires s.started && AllMarked(removed, '-')
    ensures Run(s, removed) == s.(
      oldDiff := s.oldDiff + MarkedRows(removed, Removal, s.oldLine),
      oldLine := s.oldLine + |removed|,
      removals := s.removals + |removed|)
  {
    if removed != [] {
      var init, last := removed[..|removed| - 1], removed[|removed| - 1];
      assert AllMarked(init, '-');
      assert Run(s, removed) == Step(Run(s, init), last);
      RemovalRun(s, init);
      RemovalStep(Run(s, init), last);
    }
  }

  /** A run of additions fills the right pane, first cancelling pending removals. */
  lemma {:induction false} AdditionRun(s: Scan, added: seq<string>)
    requires s.started && AllMarked(added, '+')
    ensures Run(s, added) == s.(
      currentDiff := s.currentDiff + MarkedRows(added, Addition, s.currentLine),
      currentLine := s.currentLine + |added|,
      removals := if s.removals >= |added| then s.removals - |added| else 0,
      additions := if s.removals >= |added| then s.additions else s.additions + |added| - s.removals)
  {
    if added != [] {
      var init, last := added[..|added| - 1], added[|added| - 1];
      assert AllMarked(init, '+');
      assert Run(s, added) == Step(Run(s, init), last);
      AdditionRun(s, init);
      AdditionStep(Run(s, init), last);
    }
  }

  /** The scanner state once the removals and additions of a change block are read. */
  lemma BeforeContext(s: Scan, removed: seq<string>, added: seq<string>)
    requires s.started && s.additions == 0 && s.removals == 0
    requires AllMarked(removed, '-') && AllMarked(added, '+')
    ensures Run(s, removed + added) == s.(
      oldDiff := s.oldDiff + MarkedRows(removed, Removal, s.oldLine),
      oldLine := s.oldLine + |removed|,
      currentDiff := s.currentDiff + MarkedRows(added, Addition, s.currentLine),
      currentLine := s.currentLine + |added|,
      removals := if |removed| > |added| then |removed| - |added| else 0,
      additions := if |added| > |removed| then |added| - |removed| else 0)
  {
    RunAppend(s, removed, added);
    RemovalRun(s, removed);
    AdditionRun(Run(s, removed), added);
  }

  /** The fold after one more line, from any state. */
  lemma RunSnocFrom(s: Scan, lines: seq<string>, line: string)
    ensures Run(s, lines + [line]) == Step(Run(s, lines), line)
  {
    assert (lines + [line])[..|lines|] == lines;
  }

  /** A context line flushes the pending filler rows into both panes. */
  lemma ContextStep(before: Scan, context: string)
    requires before.started
    requires context == [] || context[0] !in {'+', '-', '@'}
    ensures var after := Step(before, context);
      var content := RemoveFirstChar(context).1;
      && after.oldDiff == before.oldDiff + Blanks(before.additions)
           + [DiffLine(content, Neutral, Some(before.oldLine))]
      && after.currentDiff == before.currentDiff + Blanks(before.removals)
           + [DiffLine(content, Neutral, Some(before.currentLine))]
      && after.additions == 0 && after.removals == 0
  {
    if context != [] {
      NotHeader(context);
    }
    StepContextState(before, context);
  }

  /** The left pane after a change block: removals, then filler for surplus additions. */
  lemma LeftAfterBlock(s: Scan, removed: seq<string>, added: seq<string>, context: string)
    requires s.started && s.additions == 0 && s.removals == 0
    requires AllMarked(removed, '-') && AllMarked(added, '+')
    requires context == [] || context[0] !in {'+', '-', '@'}
    ensures Run(s, removed + added + [context]).oldDiff
      == s.oldDiff + MarkedRows(removed, Removal, s.oldLine)
         + Blanks(if |added| > |removed| then |added| - |removed| else 0)
         + [DiffLine(RemoveFirstChar(context).1, Neutral, Some(s.oldLine + |removed|))]
  {
    RunSnocFrom(s, removed + added, context);
    BeforeContext(s, removed, added);
    ContextStep(Run(s, removed + added), context);
  }

  /** The right pane after a change block: additions, then filler for surplus removals. */
  lemma RightAfterBlock(s: Scan, removed: seq<string>, added: seq<string>, context: string)
    requires s.started && s.additions == 0 && s.removals == 0
    requires AllMarked(removed, '-') && AllMarked(added, '+')
    requires context == [] || context[0] !in {'+', '-', '@'}
    ensures Run(s, removed + added + [context]).currentDiff
      == s.currentDiff + MarkedRows(added, Addition, s.currentLine)
         + Blanks(if |removed| > |added| then |removed| - |added| else 0)
         + [DiffLine(RemoveFirstChar(context).1, Neutral, Some(s.currentLine + |added|))]
  {
    RunSnocFrom(s, removed + added, context);
    BeforeContext(s, removed, added);
    ContextStep(Run(s, removed + added), context);
  }

  /**
   * A change block of r removals followed by a additions and closed by a
   * context line, read with nothing pending: the left pane gets the r
   * removals then max(a - r, 0) filler rows, the right pane the a additions
   * then max(r - a, 0) filler rows, both then get the context row (so each
   * pane grows by max(r, a) + 1 rows), and nothing is left pending.
   */
  lemma ChangeBlock(s: Scan, removed: seq<string>, added: seq<string>, context: string)
    requires s.started && s.additions == 0 && s.removals == 0
    requires AllMarked(removed, '-') && AllMarked(added, '+')
    requires context == [] || context[0] !in {'+', '-', '@'}
    ensures var after := Run(s, removed + added + [context]);
      var max := if |removed| > |added| then |removed| else |added|;
      && |after.oldDiff| == |s.oldDiff| + max + 1
      && |after.currentDiff| == |s.currentDiff| + max + 1
      && after.additions == 0 && after.removals == 0
  {
    LeftAfterBlock(s, removed, added, context);
    RightAfterBlock(s, removed, added, context);
    RunSnocFrom(s, removed + added, context);
    BeforeContext(s, removed, added);
    ContextStep(Run(s, removed + added), context);
  }

  // ---------------------------------------------------------------------
  // The parser itself.

  /**
   * `Diff::parse_diff`: one pass over the lines, two pending counters and
   * two line counters. Its loop keeps |left| - |right| == removals - additions,
   * which is why the final flush leaves both panes the same length.
   */
  method ParseDiff(diffString: string) returns (diff: Diff)
    ensures diff == ParseText(diffString)
    ensures |diff.oldDiff| == |diff.currentDiff|
  {
    var lines := SplitLines(diffString);
    var oldDiff: seq<DiffLine> := [];
    var currentDiff: seq<DiffLine> := [];
    var start := false;
    var additions: nat := 0;
    var removals: nat := 0;
    var diffOneLine: nat := 1;
    var diffTwoLine: nat := 1;

    for i := 0 to |lines|
      invariant Scan(start, additions, removals, diffOneLine, diffTwoLine, oldDiff, currentDiff)
        == Run(Init, lines[..i])
      invariant |oldDiff| - |currentDiff| == removals - additions
    {
      assert lines[..i + 1][..i] == lines[..i];
      var line := lines[i];
      if IsHunkHeader(line) {
        start := true;
        continue;
      }
      if !start {
        continue;
      }
      var (prefix, content) := RemoveFirstChar(line);
      match prefix
      case '+' =>
        currentDiff := currentDiff + [DiffLine(content, Addition, Some(diffTwoLine))];
        diffTwoLine := diffTwoLine + 1;
        if removals > 0 {
          removals := removals - 1;
        } else {
          additions := additions + 1;
        }
      case '-' =>
        oldDiff := oldDiff + [DiffLine(content, Removal, Some(diffOneLine))];
        diffOneLine := diffOneLine + 1;
        removals := removals + 1;
      case _ =>
        currentDiff := PushBlanks(currentDiff, removals);
        removals := 0;
        oldDiff := PushBlanks(oldDiff, additions);
        additions := 0;
        oldDiff := oldDiff + [DiffLine(content, Neutral, Some(diffOneLine))];
        diffOneLine := diffOneLine + 1;
        currentDiff := currentDiff + [DiffLine(content, Neutral, Some(diffTwoLine))];
        diffTwoLine := diffTwoLine + 1;
    }
    assert lines[..|lines|] == lines;

    currentDiff := PushBlanks(currentDiff, removals);
    oldDiff := PushBlanks(oldDiff, additions);
    diff := Diff(oldDiff, currentDiff);
  }

  /** `for _ in 0..count { pane.push(blank) }` */
  method PushBlanks(pane: seq<DiffLine>, count: nat) returns (padded: seq<DiffLine>)
    ensures padded == pane + Blanks(count)
  {
    padded := pane;
    var k := 0;
    while k < count
      invariant k <= count
      invariant padded == pane + Blanks(k)
    {
      padded := padded + [BlankLine];
      k := k + 1;
    }
  }
}
