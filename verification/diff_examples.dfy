/** Worked examples of the diff parser on small inputs. */
module DiffParserExamples {
  import opened Wrappers
  import opened DiffLines
  import opened DiffParser

  /** A context line, one removal and one addition: no filler is needed. */
  lemma ExampleOneChange()
    ensures ParseLines(["@@ -1,3 +1,3 @@", " kept line", "-old line", "+new line"])
      == Diff([DiffLine("kept line", Neutral, Some(1)), DiffLine("old line", Removal, Some(2))],
              [DiffLine("kept line", Neutral, Some(1)), DiffLine("new line", Addition, Some(2))])
  {
    var lines := ["@@ -1,3 +1,3 @@", " kept line", "-old line", "+new line"];
    var kept := DiffLine("kept line", Neutral, Some(1));
    assert IsHunkHeader(lines[0]);
    assert RemoveFirstChar(lines[1]) == (' ', "kept line");
    assert RemoveFirstChar(lines[2]) == ('-', "old line");
    assert RemoveFirstChar(lines[3]) == ('+', "new line");
    assert lines[..0] == [];
    assert lines[..1] == lines[..0] + [lines[0]];
    RunSnocFrom(Init, lines[..0], lines[0]);
    assert Run(Init, lines[..1]) == Init.(started := true);
    assert lines[..2] == lines[..1] + [lines[1]];
    RunSnocFrom(Init, lines[..1], lines[1]);
    assert Run(Init, lines[..2]) == Scan(true, 0, 0, 2, 2, [kept], [kept]);
    assert lines[..3] == lines[..2] + [lines[2]];
    RunSnocFrom(Init, lines[..2], lines[2]);
    assert Run(Init, lines[..3])
      == Scan(true, 0, 1, 3, 2, [kept, DiffLine("old line", Removal, Some(2))], [kept]);
    assert lines[..4] == lines[..3] + [lines[3]];
    RunSnocFrom(Init, lines[..3], lines[3]);
    assert lines[..4] == lines;
  }
}
