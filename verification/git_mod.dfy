/**
 * The diff of src/git/mod.rs: the same parser under the name `get_diff`,
 * and the width of the line-number column over both panes.
 */
module GitMod {
  import opened Wrappers
  import opened DiffLines
  import opened DiffParser

  /** Reads a unified diff into two aligned panes. */
  method GetDiff(diffString: string) returns (diff: Diff)
    ensures diff == ParseText(diffString)
    ensures |diff.oldDiff| == |diff.currentDiff|
  {
    diff := ParseDiff(diffString);
  }

  /**
   * The width of the line-number column: enough digits for every line
   * number in either pane, and no more than the largest one needs.
   */
  function LargestLineNumberLen(d: Diff): (r: nat)
    ensures 1 <= r <= 65535
    ensures r < 65535 ==>
      (forall i :: 0 <= i < |d.oldDiff| ==> NumberOrZero(d.oldDiff[i]) < Pow10(r)) &&
      (forall i :: 0 <= i < |d.currentDiff| ==> NumberOrZero(d.currentDiff[i]) < Pow10(r))
    ensures r > 1 ==>
      (exists i :: 0 <= i < |d.oldDiff| && Pow10(r - 1) <= NumberOrZero(d.oldDiff[i])) ||
      (exists i :: 0 <= i < |d.currentDiff| && Pow10(r - 1) <= NumberOrZero(d.currentDiff[i]))
  {
    var left := LargestLineNumber(d.oldDiff);
    var right := LargestLineNumber(d.currentDiff);
    var r := NumberWidth(Max(left, right));
    assert r > 1 ==> Max(left, right) > 0;
    r
  }
}
