/**
 * Cursor movement over a table of rows, shared by `App::next_row` and
 * `App::previous_row` (src/app/mod.rs) and the free `next_row` and
 * `previous_row` (src/app/app.rs): the row a cursor moves to, given the
 * current selection and the number of rows.
 */
module Navigation {
  import opened Wrappers

  /**
   * The row after the selection, wrapping to the top. The row count minus
   * one is computed on an unsigned length whenever a row is selected, so a
   * selection needs at least one row.
   */
  function NextIndex(selected: Option<nat>, len: nat): (r: nat)
    requires selected.Some? ==> len > 0
    ensures selected.None? ==> r == 0
    ensures len > 0 ==> r < len
  {
    match selected
    case None => 0
    case Some(i) => if i >= len - 1 then 0 else i + 1
  }

  /**
   * The row before the selection, wrapping to the bottom. The row count
   * minus one is computed only when the top row is selected.
   */
  function PreviousIndex(selected: Option<nat>, len: nat): (r: nat)
    requires selected == Some(0) ==> len > 0
    ensures selected.None? ==> r == 0
    ensures selected.Some? && selected.value <= len && len > 0 ==> r < len
  {
    match selected
    case None => 0
    case Some(i) => if i == 0 then len - 1 else i - 1
  }

  /** On a selected row, moving down is the cyclic successor. */
  lemma NextIsCyclic(i: nat, len: nat)
    requires i < len
    ensures NextIndex(Some(i), len) == (i + 1) % len
  {
    if i + 1 < len {
      assert (i + 1) % len == i + 1;
    } else {
      assert (i + 1) % len == 0;
    }
  }

  /** On a selected row, moving up is the cyclic predecessor. */
  lemma PreviousIsCyclic(i: nat, len: nat)
    requires i < len
    ensures PreviousIndex(Some(i), len) == (i + len - 1) % len
  {
    if i == 0 {
      assert (len - 1) % len == len - 1;
    } else {
      assert (i + len - 1) % len == i - 1;
    }
  }

  /** Moving down then up, or up then down, returns to the same row. */
  lemma NextPreviousInverse(i: nat, len: nat)
    requires i < len
    ensures PreviousIndex(Some(NextIndex(Some(i), len)), len) == i
    ensures NextIndex(Some(PreviousIndex(Some(i), len)), len) == i
  {
  }

  /** A selection beyond the last row moves down to the top row. */
  lemma NextFromBeyondEnd(i: nat, len: nat)
    requires 0 < len <= i + 1
    ensures NextIndex(Some(i), len) == 0
  {
  }

  /**
   * A selection at or beyond the row count moves up by one and so stays
   * outside the table unless it was exactly one past the last row.
   */
  lemma PreviousFromBeyondEnd(i: nat, len: nat)
    requires 0 < len <= i
    ensures PreviousIndex(Some(i), len) == i - 1
    ensures len < i ==> PreviousIndex(Some(i), len) >= len
  {
  }
}
