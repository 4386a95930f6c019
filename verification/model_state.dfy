/**
 * The viewer's row cursors and run state (src/model/state.rs): one table
 * selection per pane, shared through interior mutability, so resetting them
 * changes the two table states and nothing else.
 */
module ModelState {
  import opened Wrappers
  import opened Tables

  datatype RunningState = Running | Done

  /** The run state a fresh application starts in. */
  const DefaultRunningState: RunningState := Running

  class DiffState {
    const oldDiff: TableState
    const currentDiff: TableState

    /** The two panes have separate cursors. */
    ghost predicate Valid()
      reads this
    {
      oldDiff != currentDiff
    }

    /** Both cursors start on the first row. */
    constructor ()
      ensures Valid() && fresh(oldDiff) && fresh(currentDiff)
      ensures oldDiff.selected == Some(0) && currentDiff.selected == Some(0)
    {
      oldDiff := new TableState.WithSelected(0);
      currentDiff := new TableState.WithSelected(0);
    }

    /** Puts both cursors back on the first row, whatever they were. */
    method ResetRowState()
      requires Valid()
      modifies oldDiff, currentDiff
      ensures oldDiff.selected == Some(0) && currentDiff.selected == Some(0)
    {
      oldDiff.Select(Some(0));
      currentDiff.Select(Some(0));
    }
  }
}
