/**
 * The selection state of a scrolling table or list widget: which row, if
 * any, is selected. Only the selection is modelled; the widget's scroll
 * offset is left to the rendering code.
 */
module Tables {
  import opened Wrappers

  class TableState {
    var selected: Option<nat>

    /** A table state with row `i` selected. */
    constructor WithSelected(i: nat)
      ensures selected == Some(i)
    {
      selected := Some(i);
    }

    /** A table state with nothing selected. */
    constructor ()
      ensures selected == None
    {
      selected := None;
    }

    method Select(row: Option<nat>)
      modifies this
      ensures selected == row
    {
      selected := row;
    }
  }
}
