/**
 * The action-driven application of src/app/app.rs: a key looks up an
 * action, the action moves the two table cursors or ends the program, and
 * every key leaves one line in the console.
 */
module AppActions {
  import opened Wrappers
  import opened DiffLines
  import opened Navigation
  import opened Tables
  import opened AppStates
  import Keys

  /** Whether the main loop goes on. */
  datatype AppReturn = Exit | Continue

  datatype Action = Quit | Enter | Up | Down

  /** The console text of an action: its name. */
  function ActionName(a: Action): (r: string)
    ensures r != []
  {
    match a
    case Quit => "Quit"
    case Enter => "Enter"
    case Up => "Up"
    case Down => "Down"
  }

  /** Distinct actions are announced with distinct names. */
  lemma ActionNameInjective(a: Action, b: Action)
    ensures ActionName(a) == ActionName(b) <==> a == b
  {
  }

  /** Moves a table's cursor one row down, wrapping to the top. */
  method NextRow(state: TableState, rowCount: nat)
    requires state.selected.Some? ==> rowCount > 0
    modifies state
    ensures state.selected == Some(NextIndex(old(state.selected), rowCount))
  {
    var i := match state.selected
      case Some(i) => if i >= rowCount - 1 then 0 else i + 1
      case None => 0;
    state.Select(Some(i));
  }

  /** Moves a table's cursor one row up, wrapping to the bottom. */
  method PreviousRow(state: TableState, rowCount: nat)
    requires state.selected == Some(0) ==> rowCount > 0
    modifies state
    ensures state.selected == Some(PreviousIndex(old(state.selected), rowCount))
  {
    var i := match state.selected
      case Some(i) => if i == 0 then rowCount - 1 else i - 1
      case None => 0;
    state.Select(Some(i));
  }

  class App {
    const state: AppState
    /** The key bindings: the action each key runs. */
    const actions: map<Keys.Key, Action>

    constructor (diff: Diff, actions: map<Keys.Key, Action>)
      ensures fresh(state) && state.counterTick == 0 && state.console == [] && state.diff == diff
      ensures this.actions == actions
    {
      state := new AppState(diff);
      this.actions := actions;
    }

    /** The action bound to a key, if any. */
    function Find(key: Keys.Key): (r: Option<Action>)
      ensures r.Some? <==> key in actions
      ensures r.Some? ==> r.value == actions[key]
    {
      if key in actions then Some(actions[key]) else None
    }

    /**
     * Runs the action bound to `key` against the two tables. `Up` and
     * `Down` move both cursors, each against its own row count; `Quit`
     * ends the loop; a key without an action only reports itself. The two
     * table states are distinct, as two exclusive borrows must be.
     */
    method DoAction(key: Keys.Key, stateOne: TableState, stateTwo: TableState,
                    rowsOne: nat, rowsTwo: nat) returns (r: AppReturn)
      requires stateOne != stateTwo
      requires Find(key) == Some(Up) ==>
        (stateOne.selected == Some(0) ==> rowsOne > 0) && (stateTwo.selected == Some(0) ==> rowsTwo > 0)
      requires Find(key) == Some(Down) ==>
        (stateOne.selected.Some? ==> rowsOne > 0) && (stateTwo.selected.Some? ==> rowsTwo > 0)
      modifies state, stateOne, stateTwo
      ensures r == Exit <==> Find(key) == Some(Quit)
      ensures state.counterTick == old(state.counterTick)
      ensures Find(key).Some? ==>
        state.console == old(state.console) + ["Run action: " + ActionName(Find(key).value)]
      ensures Find(key).None? ==>
        state.console == old(state.console) + ["No action associated to " + Keys.KeyDisplay(key)]
      ensures Find(key) == Some(Up) ==>
        stateOne.selected == Some(PreviousIndex(old(stateOne.selected), rowsOne)) &&
        stateTwo.selected == Some(PreviousIndex(old(stateTwo.selected), rowsTwo))
      ensures Find(key) == Some(Down) ==>
        stateOne.selected == Some(NextIndex(old(stateOne.selected), rowsOne)) &&
        stateTwo.selected == Some(NextIndex(old(stateTwo.selected), rowsTwo))
      ensures Find(key) !in {Some(Up), Some(Down)} ==>
        stateOne.selected == old(stateOne.selected) && stateTwo.selected == old(stateTwo.selected)
    {
      var found := Find(key);
      if found.Some? {
        var action := found.value;
        state.SendToConsole("Run action: " + ActionName(action));
        match action
        case Quit => r := Exit;
        case Enter => r := Continue;
        case Up =>
          PreviousRow(stateOne, rowsOne);
          PreviousRow(stateTwo, rowsTwo);
          r := Continue;
        case Down =>
          NextRow(stateOne, rowsOne);
          NextRow(stateTwo, rowsTwo);
          r := Continue;
      } else {
        state.SendToConsole("No action associated to " + Keys.KeyDisplay(key));
        r := Continue;
      }
    }

    /** One tick of the clock: the counter goes up by one and the loop goes on. */
    method UpdateOnTick() returns (r: AppReturn)
      requires state.counterTick < U64_MAX
      modifies state
      ensures r == Continue
      ensures state.counterTick == old(state.counterTick) + 1 && state.console == old(state.console)
    {
      state.IncrTick();
      r := Continue;
    }
  }
}
