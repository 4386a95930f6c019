/**
 * The application of src/app/mod.rs: the run state, the diff on display,
 * one cursor per pane, the console of log lines with its own cursor, and
 * the keymap that turns a key's name into a message.
 *
 * The log buffer, shared with the logger behind a lock in the source, is a
 * plain sequence here; the configuration is reduced to its keymap.
 */
module Application {
  import opened Wrappers
  import opened DiffLines
  import opened DiffParser
  import opened Navigation
  import opened Tables
  import opened ModelState
  import opened Messages
  import ServicesGit
  import Keys

  /** The message a keymap binds to a key, looked up by the key's name. */
  function Lookup(keymap: map<string, Message>, key: Keys.Key): (r: Option<Message>)
    ensures r.Some? <==> Keys.KeyDisplay(key) in keymap
    ensures r.Some? ==> r.value == keymap[Keys.KeyDisplay(key)]
  {
    var name := Keys.KeyDisplay(key);
    if name in keymap then Some(keymap[name]) else None
  }

  /** Keys with the same name, such as a shifted letter in either case, get the same message. */
  lemma LookupByName(keymap: map<string, Message>, k1: Keys.Key, k2: Keys.Key)
    requires Keys.Canonical(k1) == Keys.Canonical(k2)
    ensures Lookup(keymap, k1) == Lookup(keymap, k2)
  {
    Keys.DisplayInjective(k1, k2);
  }

  /** The built-in keymap as written: "esc" names no key. */
  const DefaultKeymapAsWritten: map<string, Message> := map[
    "esc" := Quit, "q" := Quit, "ctrl+c" := Quit, "ctrl+d" := Quit,
    "Shift+g" := LastRow, "g" := FirstRow, "j" := NextRow, "k" := PrevRow]

  /** The built-in keymap with the escape key under its displayed name. */
  const DefaultKeymap: map<string, Message> := map[
    "Esc" := Quit, "q" := Quit, "ctrl+c" := Quit, "ctrl+d" := Quit,
    "Shift+g" := LastRow, "g" := FirstRow, "j" := NextRow, "k" := PrevRow]

  /** No key is named "esc", so the escape binding as written can never fire. */
  lemma NoKeyNamedEsc(key: Keys.Key)
    ensures Keys.KeyDisplay(key) != "esc"
    ensures Lookup(DefaultKeymapAsWritten, Keys.Esc) == None
  {
    Keys.DisplayRoundTrip(key);
    assert Keys.ParseKeyName("esc") == None by {
      assert "esc"[0] == 'e';
    }
    assert Keys.KeyDisplay(Keys.Esc) == "Esc";
    assert "Esc" != "esc" by {
      assert "Esc"[0] != "esc"[0];
    }
  }

  /** With the corrected name the escape key quits, as the event table does. */
  lemma EscQuits()
    ensures Lookup(DefaultKeymap, Keys.Esc) == Some(Quit)
  {
    assert Keys.KeyDisplay(Keys.Esc) == "Esc";
  }

  class App {
    var runningState: RunningState
    var diff: Diff
    const diffState: DiffState
    var logs: seq<string>
    const consoleState: TableState
    const keymap: map<string, Message>

    /** The three cursors are separate table states. */
    ghost predicate Valid()
      reads this, diffState
    {
      diffState.Valid() && consoleState != diffState.oldDiff && consoleState != diffState.currentDiff
    }

    /** A fresh application: running, no diff, cursors on the first row, console on its last line. */
    constructor (logs: seq<string>, keymap: map<string, Message>)
      ensures Valid()
      ensures fresh(diffState) && fresh(diffState.oldDiff) && fresh(diffState.currentDiff) && fresh(consoleState)
      ensures runningState == Running && diff == Diff([], []) && this.logs == logs && this.keymap == keymap
      ensures diffState.oldDiff.selected == Some(0) && diffState.currentDiff.selected == Some(0)
      ensures |logs| > 0 ==> consoleState.selected == Some(|logs| - 1)
      ensures |logs| == 0 ==> consoleState.selected == Some(0)
    {
      runningState := DefaultRunningState;
      diff := Diff([], []);
      diffState := new DiffState();
      this.logs := logs;
      consoleState := new TableState();
      this.keymap := keymap;
      new;
      HandleConsole();
    }

    /** Puts the console cursor on the last log line, or on 0 when there is none. */
    method HandleConsole()
      modifies consoleState
      ensures |logs| > 0 ==> consoleState.selected == Some(|logs| - 1)
      ensures |logs| == 0 ==> consoleState.selected == Some(0)
    {
      var index := Max(1, |logs|) - 1;
      consoleState.Select(Some(index));
    }

    /** The message bound to a key by this application's keymap. */
    function HandleKey(key: Keys.Key): (r: Option<Message>)
      reads this
      ensures r.Some? <==> Keys.KeyDisplay(key) in keymap
      ensures r.Some? ==> r.value == keymap[Keys.KeyDisplay(key)]
    {
      Lookup(keymap, key)
    }

    /** The diff, offered for display only when both panes have rows. */
    function VisibleDiff(): (r: Option<Diff>)
      reads this
      ensures r.Some? <==> |diff.oldDiff| != 0 && |diff.currentDiff| != 0
      ensures r.Some? ==> r.value == diff
    {
      if |diff.oldDiff| != 0 && |diff.currentDiff| != 0 then Some(diff) else None
    }

    /** Replaces the diff by the parse of `diffString`; the panes come out the same length. */
    method SetDiff(diffString: string)
      modifies this
      ensures diff == ParseText(diffString) && |diff.oldDiff| == |diff.currentDiff|
      ensures runningState == old(runningState) && logs == old(logs)
    {
      diff := ParseDiff(diffString);
    }

    method Quit()
      modifies this
      ensures runningState == Done && diff == old(diff) && logs == old(logs)
    {
      runningState := Done;
    }

    /** Both cursors jump to the last row of the longer pane. */
    method GoToLastRow()
      requires Valid()
      requires |diff.oldDiff| > 0 || |diff.currentDiff| > 0
      modifies diffState.oldDiff, diffState.currentDiff
      ensures diffState.oldDiff.selected == Some(ServicesGit.LongestDiffLen(diff))
      ensures diffState.currentDiff.selected == Some(ServicesGit.LongestDiffLen(diff))
    {
      var lastRow := ServicesGit.LongestDiffLen(diff);
      diffState.oldDiff.Select(Some(lastRow));
      diffState.currentDiff.Select(Some(lastRow));
    }

    /** Each cursor moves one row down its own pane, wrapping to the top. */
    method NextRow()
      requires Valid()
      requires diffState.oldDiff.selected.Some? ==> |diff.oldDiff| > 0
      requires diffState.currentDiff.selected.Some? ==> |diff.currentDiff| > 0
      modifies diffState.oldDiff, diffState.currentDiff
      ensures diffState.oldDiff.selected == Some(NextIndex(old(diffState.oldDiff.selected), |diff.oldDiff|))
      ensures diffState.currentDiff.selected
        == Some(NextIndex(old(diffState.currentDiff.selected), |diff.currentDiff|))
    {
      var oldIndex := match diffState.oldDiff.selected
        case Some(i) => if i >= |diff.oldDiff| - 1 then 0 else i + 1
        case None => 0;
      var currentIndex := match diffState.currentDiff.selected
        case Some(j) => if j >= |diff.currentDiff| - 1 then 0 else j + 1
        case None => 0;
      diffState.oldDiff.Select(Some(oldIndex));
      diffState.currentDiff.Select(Some(currentIndex));
    }

    /** Each cursor moves one row up its own pane, wrapping to the bottom. */
    method PreviousRow()
      requires Valid()
      requires diffState.oldDiff.selected == Some(0) ==> |diff.oldDiff| > 0
      requires diffState.currentDiff.selected == Some(0) ==> |diff.currentDiff| > 0
      modifies diffState.oldDiff, diffState.currentDiff
      ensures diffState.oldDiff.selected == Some(PreviousIndex(old(diffState.oldDiff.selected), |diff.oldDiff|))
      ensures diffState.currentDiff.selected
        == Some(PreviousIndex(old(diffState.currentDiff.selected), |diff.currentDiff|))
    {
      var oldIndex := match diffState.oldDiff.selected
        case Some(i) => if i == 0 then |diff.oldDiff| - 1 else i - 1
        case None => 0;
      var currentIndex := match diffState.currentDiff.selected
        case Some(j) => if j == 0 then |diff.currentDiff| - 1 else j - 1
        case None => 0;
      diffState.oldDiff.Select(Some(oldIndex));
      diffState.currentDiff.Select(Some(currentIndex));
    }

    /**
     * Handles one message: the console cursor goes to the last log line,
     * the message's one operation runs, and no follow-up message is
     * returned.
     */
    method Update(msg: Message) returns (r: Option<Message>)
      requires Valid()
      requires msg == PrevRow ==>
        (diffState.oldDiff.selected == Some(0) ==> |diff.oldDiff| > 0) &&
        (diffState.currentDiff.selected == Some(0) ==> |diff.currentDiff| > 0)
      requires msg == Message.NextRow ==>
        (diffState.oldDiff.selected.Some? ==> |diff.oldDiff| > 0) &&
        (diffState.currentDiff.selected.Some? ==> |diff.currentDiff| > 0)
      requires msg == LastRow ==> |diff.oldDiff| > 0 || |diff.currentDiff| > 0
      modifies this, consoleState, diffState.oldDiff, diffState.currentDiff
      ensures r == None
      ensures diff == old(diff) && logs == old(logs)
      ensures |logs| > 0 ==> consoleState.selected == Some(|logs| - 1)
      ensures |logs| == 0 ==> consoleState.selected == Some(0)
      ensures runningState == if msg == Message.Quit then Done else old(runningState)
      ensures msg == PrevRow ==>
        diffState.oldDiff.selected == Some(PreviousIndex(old(diffState.oldDiff.selected), |diff.oldDiff|)) &&
        diffState.currentDiff.selected == Some(PreviousIndex(old(diffState.currentDiff.selected), |diff.currentDiff|))
      ensures msg == Message.NextRow ==>
        diffState.oldDiff.selected == Some(NextIndex(old(diffState.oldDiff.selected), |diff.oldDiff|)) &&
        diffState.currentDiff.selected == Some(NextIndex(old(diffState.currentDiff.selected), |diff.currentDiff|))
      ensures msg == LastRow ==>
        diffState.oldDiff.selected == Some(ServicesGit.LongestDiffLen(diff)) &&
        diffState.currentDiff.selected == Some(ServicesGit.LongestDiffLen(diff))
      ensures msg == FirstRow ==>
        diffState.oldDiff.selected == Some(0) && diffState.currentDiff.selected == Some(0)
      ensures msg == Message.Quit ==>
        diffState.oldDiff.selected == old(diffState.oldDiff.selected) &&
        diffState.currentDiff.selected == old(diffState.currentDiff.selected)
    {
      HandleConsole();
      match msg {
        case PrevRow => PreviousRow();
        case NextRow => NextRow();
        case LastRow => GoToLastRow();
        case FirstRow => diffState.ResetRowState();
        case Quit => this.Quit();
      }
      r := None;
    }
  }
}
