# diff-tool in Dafny

A model of the core of diff-tool, a terminal viewer that shows a unified
`git diff` as two row-aligned panes.

- **Parser.** It reads the diff text line by line. It skips everything up
  to the first hunk header, a line that starts and ends with `@@`. Removed
  lines go to the left pane (`old_diff`) and added lines to the right pane
  (`current_diff`). Context lines go to both panes. Filler rows are
  inserted so that the two panes stay the same length.
- **Measurements.** These are the last row a cursor can reach and the
  width of the line-number column.
- **Keys and messages.** These are the key type with its conversion from
  terminal key events and its textual name, the messages a key can ask
  for, and the fixed key table.
- **State.** This covers the two pane cursors, the running state, the line
  counter, the tick counter and console, and the two application types
  that move the cursors.

The parser appears twice in the repository, as `Diff::parse_diff`
(src/services/git.rs) and as `get_diff` (src/git/mod.rs). The two loops are
the same, so both are modelled by one imperative method,
`DiffParser.ParseDiff`. `GitMod.GetDiff` delegates to it.

**How the parser is specified.** The method is proved equal to a left fold
of `DiffParser.Step` over the lines, followed by `DiffParser.Flush`. The
fold is checked against a reference that does not use the loop's counters:

- `DiffParser.Body` is the lines actually read.
- `DiffParser.Column` is the numbered rows each pane must contain.

The theorem `DiffParser.ParseLinesCorrect` proves five things:

- both panes have the same length;
- every filler row is `("", Blank, None)`;
- with the filler removed, the left pane is exactly `Column(Body, '+')`;
- with the filler removed, the right pane is exactly `Column(Body, '-')`;
- the panes are row-aligned: every context row of either pane is at the
  same index in the other pane, as a context row with the same content.

**Stateful code.** Code that changes state in place is modelled as classes
with `modifies` clauses. `RefCell<TableState>` selections become
`Tables.TableState` objects, and their cursor arithmetic is specified by
`Navigation.NextIndex` and `Navigation.PreviousIndex`.

**Integer widths.** `usize` line numbers and indices are unbounded. The
`i32` line counter and the `u64` tick counter are bounded types. The places
where a fixed width changes the behaviour are listed under "Left out".

**Line-number width.** The column width is `min(digits, 65535)`. That value
always fits in a `u16`, so the fallback `unwrap_or(4)` is never reached
(src/services/git.rs:34, src/git/mod.rs:25). The model has no fallback.

## Model

| member | source | states |
|---|---|---|
| DiffLines.Value | src/services/git.rs:185-194 | the marker is one character: "+" exactly for additions, "-" exactly for removals, " " exactly for context and filler rows (same table at src/git/mod.rs:74-83) |
| DiffLines.RemoveFirstChar | src/services/git.rs:221-224 | the empty line gives (' ', ""); otherwise the first character followed by the rest is the line |
| DiffLines.SplitLines | src/services/git.rs:57 | splitting on "\n" gives at least one piece, no piece contains "\n", and joining the pieces with "\n" gives back the text |
| DiffLines.SplitJoin | src/services/git.rs:57 | splitting the join of newline-free pieces gives back exactly those pieces |
| DiffLines.SplitLinesTrailingNewline | src/services/git.rs:57 | a trailing newline adds exactly one empty last line |
| DiffLines.IsHunkHeader | src/services/git.rs:68 | a hunk header has at least two characters, and its first two and last two characters are '@' ("@@" alone counts) |
| DiffLines.Blanks | src/services/git.rs:104-113 | a run of n filler rows has length n and every row is ("", Blank, None) |
| DiffLines.LargestLineNumber | src/git/mod.rs:29-34 | bounds every line number of the pane (a missing number counts as 0), and is 0 or the number of some row |
| DiffLines.DigitCount | src/git/mod.rs:24 | the length of the decimal text of n: at least 1, n < 10^r, and 10^(r-1) <= n when r > 1 |
| DiffLines.NumberWidth | src/git/mod.rs:24-25 | the digit count capped at 65535: between 1 and 65535, wide enough for n unless capped, and no wider than n needs |
| DiffParser.Step | src/services/git.rs:67-130 | one loop iteration only appends rows to the panes, never clears `start`, ignores every line before the first header, and keeps (left length - right length) - (removals - additions) unchanged |
| DiffParser.Flush | src/services/git.rs:132-140 | the final padding only appends rows, and it lowers the left-minus-right length by removals minus additions, so the panes end equal whenever the loop invariant holds |
| DiffParser.ParseDiff | src/services/git.rs:56-143 | the imperative loop returns exactly the fold-and-flush specification of its input text, and its two panes have equal length |
| DiffParser.PushBlanks | src/services/git.rs:104-107 | pushing `count` filler rows gives the pane followed by exactly `count` rows ("", Blank, None) |
| DiffParser.RunKeepsInv | src/services/git.rs:67-131 | after any prefix of the input the loop variables satisfy the invariant: pane contents equal the reference columns, line counters are one past the rows numbered so far, and the left length minus the right length equals removals minus additions |
| DiffParser.ParseLinesCorrect | src/services/git.rs:64-140 | after the flush, both panes have equal length, every filler row is ("", Blank, None), with the filler removed the panes are the numbered columns of the lines read, and every context row of either pane sits at the same index of the other pane with the same content |
| DiffParser.RunAligned | src/services/git.rs:103-129 | after any prefix of the input, every context row of either pane sits at the same index of the other pane, as a context row with the same content |
| DiffParser.Column | src/services/git.rs:79-128 | the rows a pane must show are numbered 1, 2, 3, ... in order, none is filler, and none has the other pane's kind |
| DiffParser.HeaderEmitsNothing | src/services/git.rs:68-71 | a hunk header adds no row and changes neither counter nor line number; it only starts reading |
| DiffParser.NoHeaderGivesEmptyDiff | src/services/git.rs:67-75 | input without a hunk header gives two empty panes |
| DiffParser.PreambleDiscarded | src/services/git.rs:67-75 | lines before the first hunk header do not change the result |
| DiffParser.EmptyTextGivesEmptyDiff | src/services/git.rs:57-75 | the empty text gives two empty panes |
| DiffParser.Routing | src/services/git.rs:77-129 | after a header, a '+' line adds one Addition to the right pane only, a '-' line adds one Removal to the left pane only, and any other line (including the empty line, read as ' ') first adds the pending filler and then one Neutral row with the same content to each pane |
| DiffParser.HeaderFirst | src/services/git.rs:67-71 | a diff that opens with a header is read from the started state |
| DiffParser.MarkedRows | src/services/git.rs:80-102 | a run of marked lines produces one row per line, of the given kind, numbered consecutively from the first number |
| DiffParser.RemovalRun | src/services/git.rs:94-102 | a run of removals appends its rows to the left pane, numbered on from the left counter, and raises pending removals by its length |
| DiffParser.AdditionRun | src/services/git.rs:80-92 | a run of additions appends its rows to the right pane; it first uses up pending removals and only then raises pending additions |
| DiffParser.ContextStep | src/services/git.rs:103-129 | a context line pays pending additions as filler on the left and pending removals on the right, then adds a Neutral row to each pane and clears both counts |
| DiffParser.LeftAfterBlock | src/services/git.rs:79-129 | after r removals, a additions and a context line, the left pane gains the removals, then max(a-r, 0) filler rows, then the context row |
| DiffParser.RightAfterBlock | src/services/git.rs:79-129 | after the same block, the right pane gains the additions, then max(r-a, 0) filler rows, then the context row |
| DiffParser.ChangeBlock | src/services/git.rs:79-129 | each pane grows by max(r, a) + 1 rows over a change block, and nothing is left pending |
| DiffParserExamples.ExampleOneChange | src/services/git.rs:56-143 | a hunk with one context line, one removal and one addition gives two rows per pane, numbered 1 and 2, with no filler |
| GitMod.GetDiff | src/git/mod.rs:108-193 | `get_diff` returns the same aligned panes as the shared parser, of equal length |
| GitMod.LargestLineNumberLen | src/git/mod.rs:18-26 | between 1 and 65535; wide enough for every line number in either pane unless capped, and not wider than the largest number needs |
| ServicesGit.LongestDiffLen | src/services/git.rs:13-18 | needs at least one row; the result is a row of the longer pane and at least the last row of both panes |
| ServicesGit.ParsedLastRow | src/services/git.rs:13-18 | for a parsed, non-empty diff the result is the last row of both panes |
| ServicesGit.LargestLineNumbersAsWritten | src/services/git.rs:38-54 | as written: both results equal the largest line number of the left pane |
| ServicesGit.AsWrittenIgnoresRight | src/services/git.rs:46-51 | as written, the pair is the same whatever the right pane holds |
| ServicesGit.LargestLineNumbers | src/services/git.rs:38-54 | corrected: each component bounds the line numbers of its own pane and is 0 or one of them |
| ServicesGit.LargestLineNumberCharLenAsWritten | src/services/git.rs:28-35 | as written, the width depends only on the left pane |
| ServicesGit.LargestLineNumberCharLen | src/services/git.rs:28-35 | corrected, the width is the one computed over both panes, between 1 and 65535 |
| ServicesGit.AdditionsOnlyRun | src/services/git.rs:67-92 | after a header and n additions, the left pane is still empty, the right pane holds the additions numbered 1..n, and n additions are pending |
| ServicesGit.AdditionsOnlyHunk | src/services/git.rs:80-140 | a hunk of n additions gives n filler rows on the left and the additions numbered 1..n on the right |
| ServicesGit.LargestOfNumberedRun | src/services/git.rs:80-92 | rows numbered from 1 have their count as the largest number |
| ServicesGit.AdditionsOnlyWidth | src/services/git.rs:28-54 | for an additions-only hunk, the width as written is 1 whatever the count, while the corrected width is that of the count |
| ServicesGit.TenAdditionsTruncated | src/services/git.rs:46-51 | ten added lines: as written the column is 1 digit wide, corrected it is 2 |
| Keys.FromF | src/update/keys.rs:50-70 | exactly the numbers above 12 give Unknown; any other number gives the function key with that number |
| Keys.FromKeyEvent | src/update/keys.rs:73-166 | exactly the character codes become character keys (Char, Ctrl, Alt or Shift), and these keep the character; `F(n)` becomes `from_f(n)` and `Insert` becomes `Ins`; the result is Unknown exactly for the eleven codes without a key (BackTab, Null, CapsLock, ScrollLock, NumLock, PrintScreen, Pause, Menu, KeypadBegin, Media, Modifier) and for function keys above F12 |
| Keys.SameNamedCodes | src/update/keys.rs:76-135 | every other code without a payload becomes the key of the same name, whatever modifiers are held |
| Keys.FromFNumbers | src/update/keys.rs:50-70 | numbers 0..12 give the function key with that number, and exactly the numbers above 12 give Unknown |
| Keys.FromFInjective | src/update/keys.rs:51-64 | distinct numbers in 0..12 give distinct function keys |
| Keys.NamedCodesIgnoreModifiers | src/update/keys.rs:76-135 | a code without a character converts the same way whatever modifiers are held, and never into a character key of any kind (Char, Ctrl, Alt or Shift) |
| Keys.CharacterCodes | src/update/keys.rs:137-162 | a character becomes Alt, Ctrl or Shift exactly when that modifier alone is held, and a plain Char otherwise |
| Keys.AsciiLower | src/update/keys.rs:177 | each capital A-Z becomes its own lower-case letter (code + 32), and every other character is kept |
| Keys.KeyDisplay | src/update/keys.rs:169-181 | every key has a non-empty name |
| Keys.DisplayRoundTrip | src/update/keys.rs:169-181 | reading a key's name back gives the key, with a shifted letter in lower case. The reader accepts the space keys only as "alt+space", "ctrl+space" and "space", so the round trip forces those names. Other Alt, Ctrl, Shift and Char keys have their prefixes, and the rest have their variant names |
| Keys.SpaceNames | src/update/keys.rs:172-174 | "alt+space", "ctrl+space" and "space" are the only names read back as the Alt, Ctrl and plain space keys |
| Keys.DisplayInjective | src/update/keys.rs:169-181 | two keys have the same name exactly when they are equal up to the case of a shifted letter |
| Keys.NamedRoundTrip1 | src/update/keys.rs:179 | the variant names Enter to Up read back as their keys |
| Keys.NamedRoundTrip2 | src/update/keys.rs:179 | the variant names Down to PageDown read back as their keys |
| Keys.NamedRoundTrip3 | src/update/keys.rs:179 | the variant names F0 to F6 read back as their keys |
| Keys.NamedRoundTrip4 | src/update/keys.rs:179 | the variant names F7 to F12 and Unknown read back as their keys |
| Messages.Describe | src/update/message.rs:37-48 | every message has a non-empty description |
| Messages.DescribeInjective | src/update/message.rs:39-45 | the five descriptions are pairwise distinct |
| Messages.Update | src/update/message.rs:13-34 | `update` never returns a follow-up message |
| Messages.UpdateOneToOne | src/update/message.rs:14-31 | each message triggers exactly one model operation, and each operation has exactly one triggering message |
| Events.HandleKey | src/update/event.rs:17-28 | a message comes only from Esc or from one of the characters k, j, g, G, q and c |
| Events.HandleKeyTable | src/update/event.rs:17-28 | 'k' gives PrevRow, 'j' gives NextRow, 'g' gives FirstRow and 'G' gives LastRow (case-sensitive); 'q', Esc and Control-'c' give Quit; these are the only keys that give each message |
| Events.ModifiersMatterOnlyForC | src/update/event.rs:24 | the modifiers matter only for 'c', and only whether Control is among them |
| Navigation.NextIndex | src/app/mod.rs:151-182 | with nothing selected the cursor goes to row 0; with a selection it needs a row; on a non-empty table the new row is in range |
| Navigation.PreviousIndex | src/app/mod.rs:184-215 | with nothing selected the cursor goes to row 0; from row 0 it needs a row; from a selection within the table the new row is in range |
| Navigation.NextIsCyclic | src/app/mod.rs:152-161 | on a selected row, moving down is (i + 1) mod L |
| Navigation.PreviousIsCyclic | src/app/mod.rs:185-194 | on a selected row, moving up is (i + L - 1) mod L |
| Navigation.NextPreviousInverse | src/app/mod.rs:151-215 | moving down and then up, or up and then down, returns to the same row |
| Navigation.NextFromBeyondEnd | src/app/mod.rs:154-155 | a selection on or beyond the last row moves down to row 0 |
| Navigation.PreviousFromBeyondEnd | src/app/app.rs:99-112 | a selection at or beyond the row count moves up by one, and so stays outside the table unless it was one past the last row |
| ModelState.DiffState.constructor | src/model/state.rs:18-25 | both cursors start on row 0 and are separate table states |
| ModelState.DiffState.ResetRowState | src/model/state.rs:36-39 | both cursors are on row 0 afterwards, whatever they were before, so resetting twice is the same as once |
| Models.Model.constructor | src/model/mod.rs:1-5 | a default model has line count 0 and is running |
| Models.Model.LineCountIncr | src/model/mod.rs:12-14 | adds exactly 1 to the counter and leaves the running state alone |
| Models.Model.LineCountDecr | src/model/mod.rs:16-18 | subtracts exactly 1 from the counter and leaves the running state alone |
| Models.Model.LineCountReset | src/model/mod.rs:20-22 | sets the counter to 0 and leaves the running state alone |
| Models.Model.SetRunning | src/model/mod.rs:28-30 | sets the state to Running and leaves the counter alone |
| Models.Model.SetDone | src/model/mod.rs:32-34 | sets the state to Done and leaves the counter alone |
| Models.IncrThenDecr | src/model/mod.rs:12-18 | counting up and then down restores the counter and the state |
| AppStates.AppState.constructor | src/app/state.rs:11-19 | starts with tick count 0, an empty console, and the given diff unchanged |
| AppStates.AppState.IncrTick | src/app/state.rs:21-23 | adds exactly 1 to the tick count and leaves the console alone |
| AppStates.AppState.CountTick | src/app/state.rs:25-27 | always present, holding the current tick count |
| AppStates.AppState.Console | src/app/state.rs:29-31 | always present, holding the current console |
| AppStates.AppState.DiffShown | src/app/state.rs:33-35 | always present, holding the stored diff |
| AppStates.AppState.SendToConsole | src/app/state.rs:37-39 | appends the message at the end, keeps the earlier lines and the tick count, and grows the console by one |
| AppActions.ActionName | src/app/app.rs:46 | every action is announced with a non-empty name |
| AppActions.ActionNameInjective | src/app/app.rs:46 | distinct actions are announced with distinct names |
| AppActions.NextRow | src/app/app.rs:84-97 | the table's new selection is present and is the next row, wrapping to 0 |
| AppActions.PreviousRow | src/app/app.rs:99-112 | the table's new selection is present and is the previous row, wrapping to the last |
| AppActions.App.constructor | src/app/app.rs:25-34 | a fresh application state for the given diff, with the given key bindings |
| AppActions.App.Find | src/app/app.rs:45 | an action is found exactly for the bound keys, and it is the bound action |
| AppActions.App.DoAction | src/app/app.rs:37-66 | the result is Exit exactly for Quit. Up and Down move both cursors, each against its own row count. Every other key leaves both cursors alone. Exactly one console line is added: "Run action: " and the action, or "No action associated to " and the key's name. The tick count is unchanged |
| AppActions.App.UpdateOnTick | src/app/app.rs:69-73 | adds exactly 1 to the tick count, leaves the console alone, and continues |
| Application.Lookup | src/app/mod.rs:102-106 | a key gets a message exactly when its name is bound in the keymap, and the message is the bound one |
| Application.LookupByName | src/app/mod.rs:102-106 | keys that differ only in the case of a shifted letter get the same message |
| Application.NoKeyNamedEsc | src/services/config.rs:48-56 | no key is named "esc", so the default binding for "esc" never applies and the escape key is unbound |
| Application.EscQuits | src/services/config.rs:48-56 | with the binding under the escape key's real name "Esc", the escape key quits |
| Application.App.constructor | src/app/mod.rs:34-49 | a new application is running with an empty diff, both cursors on row 0, and the console cursor on the last log line (0 with no logs) |
| Application.App.HandleConsole | src/app/mod.rs:55-62 | the console cursor goes to the last log line, or to 0 when there are no logs |
| Application.App.HandleKey | src/app/mod.rs:102-106 | a key gets a message exactly when its name is bound in the keymap, and the message is the bound one |
| Application.App.VisibleDiff | src/app/mod.rs:120-125 | the diff is offered exactly when both panes have rows, and it is the stored diff |
| Application.App.SetDiff | src/app/mod.rs:127-129 | the stored diff becomes the parse of the text, with equal-length panes |
| Application.App.Quit | src/app/mod.rs:135-137 | the running state becomes Done and nothing else changes |
| Application.App.GoToLastRow | src/app/mod.rs:139-149 | needs a row; both cursors go to the same row, the last row of the longer pane |
| Application.App.NextRow | src/app/mod.rs:151-182 | each cursor moves to the next row of its own pane, wrapping to 0 |
| Application.App.PreviousRow | src/app/mod.rs:184-215 | each cursor moves to the previous row of its own pane, wrapping to the last |
| Application.App.Update | src/app/mod.rs:64-88 | returns no message and puts the console cursor on the last log line. PrevRow and NextRow move the cursors, LastRow jumps both to the last row, and FirstRow resets both to 0. Quit sets the state to Done and leaves the cursors alone. The diff and the logs are unchanged |

## Left out

- Fetching the raw diff (`get_raw_diff` in src/services/git.rs and src/git/mod.rs) runs the `git` process and decodes UTF-8. The model takes the diff text as input.
- Configuration loading from TOML files, environment variables and platform directories is left out. The keymap is a plain map parameter of `Application.App`. The built-in keymap appears only as the two constants used by the finding below.
- Whether the built-in "Shift+g" binding can fire depends on how the configuration library treats the case of keys, which is not part of this model. By exact lookup no key is named "Shift+g", because shifted keys are named "shift+...".
- Logging is left out: the logger, the `log::info!` call at the start of `App::update`, and the `log::warn!` in `Key::from_f`. The log buffer shared behind a lock is a plain sequence that the model never changes.
- Event polling, the input thread and channel, the terminal and all rendering (ratatui widgets, layout, panic hook) are left out. So are the command-line argument structs and the older duplicate dispatchers and key tables under src/input, src/inputs and src/update/mod.rs.
- Messages.Update: the `Model` methods that `update` in src/update/message.rs calls (`previous_row`, `next_row`, `go_to_last_row`, `go_to_first_row`, `quit`) are not defined in src/model/mod.rs. `update` is therefore modelled as the call it dispatches, not as a state change.
- ServicesGit.LongestDiffLen: requires a row. On two empty panes `len() - 1` panics in a debug build and wraps to `usize::MAX` in a release build. The release-build wrap is not modelled.
- Navigation.NextIndex: requires a row when a row is selected. On an empty table `len() - 1` wraps to `usize::MAX` in a release build, and the cursor then moves to the next index. That wrap is not modelled.
- Navigation.PreviousIndex: requires a row when row 0 is selected. On an empty table `len() - 1` wraps in a release build, and the cursor then moves to `usize::MAX`. That wrap is not modelled.
- DiffParser.Step: the pending counters `additions` and `removals` are `i32` in the source (src/services/git.rs:62-63, and the same loop in src/git/mod.rs), and they are unbounded here. An overflow would need 2^31 pending lines, and it is not modelled.
- Models.Model.LineCountIncr: the `i32` counter may not overflow. A debug build panics there and a release build wraps around. The wrap is not modelled.
- Models.Model.LineCountDecr: the `i32` counter may not underflow, for the same reason. The wrap is not modelled.
- AppStates.AppState.IncrTick: the `u64` tick counter may not overflow. A debug build panics there and a release build wraps around. The wrap is not modelled.
- Keys.AsciiLower: `char::to_lowercase` is Unicode-aware and can return several characters. Only the ASCII capitals are lowered in the model.
- AppActions.App.Find: the module that defines `Actions::find` and the text of an `Action` (src/app/actions.rs) is not part of this model. `find` is a map lookup, and the console text of an action is its variant name.
- AppActions.App.DoAction: the key type imported in src/app/app.rs (`crate::inputs::key::Key`) is not part of this model. Keys are `Keys.Key`, named by `Keys.KeyDisplay`. Only the row count of each table is used, so rows are passed as counts.
- AppActions.App.constructor: `App::new` and `App::set_diff` build the state with `AppState::Init` and `AppState::initialized`, which src/app/state.rs does not define. The model builds the state with `AppState::new`.
- Cursors keep only the selected row of a ratatui `TableState` or `ListState`; the scroll offset is left to rendering. Two `RefCell`s are modelled as distinct objects. The two exclusive borrows passed to `do_action` become the precondition that the two table states differ.
- Crossterm key events keep only the code and the modifier set. The event kind and state are ignored, because the conversion ignores them. The media and modifier key codes carry no payload in the model.
- Trivial accessors return a field unchanged, and the model reads the field directly: `console_state`, `config`, `diff_state`, `running_state` and `console` of `App`; `line_count` and `running_state` of `Model`; `old_diff` and `current_diff` of `Diff`.

## Findings

| source | as written | input that shows it | evidently intended | confidence | as-written member | corrected member |
|---|---|---|---|---|---|---|
| src/services/git.rs:46-51 | the second result of `largest_line_number`, meant for the right pane, is computed over `self.old_diff` | a hunk header followed by ten added lines: the right pane is numbered 1 to 10, yet the line-number column is 1 digit wide | compute it over `self.current_diff`, giving a width of 2 | high (not executed) | ServicesGit.LargestLineNumbersAsWritten, shown by ServicesGit.TenAdditionsTruncated | ServicesGit.LargestLineNumbers, used by ServicesGit.LargestLineNumberCharLen |
| src/services/config.rs:49 | the built-in keymap binds "esc" to Quit, but keys are looked up by their display name and the escape key displays as "Esc" | pressing Escape with the built-in keymap: no binding matches | bind "Esc" | medium (not executed): the fix assumes the configuration library keeps the case of keys, which is not part of this model. Also, src/app/mod.rs:38 and 104 use `Config::new` and `keymap()`, while src/services/config.rs:9 defines `AppConfig`, so the link from this keymap to `handle_key` is inferred | Application.DefaultKeymapAsWritten, shown by Application.NoKeyNamedEsc | Application.DefaultKeymap, shown by Application.EscQuits |
