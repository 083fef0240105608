# Terminal kit: a Dafny model of the input line, the track state, the taskbar and start-up

This project models the logic of a web "terminal kit". The kit is a desktop of
windows: a shell-like terminal, a music player, a taskbar and a matrix-rain
background. The model covers four parts.

- **The terminal input line** (`terminal.js`):
  - the history cursor, desktop and mobile;
  - Enter, Ctrl+C and Ctrl+L;
  - tab completion: command names from the registry, or paths from a directory
    listing, extended to the longest common prefix, with the candidate list shown
    under the line;
  - the display path and the prompt;
  - the `waitKey` key filter offered to commands;
  - the lolcat rainbow colouring.

  Modules `Strings`, `Prompt`, `Completion` and `Terminal`.
- **The music player's track state** (`music-player.js`):
  - the playlist and the current index;
  - shuffle and repeat;
  - next, previous and the end of a track;
  - the `m:ss` time display and the `[NN] title` playlist labels.

  Module `MusicPlayer`.
- **The taskbar** (`taskbar.js`):
  - the 12-hour clock text and the clock's interval;
  - the stored window and matrix callbacks;
  - the active marks of the buttons;
  - the matrix-rain button label.

  Module `Taskbar`, with the JavaScript values it handles in `JsValues`.
- **The entry point** (`index.js`):
  - the default configuration and how a caller's configuration is merged into it;
  - the rule that decides whether a window starts hidden;
  - `init`, which runs once, and the ordered effects it asks of the other modules;
  - the shared z-index, synchronised between the two windows.

  Module `TerminalKit`.

The model takes the source's own form:
- State the source changes in place is a class: `DesktopTerminal`, `MobileTerminal`, `Player`, `Bar`, `Kit` and `WindowStack`. Each method's `ensures` states the whole new state in terms of the specification functions.
- The pure computations are functions, with lemmas about them. These cover candidates, common prefix, cursor arithmetic, clock text, time display, merge and visibility.
- The source's loops are methods with loop invariants, proved equal to a reference function:
  - the common-prefix loop (`Completion.CommonPrefix`, proved equal to `LongestCommonPrefix`);
  - the lolcat loops (`Prompt.LolcatLine`, `Prompt.LolcatText`, proved equal to `ColourAt`).
- Three client methods check concrete scenarios with assertions:
  - `Terminal.HistoryWalk`: Up and Down over the history `ls`, `pwd`;
  - `TerminalKit.InitTwice`: a second `init` changes nothing;
  - `TerminalKit.RaiseWithoutSync`: without a sync, the window clicked last can stay below the other.

The kit's other modules are parameters:
- The command registry is a sequence of keys.
- `resolvePath` and `listDirectory` are functions.
- `getCurrentHistory` after `addToHistory` is the new history, passed in.
- Whether an audio track loaded is a boolean.
- The time of day is hours, minutes and seconds.
- What a callback returns when called is a value.
- The saved visibilities read back from storage are values.
- The prompt text is a string.

For a unique completion on the desktop terminal, the comment at terminal.js:444 says a space follows a command completion and none follows a file or directory completion. The test on the next line (terminal.js:445) adds the space exactly when the line is a single word. So a command name completed after `sudo` gets no space, and a path completed as the only word gets one. The model follows the test: `Terminal.TabResult` adds the space exactly when the line is one word.

## Model

| member | source | states |
|---|---|---|
| Strings.Split | terminal.js:386 | `split` on one character gives at least one piece; no piece contains the separator; there is exactly one piece iff the separator does not occur |
| Strings.JoinSplit | terminal.js:442-443 | joining the pieces of a split with the same separator gives back the original string |
| Strings.SplitJoin | terminal.js:1106-1107 | splitting a join gives back the pieces when no piece contains the separator |
| Strings.LastIndexOf | terminal.js:409-411 | `lastIndexOf` finds an occurrence of the character, and there is none after it |
| Strings.Trim | terminal.js:329 | `trim` gives a contiguous piece `s[k..k+\|r\|]` of the input with only white space before and after it. The result neither starts nor ends with white space, and it is empty iff the input is all white space |
| Strings.PadStart | taskbar.js:180 | `padStart` gives length max(width, \|s\|): the original characters at the end, the pad character in front, never truncated |
| Strings.NatToString | music-player.js:103 | decimal rendering: digits only, no leading zero unless the number is 0, one digit iff below 10, and it reads back as the number |
| Strings.TwoDigits | taskbar.js:175-176 | a number below 100 padded with zeros to two characters is two digits that read back as the number |
| Strings.ToLower | terminal.js:1063 | lower-casing keeps the length and lowers each character in place |
| JsValues.Or | taskbar.js:33 | `v \|\| w` is `v` when `v` is truthy and `w` otherwise |
| JsValues.Get | taskbar.js:33-36 | a property lookup gives the stored value, or `undefined` for a missing key |
| JsValues.Props | index.js:100-102 | an object contributes its own fields to a spread; `null`, `undefined`, booleans, numbers and functions contribute none |
| JsValues.Spread | index.js:97 | `{...a, ...b}` has the keys of both; `b`'s values win and the rest of `a`'s survive |
| JsValues.OrNullNormalises | taskbar.js:33-36 | `x \|\| null` keeps truthiness, is idempotent, and is either `null` or `x` |
| Prompt.DisplayPathAsWritten | terminal.js:579-585 | as written: any `cwd` that begins with the text of `HOME` has that text replaced by `~`; an empty result shows as `~` |
| Prompt.DisplayPathAsWrittenMisleads | terminal.js:581-582 | with HOME `/home/user`, `/home/user2` displays as `~2`, which does not expand back to the working directory |
| Prompt.DisplayPath | terminal.js:579-585 | corrected: only the home directory and paths below it are shown relative to `~`; any other non-empty path is shown unchanged |
| Prompt.DisplayPathRoundTrip | terminal.js:579-585 | tilde expansion of the corrected display path of any absolute directory gives that directory back |
| Prompt.DisplayPathAbbreviatesHome | terminal.js:581-584 | the home directory and every path below it display as `~` followed by the rest |
| Prompt.PromptText | terminal.js:587-593 | corrected (see Left out): the prompt is `user@host:path` with the corrected display path, plus `#` for root and `$` for everyone else, plus a space |
| Prompt.MobilePromptText | terminal.js:946-949 | corrected (see Left out): the mobile prompt equals the desktop prompt except that it always ends in `$ `, even for root |
| Prompt.FilterKeyInterrupt | terminal.js:504-511 | `waitKey` resolves with `CTRL_C` exactly for Ctrl+C; every other accepted key resolves with its own name |
| Prompt.FilterKeyAccepts | terminal.js:504-511 | an event is ignored exactly when it is not Ctrl+C, its key name is not Enter, and it is not a single character that takes one UTF-16 code unit (the source tests `e.key.length === 1`) |
| Prompt.FilterKeyIgnoresAstral | terminal.js:507 | a key named by one character outside the Basic Multilingual Plane is ignored, since its `length` is 2 |
| Prompt.LolcatLine | terminal.js:932-941 | the characters are painted in order; character `i` gets rainbow colour number (non-space characters before it) mod 6 |
| Prompt.LolcatText | terminal.js:926-944 | the text is cut at line breaks; each line is painted on its own, starting the rainbow afresh |
| Prompt.ColourAdvance | terminal.js:938-940 | a space takes the same colour as the character after it; any other character moves the rainbow on by one |
| Prompt.ColourWithoutSpaces | terminal.js:936-940 | in a line without spaces, character `i` has colour `i mod 6` |
| Completion.Words | terminal.js:386 | the input line always has at least one word |
| Completion.ReplaceLastWordKeepsHead | terminal.js:442-443 | the last word is a suffix of the line; replacing it keeps everything in front of it |
| Completion.ReplaceLastWordWords | terminal.js:457-458 | replacing the last word by one without spaces keeps the other words, and the new word becomes the last |
| Completion.CommandCandidates | terminal.js:397-400 | a name is a candidate iff it is a registry key that starts with the prefix |
| Completion.PathTarget | terminal.js:403-419 | the word splits at its last `/` into a base and a filter without `/`. The directory is `/` for an empty left part, the left part when absolute, otherwise the left part resolved against `cwd`. With no `/`, the filter is the word and `cwd` is listed |
| Completion.Matching | terminal.js:424-425 | an entry is kept iff its name starts with the filter |
| Completion.QualifyShape | terminal.js:426-431 | a hit is the base plus the name, and it ends in `/` exactly when it is a directory |
| Completion.QualifyAll | terminal.js:426-431 | every hit is requalified, in listing order |
| Completion.PathCandidates | terminal.js:401-435 | a directory that cannot be listed gives no candidates. Otherwise a string is a candidate iff it is the base plus the name of a listed entry whose name starts with the filter, with `/` added for a directory. Every candidate starts with the word |
| Completion.CandidatesExtendWord | terminal.js:392-436 | in both modes every candidate starts with the word under completion |
| Completion.CommonPrefix2 | terminal.js:452-454 | the result is a prefix of both strings and cannot be extended by one more common character |
| Completion.CommonPrefix2Greatest | terminal.js:452-454 | every common prefix of two strings is a prefix of `CommonPrefix2` |
| Completion.LongestCommonPrefix | terminal.js:449-455 | the fold is a prefix of every candidate |
| Completion.LongestCommonPrefixGreatest | terminal.js:449-455 | every common prefix of all candidates is a prefix of the fold, so it is the longest one |
| Completion.CommonPrefix | terminal.js:450-455 | the source's shrinking loop ends with exactly the longest common prefix |
| Completion.PrefixExtendsWord | terminal.js:456-459 | with at least one candidate, the common prefix extends the word under completion |
| Completion.CommandCandidatesNarrow | terminal.js:397-400 | narrowing the prefix to one that all candidates already share keeps the same candidates in the same order |
| Completion.CommandCompletionStable | terminal.js:392-459 | in command mode with several candidates, the line after Tab is still in command mode, gives the same candidates, and its last word is their common prefix: a second Tab changes nothing |
| Completion.MobileTarget | terminal.js:1071-1093 | mobile split at the last `/`: the filter has no `/`; base plus filter is the word (unless it starts with `//`); a word without `/` lists `cwd` or `/home/user` |
| Completion.MobileTargetDoubleSlash | terminal.js:1075-1080 | the word `//e` lists `/` with base `/`, so hits lose one slash |
| Completion.MobileFileCandidates | terminal.js:1069-1103 | an unlistable directory gives nothing. Otherwise a string is a hit iff it is the base plus the name of a listed entry (hidden ones included) whose name starts with the filter, with `/` for a directory. Every hit starts with the word, unless the word starts with `//` |
| Completion.MobileCandidates | terminal.js:1049-1103 | an empty last word gives no candidates. For a one-word line, a string is a candidate iff it is a registry key starting with the lower-cased word or a file candidate. After the first word, only file candidates are offered |
| Terminal.OlderIndex | terminal.js:358-366 | Up keeps the cursor in range and moves it by at most one place, to an older entry |
| Terminal.NewerIndex | terminal.js:367-376 | Down moves to the next newer entry or to no selection (`-1`), and stays there |
| Terminal.NewerUndoesOlder | terminal.js:358-376 | Down undoes Up wherever Up moved, and Up undoes Down wherever Down moved |
| Terminal.OlderTimes | terminal.js:361-366 | any number of Up presses keeps the cursor in range |
| Terminal.OlderTimesFromNone | terminal.js:361-366 | `k` presses of Up from `i` select `i + k`, or the oldest entry once that is reached |
| Terminal.MobileStep | terminal.js:1033-1044 | mobile Up or Down moves the cursor by one, clamped to `[0, n]`, and never moves it while the history is empty |
| Terminal.MobileUpTimes | terminal.js:1033-1044 | any number of mobile Up presses keeps the cursor in range |
| Terminal.MobileUpTimesFrom | terminal.js:1036-1039 | `k` mobile Up presses from `i` reach `i - k`, and stop at `0` |
| Terminal.DetachedListIsPermanent | terminal.js:313-318 | as written: once the screen was cleared under a shown list, no later event ever shows a list again |
| Terminal.ListLostAfterClear | terminal.js:570-573 | as written: Tab with two candidates, Ctrl+L, typing, then Tab again shows no second list |
| Terminal.StepList | terminal.js:313-318 | corrected: removing the list and clearing the screen both drop it; a Tab with several candidates shows a list only when none is shown |
| Terminal.ListShownAfterClear | terminal.js:461-470 | corrected: whatever came before, a clear or a removal followed by a Tab with several candidates shows their list |
| Terminal.TabKeepsHead | terminal.js:438-459 | a Tab press keeps everything in front of the last word, and the result starts with the old line |
| Terminal.DesktopTerminal.constructor | terminal.js:19-22 | empty history, no selection, no list |
| Terminal.DesktopTerminal.Initialize | terminal.js:234-243 | the history is loaded, nothing is selected, the screen and the list are cleared |
| Terminal.DesktopTerminal.NavigateOlder | terminal.js:358-366 | the cursor moves as `OlderIndex`; the line shows the selected entry when the cursor moved, and nothing else changes |
| Terminal.DesktopTerminal.NavigateNewer | terminal.js:367-376 | the cursor moves as `NewerIndex`; the line shows the newer entry, or empties when leaving the newest |
| Terminal.DesktopTerminal.Enter | terminal.js:323-339 | the command is the trimmed line; only a non-blank one is recorded and reloads the history. The cursor resets, the list goes, the interrupt flag is cleared, and a fresh empty line follows |
| Terminal.DesktopTerminal.Tab | terminal.js:384-472 | corrected (see Left out): the line becomes `TabResult` of the candidates. A unique hit removes the list; several show it only if none is shown. History and cursor are kept |
| Terminal.DesktopTerminal.CtrlC | terminal.js:474-490 | the frozen line is the prompt plus the input; the interrupt flag is raised, the list goes, and a fresh line starts |
| Terminal.DesktopTerminal.ClearScreen | terminal.js:570-573 | corrected (see Left out): the screen and the list are cleared, the line is empty, and the history cursor is kept |
| Terminal.DesktopTerminal.Edit | terminal.js:302-304 | typing replaces the line and removes the list |
| Terminal.MobileTerminal.constructor | terminal.js:19-20 | empty history and cursor `-1` |
| Terminal.MobileTerminal.Enter | terminal.js:951-972 | the trimmed command is echoed. A blank one stops there. Otherwise it is appended to the history with the cursor past the end. `clear` empties the output; any other command is dispatched with the interrupt flag reset |
| Terminal.MobileTerminal.Navigate | terminal.js:1033-1047 | the cursor moves as `MobileStep`; the field shows that entry, or empties at the end |
| Terminal.MobileTerminal.Tab | terminal.js:1049-1112 | a unique candidate replaces the last word with no space added; several are echoed and listed in the output; none changes nothing |
| Terminal.MobileTerminal.CtrlC | terminal.js:1114-1123 | the interrupt flag is raised; with no running command the line is echoed and the field emptied |
| MusicPlayer.NextIndex | music-player.js:235 | the next index stays in range and wraps from the last track to the first |
| MusicPlayer.PrevIndex | music-player.js:254 | the previous index stays in range and wraps from the first track to the last |
| MusicPlayer.PrevNext | music-player.js:235-254 | previous undoes next and next undoes previous |
| MusicPlayer.NextTimes | music-player.js:235 | any number of next presses stays in range |
| MusicPlayer.NextTimesAdd | music-player.js:235 | `a` presses then `b` presses equal `a + b` presses |
| MusicPlayer.NextTimesForward | music-player.js:235 | short of the end of the playlist, `k` presses move `k` places on |
| MusicPlayer.NextTimesFullCircle | music-player.js:235 | `n` presses of next on an `n`-track playlist return to the starting track |
| MusicPlayer.FormatTimeFields | music-player.js:99-104 | the display is the minutes, one colon, then the seconds padded to two digits |
| MusicPlayer.FormatTimeRoundTrip | music-player.js:99-104 | the seconds field has two characters, reading the display back gives the time, and `NaN` shows like 0 |
| MusicPlayer.TrackNumber | music-player.js:149 | the label number has at least two digits, reads back as index + 1, and has exactly two below 99 |
| MusicPlayer.PlaylistLabelInjective | music-player.js:149 | two labels are equal only for the same position and title |
| MusicPlayer.Player.constructor | music-player.js:12-15 | the built-in playlist, track 0, not playing, shuffle and repeat off |
| MusicPlayer.Player.SetPlaylist | music-player.js:82-93 | only a non-empty array replaces the playlist and resets the index to 0; anything else changes nothing. The call throws exactly when it installs a playlist while the player is displayed, after the playlist and index have changed |
| MusicPlayer.Player.Start | music-player.js:163-196 | loading the track sets the position back to 0; playback starts when the track loaded; the playlist, the index and the flags are kept |
| MusicPlayer.Player.NextTrack | music-player.js:227-244 | under shuffle with several tracks the index changes; otherwise it is `NextIndex`. The new track starts at position 0 and plays when it loaded |
| MusicPlayer.Player.PrevTrack | music-player.js:246-263 | under shuffle with several tracks the index changes; otherwise it is `PrevIndex`. The new track starts at position 0 and plays when it loaded |
| MusicPlayer.Player.SelectTrack | music-player.js:150-154 | a clicked entry becomes current, starts at position 0 and plays when it loaded |
| MusicPlayer.Player.ToggleShuffle | music-player.js:265-270 | the shuffle flag flips; nothing else changes |
| MusicPlayer.Player.ToggleRepeat | music-player.js:272-277 | the repeat flag flips; nothing else changes |
| MusicPlayer.Player.Ended | music-player.js:546-553 | under repeat the same track restarts from 0 and plays. Otherwise it moves on as next does: the new track starts at 0 and plays when it loaded |
| MusicPlayer.ToggleTwiceRestores | music-player.js:227-277 | toggling twice restores the flags, and next then previous without shuffle restores the track |
| Taskbar.Hour12 | taskbar.js:178-179 | the dial hour is between 1 and 12 and agrees with the hour modulo 12 |
| Taskbar.To24Inverts | taskbar.js:177-179 | the 12-hour value and the AM/PM suffix determine the hour of the day |
| Taskbar.PaddedHour | taskbar.js:180 | the space-padded hour field is two characters and reads back as the hour |
| Taskbar.ClockTextFields | taskbar.js:174-180 | the clock text has eleven characters, and its hour, minute, second and suffix fields read back |
| Taskbar.ClockTextShape | taskbar.js:174-180 | the clock text has eleven characters, colons at 2 and 5, a space at 8, and ends in AM iff the hour is before noon |
| Taskbar.ClockTextRoundTrip | taskbar.js:174-180 | reading the clock text back gives the hour, minute and second it was made from |
| Taskbar.Bar.constructor | taskbar.js:13-29 | no callbacks, matrix enabled, no clock, no taskbar |
| Taskbar.Bar.SetCallbacks | taskbar.js:32-37 | each window callback is kept when truthy, stored as `null` otherwise; nothing else changes |
| Taskbar.Bar.SetMatrixCallbacks | taskbar.js:40-43 | the matrix callbacks are stored the same way; nothing else changes |
| Taskbar.Bar.UpdateMatrixButtonState | taskbar.js:58-64 | with the button and the running callback present, the cached value and the label follow what the callback gives; otherwise nothing changes |
| Taskbar.Bar.ToggleMatrixRain | taskbar.js:49-56 | the toggle callback runs iff it is set, and the button is refreshed |
| Taskbar.Bar.IsMatrixEnabled | taskbar.js:66-71 | the running callback's answer when it is set, the cached value otherwise |
| Taskbar.Bar.UpdateButtonStates | taskbar.js:203-221 | an existing button is active iff its visibility callback is set and answers truthy |
| Taskbar.Bar.UpdateClock | taskbar.js:170-183 | the time display becomes the clock text |
| Taskbar.Bar.StartClock | taskbar.js:165-168 | the time is shown immediately and the interval is kept |
| Taskbar.Bar.StopClock | taskbar.js:192-197 | the running interval is handed back and forgotten; without one nothing happens |
| Taskbar.Bar.Create | taskbar.js:77-159 | the taskbar is shown, the matrix button reads ON, the clock runs, and the buttons are marked |
| Taskbar.Bar.Destroy | taskbar.js:279-285 | the clock is stopped and the taskbar and the buttons found by id are removed |
| Taskbar.StopClockTwice | taskbar.js:192-197 | the second stop finds nothing to clear |
| TerminalKit.DefaultPlaylistValue | index.js:49-58 | the default configuration's playlist is an array as long as the built-in playlist |
| TerminalKit.MergeConfig | index.js:97-107 | the merged configuration has exactly the keys of the defaults and of the caller |
| TerminalKit.MergeConfigTopLevel | index.js:97 | a top-level entry the caller gives wins; a default the caller leaves out survives |
| TerminalKit.MergeOptionsEntries | index.js:100-102 | inside an object option group the caller's entries win and the other defaults survive; a falsy group keeps the defaults |
| TerminalKit.MergeConfigGroups | index.js:99-102 | each option group of the result is the merge of that group |
| TerminalKit.MergeConfigEmpty | index.js:60-107 | an empty configuration yields exactly the defaults |
| TerminalKit.PlaylistStepRedundant | index.js:104-107 | the merged playlist is the caller's whenever one is given, and the default otherwise |
| TerminalKit.StartsHiddenIff | index.js:156-168 | hidden iff the saved visibility exists and is false, or none is saved and `autoShow` is false |
| TerminalKit.DefaultVisibility | index.js:60-82 | with the defaults and nothing saved, the terminal shows and the music player starts hidden |
| TerminalKit.InitEffectsConditions | index.js:111-198 | the matrix callbacks are set iff taskbar and matrix are on; each window is hidden iff it is created and the rule says so |
| TerminalKit.InitEffectsOrder | index.js:116-203 | with the taskbar on, callbacks are set before it is built, and the button states are refreshed last |
| TerminalKit.Kit.constructor | index.js:84 | not yet initialised |
| TerminalKit.Kit.Init | index.js:91-207 | the first call stores the merged configuration and emits the effects in order; later calls change nothing |
| TerminalKit.WindowStack.constructor | index.js:28 | all counters start at 10000 |
| TerminalKit.WindowStack.RaiseTerminal | terminal.js:763-766 | the terminal's counter goes up by one and the window takes it |
| TerminalKit.WindowStack.RaiseMusic | music-player.js:641-644 | the player's counter goes up by one and the window takes it |
| TerminalKit.WindowStack.Sync | index.js:30-39 | the shared value becomes the maximum of the three counters, and both modules continue from it |
| TerminalKit.Max3 | index.js:33 | the maximum is at least each argument and equals one of them |
| TerminalKit.RaiseAfterSync | index.js:30-42 | after a sync, the window raised next is strictly above the other |

## Left out

- Documents, elements, styles, scrolling, focus, dragging and resizing are not modelled; the DOM is represented only by the state it holds (the line, the list, the output, the button labels and marks).
- `localStorage` and the saved visibilities are not modelled; what they give is a parameter.
- The command registry, `resolvePath`, `listDirectory`, `addToHistory` and `getCurrentHistory` belong to `filesystem.js` and `commands.js`, which are not part of this model; they are parameters. The desktop history order (newest first) is taken from how the terminal indexes it.
- Command execution is not modelled: argument parsing, the command context, `waitKey`'s listener lifetime and promise, and the running flag are left out; only the key filter is modelled.
- The desktop and mobile terminals share one `commandHistory` and one `historyIndex` in the source. The model gives each its own, so the interplay of the two cursors is not captured.
- After the mobile `clear` the prompt is redrawn; the prompt is a parameter here.
- Audio, the visualizer, play, pause, stop, seeking, volume and the `loadedmetadata` time display are not modelled; whether loading succeeds is a parameter.
- MusicPlayer.Player.SetPlaylist: the source then calls `updateSongDisplay`, which no file of the kit defines, so the call fails with a `ReferenceError` once the player is displayed. The model records this failure as the result `threw`, keeping the playlist and index changes made before it. The playlist rendering (`populatePlaylist`) and the song display are DOM work and are not modelled.
- MusicPlayer.Player.Start: when `play()` fails asynchronously, the source resets `isPlaying`; that later failure is not modelled.
- MusicPlayer.Player.NextTrack: shuffle is a nondeterministic choice of a different index; the random draw and the retry loop until it differs are not modelled.
- MusicPlayer.FormatTimeRoundTrip: seconds are whole and non-negative, and `NaN` is `None`; fractional seconds and the source's `Math.floor` are not modelled.
- MusicPlayer.Player.SetPlaylist: the argument is an optional sequence, with `None` standing for a value that is not an array; array-like values are not distinguished.
- `matrix-rain.js` is not part of this model; its toggle and running callbacks give parameters.
- Dates are not modelled: the date display and the locale formatting of `toLocaleDateString`.
- Taskbar app buttons (`addTaskbarApp`, `removeTaskbarApp`, `setTaskbarAppActive`) and showing and hiding the taskbar are not modelled.
- JsValues.Props: a spread of a string or an array contributes their indices as keys in JavaScript; here they contribute nothing (the kit spreads only objects or `{}`).
- Prompt.FilterKeyAccepts: a key name's length is counted in UTF-16 code units, as JavaScript counts it (`Strings.Utf16Length`). Unpaired surrogates cannot occur in a Dafny string and are not modelled.
- Prompt.LolcatLine: the line is walked one Unicode character at a time, whereas the source walks UTF-16 code units. So a character outside the Basic Multilingual Plane is one span with one colour step here, but two half-character spans and two colour steps in the source.
- Prompt.LolcatText: same as `Prompt.LolcatLine`, for every line.
- Prompt.PromptText: uses the corrected `Prompt.DisplayPath` (see Findings). With `HOME` = `/home/user` and `/home/user2` as the working directory, the source shows `~2` where the model shows `/home/user2`.
- Prompt.MobilePromptText: uses the corrected `Prompt.DisplayPath`, as `Prompt.PromptText` does.
- Terminal.DesktopTerminal.ClearScreen: uses the corrected `Terminal.StepList` (see Findings). Ctrl+L drops the candidate list, whereas the source keeps a reference to the detached list.
- Terminal.DesktopTerminal.Tab: uses the corrected `Terminal.StepList`. A Tab with several candidates after Ctrl+L shows their list here; the source shows none (`Terminal.ListLostAfterClear`).
- Strings.ToLower: only ASCII letters are lowered; Unicode case mapping is not modelled.
- Numbers in configurations are integers; floating point is not modelled.
- The 50 ms sync timer of the z-index counters is a method call (`WindowStack.Sync`) rather than a timer.

## Findings

| source | as written | input that shows it | evidently intended | confidence | as-written member | corrected member |
|---|---|---|---|---|---|---|
| terminal.js:579-585 | `getDisplayPath` abbreviates any `cwd` that starts with the text of `HOME`, with no check that a `/` follows | `HOME` = `/home/user`, `CWD` = `/home/user2`: the prompt shows `~2` | only the home directory and paths below it become `~…` | not executed | Prompt.DisplayPathAsWrittenMisleads | Prompt.DisplayPathRoundTrip |
| terminal.js:570-573 | `clearTerminal` empties the screen but leaves `tabCompletionElement` set. `removeTabCompletion` acts only while the element has a parent, so the reference is never dropped, and `handleTabCompletion` then never shows a list again | Tab with two candidates, Ctrl+L, typing, Tab with two candidates: no list appears | clearing the screen drops the list, so a later Tab shows it | not executed | Terminal.ListLostAfterClear | Terminal.ListShownAfterClear |

The rest of the model uses the corrected definitions:
- the prompts use `Prompt.DisplayPath`;
- `Terminal.DesktopTerminal` keeps its list with `Terminal.StepList`.
