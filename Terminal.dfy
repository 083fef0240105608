/** The input-line engine of the terminal: the history cursor, the Enter, Tab,
    Ctrl+C and Ctrl+L keys and the candidate list shown under the line, for the
    desktop window and for the mobile overlay. The history store, command
    execution and the DOM are not part of this model: the store's contents after an
    entry is added are passed in, and the prompt text is a parameter. */
module Terminal {
  import opened Wrappers
  import opened Strings
  import opened Completion

  // ---------------------------------------------------------------------------
  // The desktop history cursor
  // ---------------------------------------------------------------------------

  /** Arrow Up on the desktop: the history is newest first and `-1` means no
      selection; the cursor moves to the next older entry and stays at the oldest. */
  function OlderIndex(i: int, n: nat): (r: int)
    requires -1 <= i < n
    ensures -1 <= r < n
    ensures n > 0 ==> i <= r <= i + 1
  {
    if n == 0 then i else if i < n - 1 then i + 1 else i
  }

  /** Arrow Down on the desktop: the cursor moves to the next newer entry; from the
      newest it goes back to no selection, where it stays. */
  function NewerIndex(i: int, n: nat): (r: int)
    requires -1 <= i < n
    ensures -1 <= r < n
    ensures r == if i >= 0 then i - 1 else -1
  {
    if n == 0 then i else if i > 0 then i - 1 else if i == 0 then -1 else i
  }

  /** Down undoes Up wherever Up moved, and Up undoes Down wherever Down moved. */
  lemma NewerUndoesOlder(i: int, n: nat)
    requires -1 <= i < n
    ensures i < n - 1 ==> NewerIndex(OlderIndex(i, n), n) == i
    ensures i >= 0 ==> OlderIndex(NewerIndex(i, n), n) == i
  {
  }

  /** `k` presses of Up. */
  function OlderTimes(i: int, n: nat, k: nat): (r: int)
    requires -1 <= i < n
    ensures -1 <= r < n
    decreases k
  {
    if k == 0 then i else OlderTimes(OlderIndex(i, n), n, k - 1)
  }

  /** From no selection, `k` presses of Up select entry `min(k, n) - 1`: the most
      recent entry first, then strictly older ones, then the oldest again and again. */
  lemma {:induction false} OlderTimesFromNone(n: nat, k: nat, i: int)
    requires -1 <= i < n
    ensures OlderTimes(i, n, k) == if i + k < n then i + k else n - 1
  {
    if k > 0 {
      OlderTimesFromNone(n, k - 1, OlderIndex(i, n));
    }
  }

  // ---------------------------------------------------------------------------
  // The mobile history cursor
  // ---------------------------------------------------------------------------

  /** The mobile convention: the history is oldest first, the cursor runs from `0`
      to `n`, and `n` means no selection. The cursor starts as `-1` before anything
      is entered. */
  predicate MobileCursorOk(i: int, n: nat)
  {
    (0 <= i <= n) || (n == 0 && i == -1)
  }

  /** One press of Up (`-1`) or Down (`+1`) on the mobile terminal, clamped to
      `[0, n]`; nothing moves while the history is empty. */
  function MobileStep(i: int, n: nat, d: int): (r: int)
    requires MobileCursorOk(i, n)
    requires d == -1 || d == 1
    ensures MobileCursorOk(r, n)
    ensures n > 0 ==> r == if i + d < 0 then 0 else if i + d > n then n else i + d
  {
    if n == 0 then i
    else if i + d < 0 then 0
    else if i + d >= n then n
    else i + d
  }

  /** `k` presses of Up on the mobile terminal. */
  function MobileUpTimes(i: int, n: nat, k: nat): (r: int)
    requires MobileCursorOk(i, n)
    ensures MobileCursorOk(r, n)
    decreases k
  {
    if k == 0 then i else MobileUpTimes(MobileStep(i, n, -1), n, k - 1)
  }

  /** From no selection, `k` presses of Up on the mobile terminal reach entry
      `n - k`, and stop at the oldest entry `0`. */
  lemma {:induction false} MobileUpTimesFrom(n: nat, k: nat, i: int)
    requires 0 <= i <= n && n > 0
    ensures MobileUpTimes(i, n, k) == if i >= k then i - k else 0
  {
    if k > 0 {
      MobileUpTimesFrom(n, k - 1, MobileStep(i, n, -1));
    }
  }

  // ---------------------------------------------------------------------------
  // The candidate list under the input line
  // ---------------------------------------------------------------------------

  /** The candidate list as the source keeps it: a reference to an element that is
      attached under the input line, or still referenced after the screen was
      cleared away from under it. */
  datatype ListElement = NoList | Attached(text: string) | Detached(text: string)

  /** What happens to the list: it is removed (typing, Enter, Ctrl+C, a unique
      completion), the screen is cleared (Ctrl+L), or a Tab press with several
      candidates asks for it to be shown. */
  datatype ListEvent = Remove | Clear | Show(text: string)

  /** The source's handling: removal only acts on an attached element, clearing the
      screen detaches the element but keeps the reference, and a list is shown only
      while there is no reference. */
  function StepAsWritten(l: ListElement, e: ListEvent): ListElement
  {
    match e
    case Remove => if l.Attached? then NoList else l
    case Clear => if l.Attached? then Detached(l.text) else l
    case Show(text) => if l.NoList? then Attached(text) else l
  }

  function ReplayAsWritten(l: ListElement, es: seq<ListEvent>): ListElement
    decreases |es|
  {
    if es == [] then l else ReplayAsWritten(StepAsWritten(l, es[0]), es[1..])
  }

  /** Once the screen has been cleared under a shown list, no later event ever
      shows a candidate list again. */
  lemma {:induction false} DetachedListIsPermanent(l: ListElement, es: seq<ListEvent>)
    requires l.Detached?
    ensures ReplayAsWritten(l, es) == l
    decreases |es|
  {
    if es != [] {
      DetachedListIsPermanent(StepAsWritten(l, es[0]), es[1..]);
    }
  }

  /** Tab with two candidates, Ctrl+L, typing, Tab with two candidates again: the
      second list never appears. */
  lemma ListLostAfterClear()
    ensures ReplayAsWritten(NoList, [Show("help  history"), Clear, Remove, Show("ls  pwd")]) == Detached("help  history")
  {
    var es := [Show("help  history"), Clear, Remove, Show("ls  pwd")];
    assert es[1..] == [Clear, Remove, Show("ls  pwd")];
    DetachedListIsPermanent(Detached("help  history"), es[2..]);
  }

  /** The intended handling: the list is `Some(text)` exactly while it is on the
      screen; removal and clearing both drop it. */
  function StepList(l: Option<string>, e: ListEvent): (r: Option<string>)
    ensures e.Remove? || e.Clear? ==> r == None
    ensures e.Show? ==> r == if l.None? then Some(e.text) else l
  {
    match e
    case Remove => None
    case Clear => None
    case Show(text) => if l.None? then Some(text) else l
  }

  function ReplayList(l: Option<string>, es: seq<ListEvent>): Option<string>
    decreases |es|
  {
    if es == [] then l else ReplayList(StepList(l, es[0]), es[1..])
  }

  lemma {:induction false} ReplayListAppend(l: Option<string>, es: seq<ListEvent>, fs: seq<ListEvent>)
    ensures ReplayList(l, es + fs) == ReplayList(ReplayList(l, es), fs)
    decreases |es|
  {
    if es != [] {
      assert (es + fs)[1..] == es[1..] + fs;
      ReplayListAppend(StepList(l, es[0]), es[1..], fs);
    } else {
      assert es + fs == fs;
    }
  }

  /** Whatever happened before, clearing the screen (or removing the list) and then
      pressing Tab with several candidates shows their list. */
  lemma ListShownAfterClear(l: Option<string>, es: seq<ListEvent>, text: string)
    ensures ReplayList(l, es + [Clear, Show(text)]) == Some(text)
    ensures ReplayList(l, es + [Remove, Show(text)]) == Some(text)
  {
    var m := ReplayList(l, es);
    assert [Show(text)][1..] == [];
    assert ReplayList(None, [Show(text)]) == Some(text);
    ReplayListAppend(l, es, [Clear, Show(text)]);
    assert [Clear, Show(text)][1..] == [Show(text)];
    assert ReplayList(m, [Clear, Show(text)]) == ReplayList(None, [Show(text)]);
    ReplayListAppend(l, es, [Remove, Show(text)]);
    assert [Remove, Show(text)][1..] == [Show(text)];
    assert ReplayList(m, [Remove, Show(text)]) == ReplayList(None, [Show(text)]);
  }

  // ---------------------------------------------------------------------------
  // The desktop terminal
  // ---------------------------------------------------------------------------

  /** What a Tab press makes of the line: a unique candidate replaces the last word
      (followed by a space when the line is a single word); several candidates
      replace it by their common prefix when that is longer; no candidate leaves
      the line alone. */
  function TabResult(line: string, cs: seq<string>): string
  {
    if |cs| == 1 then ReplaceLastWord(line, cs[0]) + (if |Words(line)| == 1 then " " else "")
    else if |cs| > 1 && |LongestCommonPrefix(cs)| > |LastWord(line)| then ReplaceLastWord(line, LongestCommonPrefix(cs))
    else line
  }

  /** A Tab press only rewrites the last word: everything in front of it is kept,
      and the new last word begins with the old one. */
  lemma TabKeepsHead(line: string, keys: seq<string>, cwd: string, resolve: Resolver, list: Lister)
    ensures |LastWord(line)| <= |line| &&
      var head := line[..|line| - |LastWord(line)|];
      var r := TabResult(line, Candidates(line, keys, cwd, resolve, list));
      head + LastWord(line) == line && head + LastWord(line) <= r
  {
    var cs := Candidates(line, keys, cwd, resolve, list);
    var w := LastWord(line);
    CandidatesExtendWord(line, keys, cwd, resolve, list);
    if |cs| == 1 {
      ReplaceLastWordKeepsHead(line, cs[0]);
      assert cs[0] in cs;
    } else if |cs| > 1 && |LongestCommonPrefix(cs)| > |w| {
      ReplaceLastWordKeepsHead(line, LongestCommonPrefix(cs));
      PrefixExtendsWord(line, keys, cwd, resolve, list);
    } else {
      ReplaceLastWordKeepsHead(line, w);
    }
  }

  class DesktopTerminal {
    /** The history, most recent entry first, as the history store gives it. */
    var history: seq<string>
    /** The history cursor: `-1` is no selection, `0` the most recent entry. */
    var index: int
    /** The text of the current input line. */
    var input: string
    /** The candidate list shown under the line, if any. */
    var completionList: Option<string>
    /** The interrupt flag read by running commands. */
    var interrupted: bool

    ghost predicate Valid()
      reads this
    {
      -1 <= index < |history|
    }

    constructor ()
      ensures Valid()
      ensures history == [] && index == -1 && input == "" && completionList == None && !interrupted
    {
      history, index, input := [], -1, "";
      completionList, interrupted := None, false;
    }

    /** Start-up: the history is loaded from the store, nothing is selected and the
        screen is cleared for a fresh input line. */
    method Initialize(stored: seq<string>)
      modifies this
      ensures Valid()
      ensures history == stored && index == -1 && input == ""
      ensures completionList == StepList(old(completionList), Clear)
      ensures interrupted == old(interrupted)
    {
      history, index, input := stored, -1, "";
      completionList := StepList(completionList, Clear);
    }

    /** Arrow Up. */
    method NavigateOlder()
      requires Valid()
      modifies this
      ensures Valid()
      ensures history == old(history) && completionList == old(completionList) && interrupted == old(interrupted)
      ensures index == OlderIndex(old(index), |history|)
      ensures input == if index != old(index) then history[index] else old(input)
    {
      if |history| == 0 {
        return;
      }
      if index < |history| - 1 {
        index := index + 1;
        input := history[index];
      }
    }

    /** Arrow Down. */
    method NavigateNewer()
      requires Valid()
      modifies this
      ensures Valid()
      ensures history == old(history) && completionList == old(completionList) && interrupted == old(interrupted)
      ensures index == NewerIndex(old(index), |history|)
      ensures input == if old(index) > 0 then history[index] else if old(index) == 0 then "" else old(input)
    {
      if |history| == 0 {
        return;
      }
      if index > 0 {
        index := index - 1;
        input := history[index];
      } else if index == 0 {
        index := -1;
        input := "";
      }
    }

    /** Enter: the trimmed line is the command to run; a non-blank one is handed to
        the history store, whose new contents `stored` become the history. The
        cursor goes back to no selection, the interrupt flag is reset for the run,
        and the run ends with a fresh, empty input line. */
    method Enter(stored: seq<string>) returns (command: string, recorded: Option<string>)
      modifies this
      ensures Valid()
      ensures command == Trim(old(input))
      ensures recorded == if command == "" then None else Some(command)
      ensures history == if command == "" then old(history) else stored
      ensures index == -1 && input == ""
      ensures completionList == StepList(old(completionList), Remove) && !interrupted
    {
      completionList := StepList(completionList, Remove);
      command := Trim(input);
      if command != "" {
        recorded := Some(command);
        history := stored;
      } else {
        recorded := None;
      }
      index := -1;
      interrupted := false;
      input := "";
    }

    /** Tab. */
    method Tab(keys: seq<string>, cwd: string, resolve: Resolver, list: Lister)
      requires Valid()
      modifies this
      ensures Valid()
      ensures history == old(history) && index == old(index) && interrupted == old(interrupted)
      ensures var cs := Candidates(old(input), keys, cwd, resolve, list);
        input == TabResult(old(input), cs) &&
        completionList == if |cs| == 0 then old(completionList)
                          else if |cs| == 1 then StepList(old(completionList), Remove)
                          else StepList(old(completionList), Show(JoinWith(cs, "  ")))
    {
      var cs := Candidates(input, keys, cwd, resolve, list);
      var line := input;
      if |cs| == 1 {
        completionList := StepList(completionList, Remove);
        input := ReplaceLastWord(line, cs[0]);
        if |Words(line)| == 1 {
          input := input + " ";
        }
      } else if |cs| > 1 {
        var common := CommonPrefix(cs);
        if |common| > |LastWord(line)| {
          input := ReplaceLastWord(line, common);
        }
        if completionList == None {
          completionList := Some(JoinWith(cs, "  "));
        }
      }
    }

    /** Ctrl+C: the list goes, the interrupt flag is raised for a running command,
        the line is frozen on screen as `prompt` plus its text, and a fresh input
        line follows. The history cursor is left where it was. */
    method CtrlC(prompt: string) returns (frozen: string)
      requires Valid()
      modifies this
      ensures Valid()
      ensures frozen == prompt + old(input)
      ensures input == "" && interrupted
      ensures completionList == StepList(old(completionList), Remove)
      ensures history == old(history) && index == old(index)
    {
      completionList := StepList(completionList, Remove);
      interrupted := true;
      frozen := prompt + input;
      input := "";
    }

    /** Ctrl+L: the screen is emptied and a fresh input line created; the list goes
        with the screen. */
    method ClearScreen()
      requires Valid()
      modifies this
      ensures Valid()
      ensures input == "" && completionList == StepList(old(completionList), Clear)
      ensures history == old(history) && index == old(index) && interrupted == old(interrupted)
    {
      completionList := StepList(completionList, Clear);
      input := "";
    }

    /** Typing into the line: the new text replaces the old and the list goes. */
    method Edit(text: string)
      requires Valid()
      modifies this
      ensures Valid()
      ensures input == text && completionList == StepList(old(completionList), Remove)
      ensures history == old(history) && index == old(index) && interrupted == old(interrupted)
    {
      input := text;
      completionList := StepList(completionList, Remove);
    }
  }

  /** A walk through the history `ls`, `pwd` (entered in that order):
      Up gives `pwd`, Up gives `ls`, Up stays at `ls`, Down gives `pwd` back and Down
      again clears the line. */
  method HistoryWalk()
  {
    var t := new DesktopTerminal();
    t.Initialize(["pwd", "ls"]);
    t.NavigateOlder();
    assert t.input == "pwd";
    t.NavigateOlder();
    assert t.input == "ls";
    t.NavigateOlder();
    assert t.input == "ls" && t.index == 1;
    t.NavigateNewer();
    assert t.input == "pwd";
    t.NavigateNewer();
    assert t.input == "" && t.index == -1;
  }

  // ---------------------------------------------------------------------------
  // The mobile terminal
  // ---------------------------------------------------------------------------

  class MobileTerminal {
    /** The history, oldest entry first. */
    var history: seq<string>
    /** The history cursor: `|history|` is no selection. */
    var index: int
    /** The text of the input field. */
    var input: string
    /** The texts appended to the output area, in order. */
    var output: seq<string>
    /** The interrupt flag read by running commands. */
    var interrupted: bool

    ghost predicate Valid()
      reads this
    {
      MobileCursorOk(index, |history|)
    }

    constructor ()
      ensures Valid()
      ensures history == [] && index == -1 && input == "" && output == [] && !interrupted
    {
      history, index, input, output := [], -1, "", [];
      interrupted := false;
    }

    /** Enter: the field is emptied and the trimmed command echoed after the prompt;
        a blank command stops there. Otherwise it is appended to the history and the
        cursor moves past the end. `clear` (in any letter case) then empties the
        output area; any other command goes on to run, with the interrupt flag
        reset. */
    method Enter(prompt: string) returns (dispatched: Option<string>)
      requires Valid()
      modifies this
      ensures Valid()
      ensures input == ""
      ensures Trim(old(input)) == "" ==>
        history == old(history) && index == old(index) && dispatched == None &&
        output == old(output) + [prompt + Trim(old(input))] && interrupted == old(interrupted)
      ensures Trim(old(input)) != "" ==> history == old(history) + [Trim(old(input))] && index == |history|
      ensures Trim(old(input)) != "" && ToLower(Trim(old(input))) == "clear" ==>
        output == [] && dispatched == None && interrupted == old(interrupted)
      ensures Trim(old(input)) != "" && ToLower(Trim(old(input))) != "clear" ==>
        output == old(output) + [prompt + Trim(old(input))] && dispatched == Some(Trim(old(input))) && !interrupted
    {
      var command := Trim(input);
      input := "";
      output := output + [prompt + command];
      if command == "" {
        return None;
      }
      history := history + [command];
      index := |history|;
      if ToLower(command) == "clear" {
        output := [];
        return None;
      }
      interrupted := false;
      dispatched := Some(command);
    }

    /** The Up (`-1`) and Down (`+1`) buttons and arrow keys. Reaching the end
        clears the field; any other position shows that entry. */
    method Navigate(direction: int)
      requires Valid()
      requires direction == -1 || direction == 1
      modifies this
      ensures Valid()
      ensures history == old(history) && output == old(output) && interrupted == old(interrupted)
      ensures index == MobileStep(old(index), |history|, direction)
      ensures input == if |history| == 0 then old(input) else if index == |history| then "" else history[index]
    {
      if |history| == 0 {
        return;
      }
      index := index + direction;
      if index < 0 {
        index := 0;
      } else if index >= |history| {
        index := |history|;
        input := "";
        return;
      }
      input := history[index];
    }

    /** Tab: a unique candidate replaces the last word (no space is added); several
        candidates are listed in the output under an echo of the line. */
    method Tab(prompt: string, keys: seq<string>, cwd: string, resolve: Resolver, list: Lister)
      requires Valid()
      modifies this
      ensures Valid()
      ensures var cs := MobileCandidates(old(input), keys, cwd, resolve, list);
        (|cs| == 1 ==> input == ReplaceLastWord(old(input), cs[0]) && output == old(output)) &&
        (|cs| > 1 ==> input == old(input) && output == old(output) + [prompt + old(input), JoinWith(cs, "  ")]) &&
        (|cs| == 0 ==> input == old(input) && output == old(output))
      ensures history == old(history) && index == old(index) && interrupted == old(interrupted)
    {
      var line := input;
      if LastWord(line) == "" {
        return;
      }
      var cs := MobileCandidates(line, keys, cwd, resolve, list);
      if |cs| == 1 {
        input := ReplaceLastWord(line, cs[0]);
      } else if |cs| > 1 {
        output := output + [prompt + line, JoinWith(cs, "  ")];
      }
    }

    /** The ^C button: the interrupt flag is raised; when no command is running the
        line is echoed after the prompt and the field emptied. */
    method CtrlC(prompt: string, running: bool)
      requires Valid()
      modifies this
      ensures Valid()
      ensures interrupted
      ensures !running ==> output == old(output) + [prompt + old(input)] && input == ""
      ensures running ==> output == old(output) && input == old(input)
      ensures history == old(history) && index == old(index)
    {
      interrupted := true;
      if !running {
        output := output + [prompt + input];
        input := "";
      }
    }
  }
}
