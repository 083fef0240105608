/** The pure helpers of the terminal window: how the working directory is shown
    (`~` for the home directory), the prompt text, the key filter behind the
    `waitKey` primitive offered to interactive commands, and the per-character
    colours of "lolcat" output. */
module Prompt {
  import opened Wrappers
  import opened Strings

  // ---------------------------------------------------------------------------
  // Display path
  // ---------------------------------------------------------------------------

  /** How the source abbreviates the working directory: any `cwd` that merely
      begins with the text of `home` has that text replaced by `~`, with no check
      that a path separator follows; an empty result shows as `~`. */
  function DisplayPathAsWritten(cwd: string, home: string): (r: string)
    ensures r != []
    ensures home <= cwd ==> r == "~" + cwd[|home|..]
    ensures !(home <= cwd) ==> r == (if cwd == "" then "~" else cwd)
  {
    var path := if home <= cwd then "~" + cwd[|home|..] else cwd;
    if path == "" then "~" else path
  }

  /** `cwd` is the home directory itself or lies inside it. */
  predicate InsideHome(cwd: string, home: string)
  {
    home <= cwd && (|cwd| == |home| || cwd[|home|] == '/')
  }

  /** The display path as a shell abbreviates it: only the home directory itself
      and paths below it are shown relative to `~`. */
  function DisplayPath(cwd: string, home: string): (r: string)
    ensures r != []
    ensures InsideHome(cwd, home) ==> r == "~" + cwd[|home|..]
    ensures !InsideHome(cwd, home) && cwd != "" ==> r == cwd
  {
    var path := if InsideHome(cwd, home) then "~" + cwd[|home|..] else cwd;
    if path == "" then "~" else path
  }

  /** Shell tilde expansion of a displayed path: `~` alone or followed by `/` stands
      for `home`; `~` followed by anything else names some other user's home and is
      not expanded. */
  function ExpandTilde(p: string, home: string): string
  {
    if p == "~" || (|p| >= 2 && p[..2] == "~/") then home + p[1..] else p
  }

  /** Expanding the corrected display path of an absolute directory gives that
      directory back. */
  lemma DisplayPathRoundTrip(cwd: string, home: string)
    requires cwd != [] && cwd[0] == '/'
    ensures ExpandTilde(DisplayPath(cwd, home), home) == cwd
  {
    var r := DisplayPath(cwd, home);
    if InsideHome(cwd, home) {
      assert cwd == home + cwd[|home|..];
      if |cwd| > |home| {
        assert r[..2] == "~/";
      }
    } else {
      assert r[0] == '/';
    }
  }

  /** The source's abbreviation shows `/home/user2` as `~2` when the home directory
      is `/home/user`, which a shell reads as the home directory of user `2`: the
      displayed path no longer names the working directory. */
  lemma DisplayPathAsWrittenMisleads()
    ensures DisplayPathAsWritten("/home/user2", "/home/user") == "~2"
    ensures ExpandTilde(DisplayPathAsWritten("/home/user2", "/home/user"), "/home/user") != "/home/user2"
    ensures DisplayPath("/home/user2", "/home/user") == "/home/user2"
  {
    assert "/home/user" <= "/home/user2";
    assert "/home/user2"[10..] == "2";
    assert !InsideHome("/home/user2", "/home/user") by {
      assert "/home/user2"[10] == '2';
    }
  }

  /** The home directory and the paths below it are shown with a leading `~`. */
  lemma DisplayPathAbbreviatesHome(home: string, sub: string)
    requires sub == [] || sub[0] == '/'
    ensures DisplayPath(home + sub, home) == "~" + sub
  {
    assert home <= home + sub;
    assert (home + sub)[|home|..] == sub;
  }

  // ---------------------------------------------------------------------------
  // Prompt
  // ---------------------------------------------------------------------------

  /** The desktop prompt `user@host:path$ `, with `#` instead of `$` for root. */
  function PromptText(user: string, host: string, cwd: string, home: string): (r: string)
    ensures user + "@" + host + ":" + DisplayPath(cwd, home) <= r
    ensures |r| == |user| + |host| + |DisplayPath(cwd, home)| + 4
    ensures r[|r| - 1] == ' '
    ensures r[|r| - 2] == '#' <==> user == "root"
    ensures r[|r| - 2] == '$' <==> user != "root"
  {
    user + "@" + host + ":" + DisplayPath(cwd, home) + (if user == "root" then "#" else "$") + " "
  }

  /** The mobile prompt, which always ends in `$ `, even for root. */
  function MobilePromptText(user: string, host: string, cwd: string, home: string): (r: string)
    ensures |r| >= 4 && |r| == |PromptText(user, host, cwd, home)|
    ensures r[..|r| - 2] == PromptText(user, host, cwd, home)[..|r| - 2]
    ensures r[|r| - 2..] == "$ "
  {
    user + "@" + host + ":" + DisplayPath(cwd, home) + "$ "
  }

  // ---------------------------------------------------------------------------
  // waitKey key filter
  // ---------------------------------------------------------------------------

  /** A keydown event: the `key` string and whether Ctrl was held. */
  datatype KeyPress = KeyPress(key: string, ctrl: bool)

  /** The token the interrupt resolves `waitKey` with. */
  const InterruptToken: string := "CTRL_C"

  /** What `waitKey` resolves with for a key event, or `None` when the event is
      ignored and the wait goes on: Ctrl+C gives the interrupt token; a key whose
      name is one UTF-16 code unit long, Enter and space give the key itself. */
  function FilterKey(e: KeyPress): (r: Option<string>)
  {
    if e.ctrl && e.key == "c" then Some(InterruptToken)
    else if Utf16Length(e.key) == 1 || e.key == "Enter" || e.key == " " then Some(e.key)
    else None
  }

  /** The interrupt token cannot be confused with a key: it is returned exactly for
      Ctrl+C; every other accepted event resolves with its own key name. */
  lemma FilterKeyInterrupt(e: KeyPress)
    ensures FilterKey(e) == Some(InterruptToken) <==> e.ctrl && e.key == "c"
    ensures FilterKey(e).Some? && !(e.ctrl && e.key == "c") ==> FilterKey(e).value == e.key
  {
  }

  /** Exactly the keys named by one character of the Basic Multilingual Plane and
      Enter get through (the separate test for space is covered by the
      one-character one); named keys such as `ArrowUp`, `Shift` or `Tab`, and a
      character outside that plane (two code units), are ignored, with or without
      Ctrl, except Ctrl+C. */
  lemma FilterKeyAccepts(e: KeyPress)
    ensures FilterKey(e).None? <==>
      !(e.ctrl && e.key == "c") && !(|e.key| == 1 && (e.key[0] as int) < 0x10000) && e.key != "Enter"
  {
    Utf16LengthOne(e.key);
  }

  /** A key outside the Basic Multilingual Plane, such as an emoji, is ignored. */
  lemma FilterKeyIgnoresAstral(ctrl: bool)
    ensures FilterKey(KeyPress("\U{1F600}", ctrl)).None?
  {
    Utf16LengthOne("\U{1F600}");
  }

  // ---------------------------------------------------------------------------
  // lolcat colours
  // ---------------------------------------------------------------------------

  /** The rainbow the mobile terminal cycles through. */
  const Rainbow: seq<string> := ["#ff0000", "#ff7f00", "#ffff00", "#00ff00", "#0000ff", "#8b00ff"]

  /** The number of characters of `s` other than a space. */
  function NonSpaceCount(s: string): (n: nat)
    ensures n <= |s|
  {
    if s == [] then 0 else NonSpaceCount(s[..|s| - 1]) + (if s[|s| - 1] == ' ' then 0 else 1)
  }

  /** The colour of character `i` of a line: spaces do not advance the rainbow. */
  function ColourAt(line: string, i: nat): string
    requires i <= |line|
  {
    Rainbow[NonSpaceCount(line[..i]) % |Rainbow|]
  }

  lemma NonSpaceCountStep(line: string, i: nat)
    requires i < |line|
    ensures NonSpaceCount(line[..i + 1]) == NonSpaceCount(line[..i]) + (if line[i] == ' ' then 0 else 1)
  {
    assert line[..i + 1][..i] == line[..i];
  }

  /** A painted character: the character and its colour. */
  datatype Span = Span(ch: char, colour: string)

  /** Paints one line, advancing the colour index after each character that is not
      a space. */
  method LolcatLine(line: string) returns (spans: seq<Span>)
    ensures |spans| == |line|
    ensures forall i :: 0 <= i < |line| ==> spans[i] == Span(line[i], ColourAt(line, i))
  {
    spans := [];
    var colourIdx := 0;
    var i := 0;
    while i < |line|
      invariant 0 <= i <= |line|
      invariant |spans| == i
      invariant colourIdx == NonSpaceCount(line[..i])
      invariant forall j :: 0 <= j < i ==> spans[j] == Span(line[j], ColourAt(line, j))
    {
      spans := spans + [Span(line[i], Rainbow[colourIdx % |Rainbow|])];
      NonSpaceCountStep(line, i);
      if line[i] != ' ' {
        colourIdx := colourIdx + 1;
      }
      i := i + 1;
    }
  }

  /** Paints lolcat output: the text is cut at line breaks and each line starts the
      rainbow afresh. */
  method LolcatText(text: string) returns (lines: seq<seq<Span>>)
    ensures |lines| == |Split(text, '\n')|
    ensures forall k :: 0 <= k < |lines| ==>
      |lines[k]| == |Split(text, '\n')[k]| &&
      forall i :: 0 <= i < |lines[k]| ==> lines[k][i] == Span(Split(text, '\n')[k][i], ColourAt(Split(text, '\n')[k], i))
  {
    var parts := Split(text, '\n');
    lines := [];
    var k := 0;
    while k < |parts|
      invariant 0 <= k <= |parts|
      invariant |lines| == k
      invariant forall m :: 0 <= m < k ==>
        |lines[m]| == |parts[m]| &&
        forall i :: 0 <= i < |lines[m]| ==> lines[m][i] == Span(parts[m][i], ColourAt(parts[m], i))
    {
      var spans := LolcatLine(parts[k]);
      lines := lines + [spans];
      k := k + 1;
    }
  }

  /** A space takes the colour of the next character: both have the same colour
      index, and a character that is not a space moves the rainbow on by one. */
  lemma {:induction false} ColourAdvance(line: string, i: nat)
    requires i + 1 < |line|
    ensures line[i] == ' ' ==> ColourAt(line, i + 1) == ColourAt(line, i)
    ensures line[i] != ' ' ==> ColourAt(line, i + 1) == Rainbow[(NonSpaceCount(line[..i]) + 1) % |Rainbow|]
  {
    NonSpaceCountStep(line, i);
  }

  /** A line without spaces cycles through the rainbow: character `i` has colour
      `i mod 6`. */
  lemma {:induction false} ColourWithoutSpaces(line: string, i: nat)
    requires i <= |line|
    requires ' ' !in line
    ensures NonSpaceCount(line[..i]) == i
    ensures i < |line| ==> ColourAt(line, i) == Rainbow[i % 6]
  {
    if i > 0 {
      ColourWithoutSpaces(line, i - 1);
      NonSpaceCountStep(line, i - 1);
    }
  }
}
