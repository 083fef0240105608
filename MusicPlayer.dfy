/** The track state of the music player: the playlist, the current index, the
    shuffle and repeat flags, what the next, previous and end-of-track events do to
    them, and the two texts the player derives from them (the elapsed-time display
    and the playlist labels). Audio playback itself is not part of this model; where
    a track change waits for the audio element to load, whether loading succeeded is
    a parameter. */
module MusicPlayer {
  import opened Wrappers
  import opened Strings

  datatype Song = Song(title: string, src: string)

  /** The built-in playlist used until another one is installed. */
  const DefaultPlaylist: seq<Song> := [
    Song("Twenty Minutes - edIT", "/mp3/01 - edIT - Twenty Minutes.mp3"),
    Song("Access Granted - The Alg0rithm", "/mp3/02 - The Alg0rithm - Access Granted.mp3"),
    Song("MSDOS.SYS - Master Boot Record", "/mp3/03 - Master Boot Record - MSDOS.SYS.mp3"),
    Song("Tendon - Igorrr", "/mp3/04- Igorrr - Tendon.mp3"),
    Song("Dex - edIT", "/mp3/05 - edIT - Dex.mp3"),
    Song("Tr0jans - The Alg0rithm", "/mp3/06 - The Alg0rithm - Trojans.mp3"),
    Song("CONFIG.SYS - Master Boot Record", "/mp3/07 - Master Boot Record - CONFIG.SYS.mp3"),
    Song("Excessive Funeral - Igorrr", "/mp3/08 - Igorrr - Excessive Funeral.mp3")
  ]

  // ---------------------------------------------------------------------------
  // Track index arithmetic
  // ---------------------------------------------------------------------------

  /** The next track without shuffle, wrapping from the last to the first. */
  function NextIndex(i: nat, n: nat): (r: nat)
    requires i < n
    ensures r < n
    ensures r == if i == n - 1 then 0 else i + 1
  {
    (i + 1) % n
  }

  /** The previous track without shuffle, wrapping from the first to the last. */
  function PrevIndex(i: nat, n: nat): (r: nat)
    requires i < n
    ensures r < n
    ensures r == if i == 0 then n - 1 else i - 1
  {
    (i - 1 + n) % n
  }

  /** Previous undoes next and next undoes previous. */
  lemma PrevNext(i: nat, n: nat)
    requires i < n
    ensures PrevIndex(NextIndex(i, n), n) == i
    ensures NextIndex(PrevIndex(i, n), n) == i
  {
  }

  /** `k` presses of next. */
  function NextTimes(i: nat, n: nat, k: nat): (r: nat)
    requires i < n
    ensures r < n
    decreases k
  {
    if k == 0 then i else NextTimes(NextIndex(i, n), n, k - 1)
  }

  /** Pressing next `a` times and then `b` times is pressing it `a + b` times. */
  lemma {:induction false} NextTimesAdd(i: nat, n: nat, a: nat, b: nat)
    requires i < n
    ensures NextTimes(i, n, a + b) == NextTimes(NextTimes(i, n, a), n, b)
    decreases a
  {
    if a > 0 {
      NextTimesAdd(NextIndex(i, n), n, a - 1, b);
    }
  }

  /** Short of the end of the playlist, `k` presses of next move `k` places on. */
  lemma {:induction false} NextTimesForward(i: nat, n: nat, k: nat)
    requires i + k < n
    ensures NextTimes(i, n, k) == i + k
    decreases k
  {
    if k > 0 {
      NextTimesForward(i + 1, n, k - 1);
    }
  }

  /** `n` presses of next come back to the starting track: the last track is
      followed by the first. */
  lemma NextTimesFullCircle(i: nat, n: nat)
    requires i < n
    ensures NextTimes(i, n, n) == i
  {
    NextTimesForward(i, n, n - 1 - i);
    NextTimesAdd(i, n, n - 1 - i, 1);
    assert NextTimes(n - 1, n, 1) == 0;
    NextTimesAdd(i, n, n - i, i);
    NextTimesForward(0, n, i);
  }

  // ---------------------------------------------------------------------------
  // Elapsed-time display
  // ---------------------------------------------------------------------------

  /** `formatTime` over whole seconds, `None` standing for `NaN`: minutes, a colon
      and the remaining seconds as two digits. */
  function FormatTime(secs: Option<nat>): string
  {
    match secs
    case None => "0:00"
    case Some(t) => NatToString(t / 60) + ":" + PadStart(NatToString(t % 60), 2, '0')
  }

  /** Reads an `m:ss` display back into seconds. */
  function ReadTime(s: string): nat
  {
    var parts := Split(s, ':');
    if |parts| == 2 then ParseNat(parts[0]) * 60 + ParseNat(parts[1]) else 0
  }

  lemma DigitsHaveNoColon(d: string)
    requires AllDigits(d)
    ensures ':' !in d
  {
    forall i | 0 <= i < |d| ensures d[i] != ':' {
      assert IsDigit(d[i]);
    }
  }

  /** Two digit strings joined by a colon split back into the two. */
  lemma SplitDigitFields(m: string, sec: string)
    requires AllDigits(m) && AllDigits(sec)
    ensures Split(m + [':'] + sec, ':') == [m, sec]
  {
    DigitsHaveNoColon(m);
    DigitsHaveNoColon(sec);
    SplitAtSep(m, ':', sec);
    SplitNoSep(sec, ':');
  }

  /** The display is the minutes, one colon and the seconds as two digits. */
  lemma FormatTimeFields(t: nat)
    ensures Split(FormatTime(Some(t)), ':') == [NatToString(t / 60), PadStart(NatToString(t % 60), 2, '0')]
  {
    var m := NatToString(t / 60);
    var sec := PadStart(NatToString(t % 60), 2, '0');
    TwoDigits(t % 60);
    SplitDigitFields(m, sec);
  }

  lemma ReadTimeOf(s: string, a: string, b: string)
    requires Split(s, ':') == [a, b]
    ensures ReadTime(s) == ParseNat(a) * 60 + ParseNat(b)
  {
  }

  lemma ZeroDigits()
    ensures NatToString(0) == "0"
    ensures PadStart("0", 2, '0') == "00"
  {
    assert DigitChar(0) == '0';
    var p := PadStart("0", 2, '0');
    assert |p| == 2 && p[0] == '0' && p[1] == '0';
  }

  /** An unknown time shows as zero. */
  lemma FormatTimeZero()
    ensures FormatTime(None) == FormatTime(Some(0))
  {
    var t: nat := 0;
    assert t / 60 == 0 && t % 60 == 0;
    ZeroDigits();
    assert FormatTime(Some(t)) == "0" + ":" + "00";
  }

  /** Reading the display back gives the time again; an unknown time shows as
      zero. */
  lemma FormatTimeRoundTrip(t: nat)
    ensures |Split(FormatTime(Some(t)), ':')[1]| == 2
    ensures ReadTime(FormatTime(Some(t))) == t
    ensures FormatTime(None) == FormatTime(Some(0))
  {
    FormatTimeFields(t);
    var m := t / 60;
    var sec := t % 60;
    TwoDigits(sec);
    ReadTimeOf(FormatTime(Some(t)), NatToString(m), PadStart(NatToString(sec), 2, '0'));
    assert ParseNat(NatToString(m)) == m;
    assert t == m * 60 + sec;
    FormatTimeZero();
  }

  // ---------------------------------------------------------------------------
  // Playlist labels
  // ---------------------------------------------------------------------------

  /** The track number shown in a label: the 1-based position, at least two digits. */
  function TrackNumber(index: nat): (d: string)
    ensures |d| >= 2 && AllDigits(d)
    ensures ParseNat(d) == index + 1
    ensures index < 99 ==> |d| == 2
  {
    var n := NatToString(index + 1);
    if index < 99 then
      TwoDigits(index + 1);
      PadStart(n, 2, '0')
    else
      n
  }

  /** The label of the entry at `index`: `[NN] title`. */
  function PlaylistLabel(index: nat, title: string): string
  {
    "[" + TrackNumber(index) + "] " + title
  }

  /** The run of decimal digits a string begins with. */
  function DigitRun(s: string): (r: string)
    ensures r <= s
  {
    if s != [] && IsDigit(s[0]) then [s[0]] + DigitRun(s[1..]) else []
  }

  lemma {:induction false} DigitRunOf(a: string, rest: string)
    requires AllDigits(a)
    requires rest == [] || !IsDigit(rest[0])
    ensures DigitRun(a + rest) == a
  {
    if a != [] {
      assert (a + rest)[1..] == a[1..] + rest;
      DigitRunOf(a[1..], rest);
    } else {
      assert a + rest == rest;
    }
  }

  /** A label determines its entry: two labels are equal only for the same
      position and the same title. */
  lemma PlaylistLabelInjective(i: nat, t: string, j: nat, u: string)
    requires PlaylistLabel(i, t) == PlaylistLabel(j, u)
    ensures i == j && t == u
  {
    var a, b := TrackNumber(i), TrackNumber(j);
    var l := PlaylistLabel(i, t);
    assert l[1..] == a + ("] " + t);
    assert l[1..] == b + ("] " + u);
    DigitRunOf(a, "] " + t);
    DigitRunOf(b, "] " + u);
    assert t == l[|a| + 3..] == u;
  }

  // ---------------------------------------------------------------------------
  // The player's track state
  // ---------------------------------------------------------------------------

  class Player {
    var playlist: seq<Song>
    var index: nat
    var playing: bool
    var shuffle: bool
    var repeat: bool
    /** The playback position in seconds. */
    var position: nat

    ghost predicate Valid()
      reads this
    {
      |playlist| > 0 && index < |playlist|
    }

    constructor ()
      ensures Valid()
      ensures playlist == DefaultPlaylist && index == 0
      ensures !playing && !shuffle && !repeat && position == 0
    {
      playlist, index := DefaultPlaylist, 0;
      playing, shuffle, repeat := false, false, false;
      position := 0;
    }

    /** Installs a playlist: `None` stands for a value that is not an array. Only
        a non-empty array replaces the playlist, and then playback starts over at
        its first entry. When the player window already exists (`displayed`), the
        refresh that follows calls a display function that the module never
        defines, so the call throws (`threw`) after the playlist and the index have
        changed. */
    method SetPlaylist(songs: Option<seq<Song>>, displayed: bool) returns (threw: bool)
      requires Valid()
      modifies this
      ensures Valid()
      ensures threw <==> songs.Some? && |songs.value| > 0 && displayed
      ensures songs.Some? && |songs.value| > 0 ==> playlist == songs.value && index == 0
      ensures !(songs.Some? && |songs.value| > 0) ==> playlist == old(playlist) && index == old(index)
      ensures playing == old(playing) && shuffle == old(shuffle) && repeat == old(repeat) && position == old(position)
    {
      threw := false;
      if songs.Some? && |songs.value| > 0 {
        playlist := songs.value;
        index := 0;
        threw := displayed;
      }
    }

    /** What a track change does once the new index is chosen: the audio source is
        set to the track, which restarts the position at 0, and the track is played
        when loading succeeds. */
    method Start(loaded: bool)
      requires Valid()
      modifies this
      ensures Valid()
      ensures playing == (loaded || old(playing)) && position == 0
      ensures playlist == old(playlist) && index == old(index) && shuffle == old(shuffle) && repeat == old(repeat)
    {
      position := 0;
      if loaded {
        playing := true;
      }
    }

    /** The next button: a different random track under shuffle when there is more
        than one, otherwise the following track. */
    method NextTrack(loaded: bool)
      requires Valid()
      modifies this
      ensures Valid()
      ensures playlist == old(playlist) && shuffle == old(shuffle) && repeat == old(repeat) && position == 0
      ensures shuffle && |playlist| > 1 ==> index != old(index)
      ensures !(shuffle && |playlist| > 1) ==> index == NextIndex(old(index), |playlist|)
      ensures playing == (loaded || old(playing))
    {
      if shuffle && |playlist| > 1 {
        assert index != 0 || 1 != index;
        var j: nat :| j < |playlist| && j != index;
        index := j;
      } else {
        index := NextIndex(index, |playlist|);
      }
      Start(loaded);
    }

    /** The previous button: a different random track under shuffle when there is
        more than one, otherwise the preceding track. */
    method PrevTrack(loaded: bool)
      requires Valid()
      modifies this
      ensures Valid()
      ensures playlist == old(playlist) && shuffle == old(shuffle) && repeat == old(repeat) && position == 0
      ensures shuffle && |playlist| > 1 ==> index != old(index)
      ensures !(shuffle && |playlist| > 1) ==> index == PrevIndex(old(index), |playlist|)
      ensures playing == (loaded || old(playing))
    {
      if shuffle && |playlist| > 1 {
        assert index != 0 || 1 != index;
        var j: nat :| j < |playlist| && j != index;
        index := j;
      } else {
        index := PrevIndex(index, |playlist|);
      }
      Start(loaded);
    }

    /** A click on a playlist entry selects it and plays it. */
    method SelectTrack(i: nat, loaded: bool)
      requires Valid()
      requires i < |playlist|
      modifies this
      ensures Valid()
      ensures index == i && playing == (loaded || old(playing))
      ensures playlist == old(playlist) && shuffle == old(shuffle) && repeat == old(repeat) && position == 0
    {
      index := i;
      Start(loaded);
    }

    method ToggleShuffle()
      requires Valid()
      modifies this
      ensures Valid()
      ensures shuffle == !old(shuffle)
      ensures playlist == old(playlist) && index == old(index) && playing == old(playing) && repeat == old(repeat) && position == old(position)
    {
      shuffle := !shuffle;
    }

    method ToggleRepeat()
      requires Valid()
      modifies this
      ensures Valid()
      ensures repeat == !old(repeat)
      ensures playlist == old(playlist) && index == old(index) && playing == old(playing) && shuffle == old(shuffle) && position == old(position)
    {
      repeat := !repeat;
    }

    /** The end of a track: under repeat the same track starts again from the
        beginning; otherwise playback moves on as the next button does, and the
        new track (the same one, on a playlist of one) starts from the beginning. */
    method Ended(loaded: bool)
      requires Valid()
      modifies this
      ensures Valid()
      ensures playlist == old(playlist) && shuffle == old(shuffle) && repeat == old(repeat)
      ensures repeat ==> index == old(index) && position == 0 && playing
      ensures !repeat && !(shuffle && |playlist| > 1) ==>
        index == NextIndex(old(index), |playlist|) && position == 0 && playing == (loaded || old(playing))
      ensures !repeat && shuffle && |playlist| > 1 ==>
        index != old(index) && position == 0 && playing == (loaded || old(playing))
    {
      if repeat {
        position := 0;
        playing := true;
      } else {
        NextTrack(loaded);
      }
    }
  }

  /** Toggling shuffle or repeat twice restores the flag, and next then previous
      without shuffle comes back to the same track. */
  method ToggleTwiceRestores(p: Player)
    requires p.Valid() && !p.shuffle
    modifies p
    ensures p.Valid()
    ensures p.shuffle == old(p.shuffle) && p.repeat == old(p.repeat) && p.index == old(p.index)
  {
    p.ToggleRepeat();
    p.ToggleRepeat();
    p.NextTrack(true);
    p.PrevTrack(true);
    PrevNext(old(p.index), |p.playlist|);
    p.ToggleShuffle();
    p.ToggleShuffle();
  }
}
