/** The taskbar: the 12-hour clock text, the callbacks through which it reaches the
    other windows, the active marks of its buttons and the matrix-rain button. The
    time of day is passed in as hours, minutes and seconds; what a callback returns
    when it is called is passed in as a value. */
module Taskbar {
  import opened Wrappers
  import opened Strings
  import opened JsValues

  // ---------------------------------------------------------------------------
  // The clock
  // ---------------------------------------------------------------------------

  /** The hour on a 12-hour dial: hour 0 shows as 12, and so does hour 12. */
  function Hour12(h: nat): (r: nat)
    requires h < 24
    ensures 1 <= r <= 12
    ensures r % 12 == h % 12
  {
    if h % 12 == 0 then 12 else h % 12
  }

  function Meridiem(h: nat): string
  {
    if h >= 12 then "PM" else "AM"
  }

  /** The clock text `HH:MM:SS XM`: the 12-hour value padded with a space to two
      characters, minutes and seconds padded with zeros. */
  function ClockText(h: nat, m: nat, s: nat): string
    requires h < 24 && m < 60 && s < 60
  {
    PadStart(NatToString(Hour12(h)), 2, ' ') + ":" + PadStart(NatToString(m), 2, '0') + ":"
      + PadStart(NatToString(s), 2, '0') + " " + Meridiem(h)
  }

  /** The 24-hour value a 12-hour value and its AM/PM suffix stand for. */
  function To24(h12: nat, pm: bool): nat
  {
    if pm then (if h12 == 12 then 12 else h12 + 12)
    else (if h12 == 12 then 0 else h12)
  }

  /** The 12-hour value and the suffix determine the hour of the day. */
  lemma To24Inverts(h: nat)
    requires h < 24
    ensures To24(Hour12(h), h >= 12) == h
  {
  }

  /** Reads the hour field, which may begin with a padding space. */
  function ReadHour(f: string): nat
  {
    if f != [] && f[0] == ' ' then ParseNat(f[1..]) else ParseNat(f)
  }

  /** Reads a clock text back into hours, minutes and seconds of the day. */
  function ReadClock(t: string): (nat, nat, nat)
    requires |t| == 11
  {
    (To24(ReadHour(t[0..2]), t[9..11] == "PM"), ParseNat(t[3..5]), ParseNat(t[6..8]))
  }

  /** A two-character padded field reads back as the number it shows. */
  lemma PaddedHour(n: nat)
    requires 1 <= n <= 12
    ensures |PadStart(NatToString(n), 2, ' ')| == 2
    ensures ReadHour(PadStart(NatToString(n), 2, ' ')) == n
  {
    var d := NatToString(n);
    if |d| == 1 {
      assert PadStart(d, 2, ' ') == [' '] + d;
      assert ([' '] + d)[1..] == d;
    } else {
      assert d[0] != ' ' by { assert IsDigit(d[0]); }
    }
  }

  /** Where the fields of a clock text sit. */
  lemma ClockFields(hh: string, mm: string, ss: string, xm: string)
    requires |hh| == 2 && |mm| == 2 && |ss| == 2 && |xm| == 2
    ensures var t := hh + ":" + mm + ":" + ss + " " + xm;
      |t| == 11 && t[0..2] == hh && t[2] == ':' && t[3..5] == mm && t[5] == ':' &&
      t[6..8] == ss && t[8] == ' ' && t[9..11] == xm
  {
    var t := hh + ":" + mm + ":" + ss + " " + xm;
    assert t == hh + (":" + (mm + (":" + (ss + (" " + xm)))));
  }

  /** The padded fields of the clock text at hour `h`, minute `m`, second `s`. */
  lemma ClockTextFields(h: nat, m: nat, s: nat)
    requires h < 24 && m < 60 && s < 60
    ensures var t := ClockText(h, m, s);
      |t| == 11 && t[2] == ':' && t[5] == ':' && t[8] == ' ' &&
      ReadHour(t[0..2]) == Hour12(h) && ParseNat(t[3..5]) == m && ParseNat(t[6..8]) == s &&
      t[9..11] == Meridiem(h)
  {
    var hh := PadStart(NatToString(Hour12(h)), 2, ' ');
    var mm := PadStart(NatToString(m), 2, '0');
    var ss := PadStart(NatToString(s), 2, '0');
    var t := ClockText(h, m, s);
    assert t == hh + ":" + mm + ":" + ss + " " + Meridiem(h);
    PaddedHour(Hour12(h));
    TwoDigits(m);
    TwoDigits(s);
    ClockFields(hh, mm, ss, Meridiem(h));
    assert t[0..2] == hh && t[3..5] == mm && t[6..8] == ss;
  }

  /** The clock text is eleven characters, colons at 2 and 5 and a space at 8, and
      ends in `AM` exactly for the hours before noon. */
  lemma ClockTextShape(h: nat, m: nat, s: nat)
    requires h < 24 && m < 60 && s < 60
    ensures var t := ClockText(h, m, s);
      |t| == 11 && t[2] == ':' && t[5] == ':' && t[8] == ' ' &&
      (t[9..11] == "AM" <==> h < 12) && (t[9..11] == "PM" <==> h >= 12)
  {
    ClockTextFields(h, m, s);
  }

  /** Reading the clock text back gives the time of day it was made from. */
  lemma ClockTextRoundTrip(h: nat, m: nat, s: nat)
    requires h < 24 && m < 60 && s < 60
    ensures |ClockText(h, m, s)| == 11
    ensures ReadClock(ClockText(h, m, s)) == (h, m, s)
  {
    ClockTextFields(h, m, s);
    To24Inverts(h);
  }

  // ---------------------------------------------------------------------------
  // The taskbar's state
  // ---------------------------------------------------------------------------

  /** The labels of the matrix-rain button. */
  const MatrixOn: string := "Matrix: ON"
  const MatrixOff: string := "Matrix: OFF"

  /** The stored callbacks, each `Null` when unset. */
  datatype Callbacks = Callbacks(
    terminalToggle: JsValue, terminalVisible: JsValue,
    musicToggle: JsValue, musicVisible: JsValue,
    matrixToggle: JsValue, matrixRunning: JsValue)

  const NoCallbacks: Callbacks := Callbacks(Null, Null, Null, Null, Null, Null)

  class Bar {
    var fns: Callbacks
    /** The last value the matrix-running callback gave, cached. */
    var matrixEnabled: JsValue
    /** The clock's interval timer, when one is running. */
    var clockInterval: Option<nat>
    /** Whether the taskbar is on the page. */
    var shown: bool
    /** The matrix button's label, while the button is on the page. */
    var matrixButton: Option<string>
    /** The active marks of the terminal and music buttons, while they exist. */
    var terminalActive: Option<bool>
    var musicActive: Option<bool>
    var timeText: string

    constructor ()
      ensures fns == NoCallbacks && matrixEnabled == Bool(true)
      ensures clockInterval == None && !shown && matrixButton == None
      ensures terminalActive == None && musicActive == None && timeText == ""
    {
      fns, matrixEnabled := NoCallbacks, Bool(true);
      clockInterval, shown, matrixButton := None, false, None;
      terminalActive, musicActive, timeText := None, None, "";
    }

    /** The window callbacks: each entry of `callbacks` is kept when truthy and
        stored as `null` otherwise. */
    method SetCallbacks(callbacks: map<string, JsValue>)
      modifies this
      ensures fns == old(fns).(
        terminalToggle := Or(Get(callbacks, "toggleTerminal"), Null),
        terminalVisible := Or(Get(callbacks, "isTerminalVisible"), Null),
        musicToggle := Or(Get(callbacks, "toggleMusicPlayer"), Null),
        musicVisible := Or(Get(callbacks, "isMusicPlayerVisible"), Null))
      ensures matrixEnabled == old(matrixEnabled) && clockInterval == old(clockInterval) && shown == old(shown)
      ensures matrixButton == old(matrixButton) && terminalActive == old(terminalActive)
      ensures musicActive == old(musicActive) && timeText == old(timeText)
    {
      fns := fns.(
        terminalToggle := Or(Get(callbacks, "toggleTerminal"), Null),
        terminalVisible := Or(Get(callbacks, "isTerminalVisible"), Null),
        musicToggle := Or(Get(callbacks, "toggleMusicPlayer"), Null),
        musicVisible := Or(Get(callbacks, "isMusicPlayerVisible"), Null));
    }

    /** The matrix-rain callbacks, stored the same way. */
    method SetMatrixCallbacks(callbacks: map<string, JsValue>)
      modifies this
      ensures fns == old(fns).(
        matrixToggle := Or(Get(callbacks, "toggleMatrixRain"), Null),
        matrixRunning := Or(Get(callbacks, "isMatrixRunning"), Null))
      ensures matrixEnabled == old(matrixEnabled) && clockInterval == old(clockInterval) && shown == old(shown)
      ensures matrixButton == old(matrixButton) && terminalActive == old(terminalActive)
      ensures musicActive == old(musicActive) && timeText == old(timeText)
    {
      fns := fns.(
        matrixToggle := Or(Get(callbacks, "toggleMatrixRain"), Null),
        matrixRunning := Or(Get(callbacks, "isMatrixRunning"), Null));
    }

    /** Refreshes the matrix button from the running callback, which gives
        `running`; without the button or the callback nothing changes. */
    method UpdateMatrixButtonState(running: JsValue)
      modifies this
      ensures matrixButton.Some? && Truthy(fns.matrixRunning) ==>
        matrixEnabled == running && matrixButton == Some(if Truthy(running) then MatrixOn else MatrixOff)
      ensures !(matrixButton.Some? && Truthy(fns.matrixRunning)) ==>
        matrixEnabled == old(matrixEnabled) && matrixButton == old(matrixButton)
      ensures fns == old(fns) && clockInterval == old(clockInterval) && shown == old(shown)
      ensures terminalActive == old(terminalActive) && musicActive == old(musicActive) && timeText == old(timeText)
    {
      if matrixButton.Some? && Truthy(fns.matrixRunning) {
        matrixEnabled := running;
        matrixButton := Some(if Truthy(running) then MatrixOn else MatrixOff);
      }
    }

    /** The matrix button's click: the toggle callback runs when set (its effect
        on the rain is outside this model) and the button is refreshed with what
        the running callback then gives. */
    method ToggleMatrixRain(runningAfter: JsValue) returns (toggled: bool)
      modifies this
      ensures toggled == Truthy(fns.matrixToggle)
      ensures matrixButton.Some? && Truthy(fns.matrixRunning) ==>
        matrixEnabled == runningAfter && matrixButton == Some(if Truthy(runningAfter) then MatrixOn else MatrixOff)
      ensures !(matrixButton.Some? && Truthy(fns.matrixRunning)) ==>
        matrixEnabled == old(matrixEnabled) && matrixButton == old(matrixButton)
      ensures fns == old(fns) && clockInterval == old(clockInterval) && shown == old(shown)
      ensures terminalActive == old(terminalActive) && musicActive == old(musicActive) && timeText == old(timeText)
    {
      toggled := Truthy(fns.matrixToggle);
      UpdateMatrixButtonState(runningAfter);
    }

    /** Whether the rain is on: what the running callback gives when it is set,
        the cached value otherwise. */
    method IsMatrixEnabled(running: JsValue) returns (r: JsValue)
      ensures Truthy(fns.matrixRunning) ==> r == running
      ensures !Truthy(fns.matrixRunning) ==> r == matrixEnabled
    {
      if Truthy(fns.matrixRunning) {
        r := running;
      } else {
        r := matrixEnabled;
      }
    }

    /** Marks each taskbar button active exactly when its visibility callback is
        set and, called, gives a truthy value (`terminalShows`, `musicShows`); an
        unset callback is not called and leaves the button inactive. */
    method UpdateButtonStates(terminalShows: JsValue, musicShows: JsValue)
      modifies this
      ensures terminalActive == if old(terminalActive).Some? then Some(Truthy(fns.terminalVisible) && Truthy(terminalShows)) else None
      ensures musicActive == if old(musicActive).Some? then Some(Truthy(fns.musicVisible) && Truthy(musicShows)) else None
      ensures fns == old(fns) && matrixEnabled == old(matrixEnabled) && clockInterval == old(clockInterval)
      ensures shown == old(shown) && matrixButton == old(matrixButton) && timeText == old(timeText)
    {
      if terminalActive.Some? {
        terminalActive := Some(Truthy(fns.terminalVisible) && Truthy(terminalShows));
      }
      if musicActive.Some? {
        musicActive := Some(Truthy(fns.musicVisible) && Truthy(musicShows));
      }
    }

    /** One tick of the clock. */
    method UpdateClock(h: nat, m: nat, s: nat)
      requires h < 24 && m < 60 && s < 60
      modifies this
      ensures timeText == ClockText(h, m, s)
      ensures fns == old(fns) && matrixEnabled == old(matrixEnabled) && clockInterval == old(clockInterval)
      ensures shown == old(shown) && matrixButton == old(matrixButton)
      ensures terminalActive == old(terminalActive) && musicActive == old(musicActive)
    {
      timeText := ClockText(h, m, s);
    }

    /** Starts the clock: it shows the time at once, and `timer` is the interval
        the host hands back for the next ticks. */
    method StartClock(timer: nat, h: nat, m: nat, s: nat)
      requires timer > 0
      requires h < 24 && m < 60 && s < 60
      modifies this
      ensures timeText == ClockText(h, m, s) && clockInterval == Some(timer)
      ensures fns == old(fns) && matrixEnabled == old(matrixEnabled)
      ensures shown == old(shown) && matrixButton == old(matrixButton)
      ensures terminalActive == old(terminalActive) && musicActive == old(musicActive)
    {
      UpdateClock(h, m, s);
      clockInterval := Some(timer);
    }

    /** Stops the clock: a running interval is handed back to be cleared and
        forgotten; with none running nothing happens. */
    method StopClock() returns (cleared: Option<nat>)
      modifies this
      ensures cleared == old(clockInterval) && clockInterval == None
      ensures fns == old(fns) && matrixEnabled == old(matrixEnabled)
      ensures shown == old(shown) && matrixButton == old(matrixButton) && timeText == old(timeText)
      ensures terminalActive == old(terminalActive) && musicActive == old(musicActive)
    {
      cleared := None;
      if clockInterval.Some? {
        cleared := clockInterval;
        clockInterval := None;
      }
    }

    /** Builds the taskbar with its buttons (the matrix button reading `ON`),
        starts the clock and marks the buttons. */
    method Create(timer: nat, h: nat, m: nat, s: nat, terminalShows: JsValue, musicShows: JsValue)
      requires timer > 0
      requires h < 24 && m < 60 && s < 60
      modifies this
      ensures shown && clockInterval == Some(timer) && timeText == ClockText(h, m, s)
      ensures matrixButton == Some(MatrixOn)
      ensures terminalActive == Some(Truthy(fns.terminalVisible) && Truthy(terminalShows))
      ensures musicActive == Some(Truthy(fns.musicVisible) && Truthy(musicShows))
      ensures fns == old(fns) && matrixEnabled == old(matrixEnabled)
    {
      shown := true;
      matrixButton := Some(MatrixOn);
      terminalActive, musicActive := Some(false), Some(false);
      StartClock(timer, h, m, s);
      UpdateButtonStates(terminalShows, musicShows);
    }

    /** Removes the taskbar after stopping its clock. The buttons found by their
        id go with it; the terminal button stays referenced. */
    method Destroy() returns (cleared: Option<nat>)
      modifies this
      ensures cleared == old(clockInterval) && clockInterval == None
      ensures !shown && matrixButton == None && musicActive == None
      ensures terminalActive == old(terminalActive) && timeText == old(timeText)
      ensures fns == old(fns) && matrixEnabled == old(matrixEnabled)
    {
      cleared := StopClock();
      shown := false;
      matrixButton, musicActive := None, None;
    }
  }

  /** Stopping the clock twice: the second call finds nothing to clear. */
  method StopClockTwice(b: Bar) returns (second: Option<nat>)
    modifies b
    ensures second == None && b.clockInterval == None
  {
    var first := b.StopClock();
    second := b.StopClock();
  }
}
