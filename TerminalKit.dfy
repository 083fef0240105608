/** The kit's entry point: the default configuration and how a caller's
    configuration is merged into it, the rule that decides whether a window starts
    hidden, the once-only initialisation and what it sets in motion, and the shared
    z-index that keeps the two windows stacking correctly. The modules it drives
    are represented by the effects it asks of them, in order. */
module TerminalKit {
  import opened Wrappers
  import opened JsValues
  import MusicPlayer

  // ---------------------------------------------------------------------------
  // Configuration
  // ---------------------------------------------------------------------------

  function SongValue(s: MusicPlayer.Song): JsValue
  {
    Obj(map["title" := Str(s.title), "src" := Str(s.src)])
  }

  /** The built-in playlist as the configuration holds it. */
  function DefaultPlaylistValue(): (v: JsValue)
    ensures v.Arr? && |v.items| == |MusicPlayer.DefaultPlaylist|
  {
    Arr(seq(|MusicPlayer.DefaultPlaylist|, i requires 0 <= i < |MusicPlayer.DefaultPlaylist| => SongValue(MusicPlayer.DefaultPlaylist[i])))
  }

  const DefaultTerminalOptions: map<string, JsValue> :=
    map["x" := Num(100), "y" := Num(80), "width" := Num(700), "height" := Num(450), "autoShow" := Bool(true)]

  const DefaultMusicPlayerOptions: map<string, JsValue> :=
    map["x" := Num(150), "y" := Num(150), "autoShow" := Bool(false)]

  const DefaultMatrixOptions: map<string, JsValue> :=
    map["containerId" := Str("matrixRain"), "autoStart" := Bool(true)]

  /** The three option groups that are merged property by property. */
  const NestedKeys: set<string> := {"terminalOptions", "musicPlayerOptions", "matrixOptions"}

  function DefaultConfig(): map<string, JsValue>
  {
    map[
      "terminal" := Bool(true), "musicPlayer" := Bool(true), "taskbar" := Bool(true),
      "matrixRain" := Bool(true), "playlist" := DefaultPlaylistValue(),
      "terminalOptions" := Obj(DefaultTerminalOptions),
      "musicPlayerOptions" := Obj(DefaultMusicPlayerOptions),
      "matrixOptions" := Obj(DefaultMatrixOptions)]
  }

  /** `{ ...defaults, ...(given || {}) }` for one option group. */
  function MergeOptions(defaults: map<string, JsValue>, given: JsValue): map<string, JsValue>
  {
    Spread(defaults, Props(Or(given, Obj(map[]))))
  }

  /** The configuration `init` works with: the caller's top-level entries over the
      defaults, each option group merged entry by entry, and a truthy caller
      playlist put in place again. */
  function MergeConfig(config: map<string, JsValue>): (r: map<string, JsValue>)
    ensures r.Keys == DefaultConfig().Keys + config.Keys
  {
    var top := Spread(DefaultConfig(), config);
    var merged := top[
      "terminalOptions" := Obj(MergeOptions(DefaultTerminalOptions, Get(config, "terminalOptions")))][
      "musicPlayerOptions" := Obj(MergeOptions(DefaultMusicPlayerOptions, Get(config, "musicPlayerOptions")))][
      "matrixOptions" := Obj(MergeOptions(DefaultMatrixOptions, Get(config, "matrixOptions")))];
    if Truthy(Get(config, "playlist")) then merged["playlist" := Get(config, "playlist")] else merged
  }

  /** Top-level entries: the caller's value wins, and a default the caller leaves
      out survives. */
  lemma MergeConfigTopLevel(config: map<string, JsValue>, k: string)
    requires k !in NestedKeys
    ensures k in config ==> MergeConfig(config)[k] == config[k]
    ensures k !in config && k in DefaultConfig() ==> MergeConfig(config)[k] == DefaultConfig()[k]
  {
  }

  /** `{ ...defaults, ...(given || {}) }`: inside a group given as an object, the
      caller's entries win and the other defaults survive; a group left out or falsy
      keeps its defaults. */
  lemma MergeOptionsEntries(defaults: map<string, JsValue>, given: JsValue, k: string)
    ensures given.Obj? && k in given.fields ==> k in MergeOptions(defaults, given) && MergeOptions(defaults, given)[k] == given.fields[k]
    ensures given.Obj? && k !in given.fields && k in defaults ==> k in MergeOptions(defaults, given) && MergeOptions(defaults, given)[k] == defaults[k]
    ensures !Truthy(given) ==> MergeOptions(defaults, given) == defaults
  {
    if !Truthy(given) {
      assert Props(Or(given, Obj(map[]))) == map[];
      assert defaults + map[] == defaults;
    }
  }

  /** Each option group of the merged configuration is the merge of that group. */
  lemma MergeConfigGroups(config: map<string, JsValue>)
    ensures MergeConfig(config)["terminalOptions"] == Obj(MergeOptions(DefaultTerminalOptions, Get(config, "terminalOptions")))
    ensures MergeConfig(config)["musicPlayerOptions"] == Obj(MergeOptions(DefaultMusicPlayerOptions, Get(config, "musicPlayerOptions")))
    ensures MergeConfig(config)["matrixOptions"] == Obj(MergeOptions(DefaultMatrixOptions, Get(config, "matrixOptions")))
  {
  }

  /** An empty configuration gives exactly the defaults. */
  lemma MergeConfigEmpty()
    ensures MergeConfig(map[]) == DefaultConfig()
  {
    var d := DefaultConfig();
    var r := MergeConfig(map[]);
    MergeOptionsEntries(DefaultTerminalOptions, Undefined, "");
    MergeOptionsEntries(DefaultMusicPlayerOptions, Undefined, "");
    MergeOptionsEntries(DefaultMatrixOptions, Undefined, "");
    MergeConfigGroups(map[]);
    forall k | k in d ensures k in r && r[k] == d[k] {
      if k !in NestedKeys {
        MergeConfigTopLevel(map[], k);
      }
    }
  }

  /** Putting a truthy caller playlist in place again changes nothing: the spread
      already did it. A falsy one stays in the merged configuration and so disables
      the playlist step of `init`. */
  lemma PlaylistStepRedundant(config: map<string, JsValue>)
    ensures "playlist" in config ==> MergeConfig(config)["playlist"] == config["playlist"]
    ensures "playlist" !in config ==> MergeConfig(config)["playlist"] == DefaultPlaylistValue()
  {
  }

  // ---------------------------------------------------------------------------
  // Start-up visibility
  // ---------------------------------------------------------------------------

  /** Whether a window is hidden right after it is created: a saved visibility
      (anything but `null`) decides; without one, the `autoShow` option does. */
  predicate StartsHidden(saved: JsValue, autoShow: JsValue)
  {
    if saved != Null then !Truthy(saved) else !Truthy(autoShow)
  }

  /** The window is hidden exactly when a saved visibility exists and is false, or
      none exists and `autoShow` is false; a saved choice always beats `autoShow`. */
  lemma StartsHiddenIff(saved: JsValue, autoShow: JsValue)
    ensures StartsHidden(saved, autoShow) <==>
      (saved != Null && !Truthy(saved)) || (saved == Null && !Truthy(autoShow))
    ensures saved.Bool? ==> (StartsHidden(saved, autoShow) <==> !saved.b)
  {
  }

  /** With the default options and nothing saved, the terminal shows and the music
      player starts hidden. */
  lemma DefaultVisibility()
    ensures !StartsHidden(Null, Get(DefaultTerminalOptions, "autoShow"))
    ensures StartsHidden(Null, Get(DefaultMusicPlayerOptions, "autoShow"))
  {
  }

  // ---------------------------------------------------------------------------
  // Initialisation
  // ---------------------------------------------------------------------------

  /** What `init` asks of the other modules. */
  datatype Effect =
    | InitMatrixRain(options: JsValue)
    | SetCallbacks
    | SetMatrixCallbacks
    | CreateTaskbar
    | SetPlaylist(playlist: JsValue)
    | CreateTerminal(options: JsValue)
    | HideTerminal
    | CreateMusicPlayer(options: JsValue)
    | HideMusicPlayer
    | UpdateButtonStates

  function OptionOf(cfg: map<string, JsValue>, group: string, key: string): JsValue
  {
    var g := Get(cfg, group);
    if g.Obj? then Get(g.fields, key) else Undefined
  }

  /** The matrix rain is started first, as the background layer. */
  function MatrixStage(cfg: map<string, JsValue>): seq<Effect>
  {
    if Truthy(Get(cfg, "matrixRain")) then [InitMatrixRain(Get(cfg, "matrixOptions"))] else []
  }

  /** The taskbar gets its callbacks before it is built. */
  function TaskbarStage(cfg: map<string, JsValue>): seq<Effect>
  {
    if Truthy(Get(cfg, "taskbar")) then
      [SetCallbacks] + (if Truthy(Get(cfg, "matrixRain")) then [SetMatrixCallbacks] else []) + [CreateTaskbar]
    else []
  }

  function PlaylistStage(cfg: map<string, JsValue>): seq<Effect>
  {
    if Truthy(Get(cfg, "playlist")) then [SetPlaylist(Get(cfg, "playlist"))] else []
  }

  /** Each window is created and then hidden when the start-up rule says so. */
  function TerminalStage(cfg: map<string, JsValue>, saved: JsValue): seq<Effect>
  {
    if Truthy(Get(cfg, "terminal")) then
      [CreateTerminal(Get(cfg, "terminalOptions"))]
      + (if StartsHidden(saved, OptionOf(cfg, "terminalOptions", "autoShow")) then [HideTerminal] else [])
    else []
  }

  function MusicStage(cfg: map<string, JsValue>, saved: JsValue): seq<Effect>
  {
    if Truthy(Get(cfg, "musicPlayer")) then
      [CreateMusicPlayer(Get(cfg, "musicPlayerOptions"))]
      + (if StartsHidden(saved, OptionOf(cfg, "musicPlayerOptions", "autoShow")) then [HideMusicPlayer] else [])
    else []
  }

  function ButtonStage(cfg: map<string, JsValue>): seq<Effect>
  {
    if Truthy(Get(cfg, "taskbar")) then [UpdateButtonStates] else []
  }

  /** The effects of `init` on a merged configuration, in order, given the saved
      visibilities the two windows report once created. */
  function InitEffects(cfg: map<string, JsValue>, terminalSaved: JsValue, musicSaved: JsValue): seq<Effect>
  {
    MatrixStage(cfg) + TaskbarStage(cfg) + PlaylistStage(cfg)
    + TerminalStage(cfg, terminalSaved) + MusicStage(cfg, musicSaved) + ButtonStage(cfg)
  }

  /** The matrix callbacks are registered exactly when both the taskbar and the
      matrix rain are enabled; each window is hidden exactly when it is created
      and the start-up visibility rule says so. */
  lemma InitEffectsConditions(cfg: map<string, JsValue>, ts: JsValue, ms: JsValue)
    ensures SetMatrixCallbacks in InitEffects(cfg, ts, ms) <==>
      Truthy(Get(cfg, "taskbar")) && Truthy(Get(cfg, "matrixRain"))
    ensures HideTerminal in InitEffects(cfg, ts, ms) <==>
      Truthy(Get(cfg, "terminal")) && StartsHidden(ts, OptionOf(cfg, "terminalOptions", "autoShow"))
    ensures HideMusicPlayer in InitEffects(cfg, ts, ms) <==>
      Truthy(Get(cfg, "musicPlayer")) && StartsHidden(ms, OptionOf(cfg, "musicPlayerOptions", "autoShow"))
  {
    var m, t, p := MatrixStage(cfg), TaskbarStage(cfg), PlaylistStage(cfg);
    var w1, w2, u := TerminalStage(cfg, ts), MusicStage(cfg, ms), ButtonStage(cfg);
    assert InitEffects(cfg, ts, ms) == m + t + p + w1 + w2 + u;
    assert SetMatrixCallbacks !in m && SetMatrixCallbacks !in p && SetMatrixCallbacks !in w1;
    assert SetMatrixCallbacks !in w2 && SetMatrixCallbacks !in u;
    assert HideTerminal !in m && HideTerminal !in t && HideTerminal !in p;
    assert HideTerminal !in w2 && HideTerminal !in u;
    assert HideMusicPlayer !in m && HideMusicPlayer !in t && HideMusicPlayer !in p;
    assert HideMusicPlayer !in w1 && HideMusicPlayer !in u;
  }

  /** With the taskbar enabled, its callbacks are set before it is built and the
      button states are refreshed last of all. */
  lemma InitEffectsOrder(cfg: map<string, JsValue>, ts: JsValue, ms: JsValue)
    requires Truthy(Get(cfg, "taskbar"))
    ensures var e := InitEffects(cfg, ts, ms);
      var k := |MatrixStage(cfg)|;
      |e| >= k + 2 && e[k] == SetCallbacks &&
      e[k + |TaskbarStage(cfg)| - 1] == CreateTaskbar &&
      e[|e| - 1] == UpdateButtonStates
  {
    var e := InitEffects(cfg, ts, ms);
    var m, t := MatrixStage(cfg), TaskbarStage(cfg);
    var rest := PlaylistStage(cfg) + TerminalStage(cfg, ts) + MusicStage(cfg, ms);
    assert e == m + t + rest + [UpdateButtonStates];
    assert e[|m|] == t[0];
    assert e[|m| + |t| - 1] == t[|t| - 1];
  }

  class Kit {
    var initialized: bool
    var config: map<string, JsValue>
    /** The effects asked of the other modules so far. */
    var effects: seq<Effect>

    constructor ()
      ensures !initialized && config == map[] && effects == []
    {
      initialized, config, effects := false, map[], [];
    }

    /** `init`: the first call merges the configuration and sets everything up;
        any later call changes nothing. */
    method Init(given: map<string, JsValue>, terminalSaved: JsValue, musicSaved: JsValue)
      modifies this
      ensures initialized
      ensures old(initialized) ==> config == old(config) && effects == old(effects)
      ensures !old(initialized) ==> config == MergeConfig(given)
      ensures !old(initialized) ==> effects == old(effects) + InitEffects(config, terminalSaved, musicSaved)
    {
      if initialized {
        return;
      }
      config := MergeConfig(given);
      effects := effects + InitEffects(config, terminalSaved, musicSaved);
      initialized := true;
    }
  }

  /** A second `init`, whatever its configuration, leaves everything as the first
      one left it. */
  method InitTwice(a: map<string, JsValue>, b: map<string, JsValue>, ts: JsValue, ms: JsValue)
  {
    var kit := new Kit();
    kit.Init(a, ts, ms);
    var cfg, log := kit.config, kit.effects;
    kit.Init(b, ts, ms);
    assert kit.config == cfg == MergeConfig(a) && kit.effects == log;
  }

  // ---------------------------------------------------------------------------
  // Window stacking
  // ---------------------------------------------------------------------------

  /** The starting value of every z-index counter. */
  const BaseZ: int := 10000

  /** The z-index counters of the two windows and the shared one, and the z-index
      each window was last given (`None` while it has its stylesheet value). */
  class WindowStack {
    var shared: int
    var terminalTop: int
    var musicTop: int
    var terminalZ: Option<int>
    var musicZ: Option<int>

    /** A window's z-index never exceeds its module's counter. */
    ghost predicate Valid()
      reads this
    {
      (terminalZ.Some? ==> terminalZ.value <= terminalTop) &&
      (musicZ.Some? ==> musicZ.value <= musicTop)
    }

    constructor ()
      ensures Valid()
      ensures shared == BaseZ && terminalTop == BaseZ && musicTop == BaseZ
      ensures terminalZ == None && musicZ == None
    {
      shared, terminalTop, musicTop := BaseZ, BaseZ, BaseZ;
      terminalZ, musicZ := None, None;
    }

    /** A mouse-down on the terminal: its counter goes up and the window takes it. */
    method RaiseTerminal()
      requires Valid()
      modifies this
      ensures Valid()
      ensures terminalTop == old(terminalTop) + 1 && terminalZ == Some(terminalTop)
      ensures shared == old(shared) && musicTop == old(musicTop) && musicZ == old(musicZ)
    {
      terminalTop := terminalTop + 1;
      terminalZ := Some(terminalTop);
    }

    /** A mouse-down on the music player. */
    method RaiseMusic()
      requires Valid()
      modifies this
      ensures Valid()
      ensures musicTop == old(musicTop) + 1 && musicZ == Some(musicTop)
      ensures shared == old(shared) && terminalTop == old(terminalTop) && terminalZ == old(terminalZ)
    {
      musicTop := musicTop + 1;
      musicZ := Some(musicTop);
    }

    /** The periodic sync: the shared value becomes the largest of the three
        counters, and both window modules continue from it. */
    method Sync()
      requires Valid()
      modifies this
      ensures Valid()
      ensures shared == Max3(old(shared), old(terminalTop), old(musicTop))
      ensures shared >= old(shared) && terminalTop == shared && musicTop == shared
      ensures terminalZ == old(terminalZ) && musicZ == old(musicZ)
    {
      shared := Max3(shared, terminalTop, musicTop);
      terminalTop := shared;
      musicTop := shared;
    }
  }

  function Max3(a: int, b: int, c: int): (r: int)
    ensures r >= a && r >= b && r >= c
    ensures r == a || r == b || r == c
  {
    if a >= b && a >= c then a else if b >= c then b else c
  }

  /** After a sync, raising either window puts it strictly above the other. */
  method RaiseAfterSync(w: WindowStack, terminal: bool)
    requires w.Valid()
    modifies w
    ensures w.Valid()
    ensures terminal ==> w.terminalZ.Some? && (w.musicZ.Some? ==> w.musicZ.value < w.terminalZ.value)
    ensures !terminal ==> w.musicZ.Some? && (w.terminalZ.Some? ==> w.terminalZ.value < w.musicZ.value)
  {
    w.Sync();
    if terminal {
      w.RaiseTerminal();
    } else {
      w.RaiseMusic();
    }
  }

  /** Without a sync in between, the window clicked last can stay below the other:
      three clicks on the terminal and then one on the music player leave the music
      player underneath. */
  method RaiseWithoutSync()
  {
    var w := new WindowStack();
    w.RaiseTerminal();
    w.RaiseTerminal();
    w.RaiseTerminal();
    w.RaiseMusic();
    assert w.musicZ.value < w.terminalZ.value;
    w.Sync();
    w.RaiseMusic();
    assert w.terminalZ.value < w.musicZ.value;
  }
}
