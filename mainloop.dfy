/** The older top-level revision: command line, error handler, screen de-duplication,
    its own dispatcher and key handler, and the main loop. */
module MainLoop {
  import opened Types
  import opened Configuration
  import opened Workspaces
  import opened WmState
  import opened Commands
  import opened Events

  const Version: string := "0.0.1"

  /** What the command line decides: carry on, or print a line and exit with a status. */
  datatype Startup = Proceed | Exit(status: int, output: string)

  /** `args` holds the program name first, as the process receives it. */
  function CheckArgs(args: seq<string>): (r: Startup)
    ensures r == Exit(0, "dwm-rust-" + Version) <==> |args| == 2 && args[1] == "-v"
    ensures r == Exit(1, "usage: dwm-rust [-v]") <==> |args| > 1 && !(|args| == 2 && args[1] == "-v")
    ensures r == Proceed <==> |args| <= 1
  {
    if |args| == 2 && args[1] == "-v" then Exit(0, "dwm-rust-" + Version)
    else if |args| > 1 then Exit(1, "usage: dwm-rust [-v]")
    else Proceed
  }

  /** The error handler either ignores an error (returning 0) or ends the process with status 1. */
  datatype ErrorAction = Ignore | Fatal(status: int)

  function XError(errorCode: nat): (r: ErrorAction)
    ensures r == Ignore <==> errorCode == BadWindow || errorCode == BadDrawable ||
                             errorCode == BadMatch || errorCode == BadAccess
    ensures r != Ignore ==> r == Fatal(1)
  {
    if errorCode == BadWindow || errorCode == BadDrawable || errorCode == BadMatch || errorCode == BadAccess then Ignore
    else Fatal(1)
  }

  // ---------------------------------------------------------------------------
  // Screen de-duplication

  datatype ScreenInfo = ScreenInfo(screenNumber: int, xOrg: int, yOrg: int, width: int, height: int)

  predicate SameGeom(a: ScreenInfo, b: ScreenInfo) {
    a.xOrg == b.xOrg && a.yOrg == b.yOrg && a.width == b.width && a.height == b.height
  }

  /** No entry with index in `lo..hi` has the geometry of `info`; the range is empty when lo >= hi. */
  predicate NoneIn(unique: seq<ScreenInfo>, lo: int, hi: int, info: ScreenInfo)
    requires lo < hi ==> 0 <= lo && hi <= |unique|
  {
    forall i :: lo <= i < hi ==> !SameGeom(unique[i], info)
  }

  /** The search loop over the index range `lo..hi`, returning at the first equal geometry. */
  method ScanRange(unique: seq<ScreenInfo>, lo: int, hi: int, info: ScreenInfo) returns (r: bool)
    requires lo < hi ==> 0 <= lo && hi <= |unique|
    ensures r == NoneIn(unique, lo, hi, info)
  {
    var i := lo;
    while i < hi
      invariant i == lo || (lo < hi && lo <= i <= hi)
      invariant NoneIn(unique, lo, i, info)
    {
      if SameGeom(unique[i], info) {
        return false;
      }
      i := i + 1;
    }
    return true;
  }

  /** The check as written scans `n..0`, which is empty, so every geometry counts as unique. */
  method IsUniqueGeomAsWritten(unique: seq<ScreenInfo>, n: nat, info: ScreenInfo) returns (r: bool)
    ensures r
  {
    r := ScanRange(unique, n, 0, info);
  }

  /** The check as intended: unique exactly when none of the first `n` entries has the same geometry. */
  method IsUniqueGeom(unique: seq<ScreenInfo>, n: nat, info: ScreenInfo) returns (r: bool)
    requires n <= |unique|
    ensures r <==> forall i :: 0 <= i < n ==> !SameGeom(unique[i], info)
  {
    r := ScanRange(unique, 0, n, info);
  }

  /** One screen already recorded with the same geometry: the scan as written still reports it
      unique, the intended scan does not. */
  lemma IsUniqueGeomCounterexample()
    ensures var g := ScreenInfo(0, 0, 0, 1920, 1080);
            NoneIn([g], 1, 0, g) && !NoneIn([g], 0, 1, g)
  {
    var g := ScreenInfo(0, 0, 0, 1920, 1080);
    assert SameGeom([g][0], g);
  }

  // ---------------------------------------------------------------------------
  // Key presses of this revision: every matching binding runs

  /** The outcome of running, in table order, every binding that matches. */
  function AllMatches(keys: seq<Key>, keysym: KeySym, state: Mask, wm: WM): Outcome {
    if keys == [] then Outcome(wm, [])
    else
      var o := AllMatches(keys[..|keys| - 1], keysym, state, wm);
      var key := keys[|keys| - 1];
      if Matches(key, keysym, state) then
        var a := Apply(key, o.wm);
        Outcome(a.wm, o.spawned + a.spawned)
      else o
  }

  /** The loop over the whole key table, applying each match to the state in turn. */
  method KeyPress(wm: WM, d: Display, keys: seq<Key>, e: Event) returns (r: WM, spawned: seq<Command>)
    requires e.KeyPress?
    ensures Outcome(r, spawned) == AllMatches(keys, KeysymOf(d, e.keycode), e.state, wm)
  {
    var keysym := KeysymOf(d, e.keycode);
    r := wm;
    spawned := [];
    for i := 0 to |keys|
      invariant Outcome(r, spawned) == AllMatches(keys[..i], keysym, e.state, wm)
    {
      assert keys[..i + 1][..i] == keys[..i];
      if keysym == keys[i].keysym && CleanMask(e.state) == CleanMask(keys[i].modif) {
        var o := Apply(keys[i], r);
        r := o.wm;
        spawned := spawned + o.spawned;
      }
    }
    assert keys[..|keys|] == keys;
  }

  /** Running every match changes at most the running flag, which is cleared exactly when
      some matching binding quits; a matching spawn binding with a string argument starts its
      command, and nothing else is started. */
  lemma {:induction false} AllMatchesMeaning(keys: seq<Key>, keysym: KeySym, state: Mask, wm: WM)
    ensures var o := AllMatches(keys, keysym, state, wm);
            o.wm == wm.(running := o.wm.running) &&
            (o.wm.running <==>
               (wm.running &&
                forall k :: 0 <= k < |keys| && Matches(keys[k], keysym, state) ==> keys[k].func != Action.Quit))
    ensures forall c :: c in AllMatches(keys, keysym, state, wm).spawned <==>
              exists k :: 0 <= k < |keys| && Matches(keys[k], keysym, state) &&
                          keys[k].func == Action.Spawn && SpawnCommand(keys[k].arg) == Some(c)
  {
    if keys != [] {
      var init := keys[..|keys| - 1];
      var key := keys[|keys| - 1];
      AllMatchesMeaning(init, keysym, state, wm);
      assert forall k :: 0 <= k < |init| ==> init[k] == keys[k];
      var o := AllMatches(init, keysym, state, wm);
      if Matches(key, keysym, state) {
        var a := Apply(key, o.wm);
        forall c | c in a.spawned
          ensures exists k :: 0 <= k < |keys| && Matches(keys[k], keysym, state) &&
                              keys[k].func == Action.Spawn && SpawnCommand(keys[k].arg) == Some(c)
        {
          assert Matches(keys[|keys| - 1], keysym, state);
        }
      }
      forall c | exists k :: 0 <= k < |keys| && Matches(keys[k], keysym, state) &&
                             keys[k].func == Action.Spawn && SpawnCommand(keys[k].arg) == Some(c)
        ensures c in AllMatches(keys, keysym, state, wm).spawned
      {
        var k :| 0 <= k < |keys| && Matches(keys[k], keysym, state) &&
                 keys[k].func == Action.Spawn && SpawnCommand(keys[k].arg) == Some(c);
        if k < |keys| - 1 {
          assert init[k] == keys[k];
        }
      }
    }
  }

  /** With a single matching binding the two revisions of the key handler agree. */
  lemma {:induction false} SingleMatchAgrees(wm: WM, d: Display, keys: seq<Key>, e: Event, i: nat)
    requires e.KeyPress? && i < |keys| && Matches(keys[i], KeysymOf(d, e.keycode), e.state)
    requires forall k :: 0 <= k < |keys| && k != i ==> !Matches(keys[k], KeysymOf(d, e.keycode), e.state)
    ensures var o := AllMatches(keys, KeysymOf(d, e.keycode), e.state, wm);
            Events.HandleKeyPress(wm, d, keys, e) == Step(o.wm, Execs(o.spawned))
  {
    KeyPressFirstMatch(wm, d, keys, e, i);
    SingleMatchFold(keys, KeysymOf(d, e.keycode), e.state, wm, i);
  }

  lemma {:induction false} SingleMatchFold(keys: seq<Key>, keysym: KeySym, state: Mask, wm: WM, i: nat)
    requires i < |keys| && Matches(keys[i], keysym, state)
    requires forall k :: 0 <= k < |keys| && k != i ==> !Matches(keys[k], keysym, state)
    ensures AllMatches(keys, keysym, state, wm) == Apply(keys[i], wm)
    decreases |keys|
  {
    var init := keys[..|keys| - 1];
    if i < |keys| - 1 {
      assert forall k :: 0 <= k < |init| ==> init[k] == keys[k];
      SingleMatchFold(init, keysym, state, wm, i);
    } else {
      assert forall k :: 0 <= k < |init| ==> init[k] == keys[k];
      NoMatchFold(init, keysym, state, wm);
    }
  }

  lemma {:induction false} NoMatchFold(keys: seq<Key>, keysym: KeySym, state: Mask, wm: WM)
    requires forall k :: 0 <= k < |keys| ==> !Matches(keys[k], keysym, state)
    ensures AllMatches(keys, keysym, state, wm) == Outcome(wm, [])
  {
    if keys != [] {
      var init := keys[..|keys| - 1];
      assert forall k :: 0 <= k < |init| ==> init[k] == keys[k];
      NoMatchFold(init, keysym, state, wm);
    }
  }

  /** Two spawn bindings on the same key: this revision starts both commands, the other
      revision only the first. */
  lemma RevisionsDifferOnDoubleBinding(wm: WM, d: Display)
    requires 10 in d.keysyms && d.keysyms[10] == 0x61
    ensures var keys := [Key(0, 0x61, Action.Spawn, S("xterm")), Key(0, 0x61, Action.Spawn, S("st"))];
            var e := Events.Event.KeyPress(10, 0);
            AllMatches(keys, KeysymOf(d, e.keycode), e.state, wm).spawned ==
              [Command("xterm", []), Command("st", [])] &&
            Events.HandleKeyPress(wm, d, keys, e).requests == [Exec(Command("xterm", []))]
  {
    var keys := [Key(0, 0x61, Action.Spawn, S("xterm")), Key(0, 0x61, Action.Spawn, S("st"))];
    assert keys[..1] == [keys[0]];
    assert [keys[0]][..0] == [];
    SpawnRoundTrip("xterm", []);
    SpawnRoundTrip("st", []);
    assert Join(["xterm"]) == "xterm" && Join(["st"]) == "st";
    assert KeysymOf(d, 10) == 0x61;
    assert Matches(keys[0], 0x61, 0) && Matches(keys[1], 0x61, 0);
    assert AllMatches(keys[..1], 0x61, 0, wm).spawned == [Command("xterm", [])];
    assert AllMatches(keys, 0x61, 0, wm).spawned == [Command("xterm", []), Command("st", [])];
    assert FirstMatch(keys, 0x61, 0, 0) == Some(0);
  }

  // ---------------------------------------------------------------------------
  // Dispatch and the main loop

  /** This revision dispatches only key presses and map requests. */
  function HandleEvent(wm: WM, d: Display, keys: seq<Key>, e: Event): (r: Step)
    requires WmState.Valid(wm)
    ensures WmState.Valid(r.wm)
    ensures !e.KeyPress? && !e.MapRequest? ==> r == Step(wm, [])
    ensures e.MapRequest? ==> r == Events.HandleMapRequest(wm, d, e)
    ensures e.KeyPress? ==> r.wm.wss == wm.wss && r.wm.selwsindex == wm.selwsindex
    ensures e.KeyPress? ==> var o := AllMatches(keys, KeysymOf(d, e.keycode), e.state, wm);
                            r == Step(o.wm, Execs(o.spawned))
  {
    match e
    case KeyPress(_, _) =>
      var o := AllMatches(keys, KeysymOf(d, e.keycode), e.state, wm);
      AllMatchesMeaning(keys, KeysymOf(d, e.keycode), e.state, wm);
      Step(o.wm, Execs(o.spawned))
    case MapRequest(_) => Events.HandleMapRequest(wm, d, e)
    case _ => Step(wm, [])
  }

  /** What the loop leaves: the final state, every request made, and how many events it handled. */
  datatype RunResult = RunResult(wm: WM, requests: seq<XRequest>, handled: nat)

  /** Handles events in order while the state says running. The list stands for the events
      the server delivers until its queue fails. */
  function RunSpec(wm: WM, d: Display, keys: seq<Key>, events: seq<Event>): (r: RunResult)
    requires WmState.Valid(wm)
    ensures WmState.Valid(r.wm) && r.handled <= |events|
    ensures r.handled < |events| ==> !r.wm.running
    ensures !wm.running ==> r == RunResult(wm, [], 0)
    decreases |events|
  {
    if !wm.running || events == [] then RunResult(wm, [], 0)
    else
      var s := HandleEvent(wm, d, keys, events[0]);
      var rest := RunSpec(s.wm, d, keys, events[1..]);
      RunResult(rest.wm, s.requests + rest.requests, rest.handled + 1)
  }

  /** The main loop: test the flag, take the next event, hand the state to the dispatcher. */
  method Run(wm: WM, d: Display, keys: seq<Key>, events: seq<Event>) returns (r: WM, requests: seq<XRequest>, handled: nat)
    requires WmState.Valid(wm)
    ensures RunResult(r, requests, handled) == RunSpec(wm, d, keys, events)
  {
    r := wm;
    requests := [];
    var i := 0;
    while r.running && i < |events|
      invariant 0 <= i <= |events| && WmState.Valid(r)
      invariant var tail := RunSpec(r, d, keys, events[i..]);
                RunSpec(wm, d, keys, events) == RunResult(tail.wm, requests + tail.requests, i + tail.handled)
    {
      var s := HandleEvent(r, d, keys, events[i]);
      assert events[i..][0] == events[i] && events[i..][1..] == events[i + 1..];
      ghost var tail := RunSpec(s.wm, d, keys, events[i + 1..]);
      assert requests + (s.requests + tail.requests) == (requests + s.requests) + tail.requests;
      r := s.wm;
      requests := requests + s.requests;
      i := i + 1;
    }
    handled := i;
    assert events[i..] == [] || !r.running;
    assert requests + [] == requests;
  }

  /** An event whose handler clears the flag is the last one handled: the rest are ignored. */
  lemma QuitEndsRun(wm: WM, d: Display, keys: seq<Key>, e: Event, rest: seq<Event>)
    requires WmState.Valid(wm) && wm.running && !HandleEvent(wm, d, keys, e).wm.running
    ensures var s := HandleEvent(wm, d, keys, e);
            RunSpec(wm, d, keys, [e] + rest) == RunResult(s.wm, s.requests, 1)
  {
    assert ([e] + rest)[0] == e && ([e] + rest)[1..] == rest;
    assert HandleEvent(wm, d, keys, e).requests + [] == HandleEvent(wm, d, keys, e).requests;
  }

  /** The loop keeps the registry invariant. */
  lemma {:induction false} RunKeepsHandlesUnique(wm: WM, d: Display, keys: seq<Key>, events: seq<Event>)
    requires WmState.Valid(wm) && UniqueHandles(wm.wss)
    ensures UniqueHandles(RunSpec(wm, d, keys, events).wm.wss)
    decreases |events|
  {
    if wm.running && events != [] {
      var s := HandleEvent(wm, d, keys, events[0]);
      if events[0].MapRequest? {
        HandleEventKeepsInvariants(wm, d, keys, events[0]);
      }
      RunKeepsHandlesUnique(s.wm, d, keys, events[1..]);
    }
  }

  // ---------------------------------------------------------------------------
  // Start-up

  /** What `setup` yields: an exit when no font loads, otherwise the state and the key grabs. */
  datatype SetupResult = NoFont(status: int, output: string) | Ready(wm: WM, grabs: seq<KeyGrab>)

  /** The state `setup` builds once a font is loaded: workspaces created, bars assigned,
      status read from the root window and the Num Lock mask refreshed. */
  function SetupState(cfg: Config, screen: int, root: Window, sw: nat, sh: nat, fontHeight: nat,
                      barwin: Window, rootName: string, m: ModifierKeymap, keycodes: map<KeySym, KeyCode>): WM
    requires Configuration.Valid(cfg) && |cfg.tags| > 0 && WellFormed(m)
  {
    var created := CreateWorkspaces(cfg, InitWm(screen, root, sw, sh, fontHeight));
    UpdateStatus(WithBars(created, barwin), rootName).(numlockmask := NumLockMask(m, KeycodeOf(keycodes, XK_Num_Lock)))
  }

  /** Loads the fonts (their heights are the input `fontHeights`), then chains initialisation,
      workspace creation, bar assignment, the status refresh and the key grabs. */
  method Setup(cfg: Config, screen: int, root: Window, sw: nat, sh: nat, fontHeights: seq<nat>,
               barwin: Window, rootName: string, m: ModifierKeymap, keycodes: map<KeySym, KeyCode>)
    returns (r: SetupResult)
    requires Configuration.Valid(cfg) && |cfg.tags| > 0 && WellFormed(m)
    ensures r.NoFont? <==> fontHeights == []
    ensures r.NoFont? ==> r == NoFont(1, "no fonts could be loaded.\n")
    ensures r.Ready? ==> r.wm == SetupState(cfg, screen, root, sw, sh, fontHeights[0], barwin, rootName, m, keycodes)
    ensures r.Ready? ==> r.grabs == Grabs(cfg.keys, keycodes, r.wm.numlockmask)
  {
    if |fontHeights| < 1 {
      return NoFont(1, "no fonts could be loaded.\n");
    }
    var wm := InitWm(screen, root, sw, sh, fontHeights[0]);
    wm := CreateWorkspaces(cfg, wm);
    wm := UpdateBars(wm, barwin);
    wm := UpdateStatus(wm, rootName);
    var grabs;
    wm, grabs := GrabKeys(wm, cfg.keys, m, keycodes);
    r := Ready(wm, grabs);
  }

  /** The state `setup` hands to the main loop satisfies the invariants the loop keeps:
      a valid selection, fitting bars, no client, every workspace given the bar window. */
  lemma SetupStateValid(cfg: Config, screen: int, root: Window, sw: nat, sh: nat, fontHeight: nat,
                        barwin: Window, rootName: string, m: ModifierKeymap, keycodes: map<KeySym, KeyCode>)
    requires Configuration.Valid(cfg) && |cfg.tags| > 0 && WellFormed(m)
    requires cfg.showbar ==> fontHeight + 2 <= sh
    ensures var r := SetupState(cfg, screen, root, sw, sh, fontHeight, barwin, rootName, m, keycodes);
            WmState.Valid(r) && UniqueHandles(r.wss) && TotalClients(r.wss) == 0 &&
            r.running && r.selwsindex == 0 && |r.wss| == |cfg.tags| &&
            forall i :: 0 <= i < |r.wss| ==> r.wss[i].barwin == barwin && r.wss[i].tag == cfg.tags[i]
  {
    var init := InitWm(screen, root, sw, sh, fontHeight);
    CreateWorkspacesValid(cfg, init);
    var created := CreateWorkspaces(cfg, init);
    var r := SetupState(cfg, screen, root, sw, sh, fontHeight, barwin, rootName, m, keycodes);
    assert forall i :: 0 <= i < |r.wss| ==> r.wss[i] == created.wss[i].(barwin := barwin);
    assert forall i :: 0 <= i < |r.wss| ==> r.wss[i].clients == [];
    ZeroClients(r.wss);
  }

  /** With the shipped configuration, every workspace starts tiled with its bar at the bottom
      of the screen, leaving the height above it to the clients. */
  lemma ShippedSetup(tags: seq<string>, keys: seq<Key>, screen: int, root: Window, sw: nat, sh: nat,
                     fontHeight: nat, barwin: Window, rootName: string, m: ModifierKeymap, keycodes: map<KeySym, KeyCode>)
    requires |tags| > 0 && WellFormed(m) && fontHeight + 2 <= sh
    ensures var r := SetupState(Shipped(tags, keys), screen, root, sw, sh, fontHeight, barwin, rootName, m, keycodes);
            forall i :: 0 <= i < |r.wss| ==>
              r.wss[i].lt.arrange == Tile && r.wss[i].nmaster == 2 &&
              r.wss[i].barY == sh - (fontHeight + 2) && MinY(r.wss[i]) == 0 && MaxH(r.wss[i]) == sh - (fontHeight + 2)
  {
    var cfg := Shipped(tags, keys);
    var r := SetupState(cfg, screen, root, sw, sh, fontHeight, barwin, rootName, m, keycodes);
    forall i | 0 <= i < |r.wss|
      ensures r.wss[i].lt.arrange == Tile && r.wss[i].nmaster == 2 && r.wss[i].barY == sh - (fontHeight + 2)
      ensures MinY(r.wss[i]) == 0 && MaxH(r.wss[i]) == sh - (fontHeight + 2)
    {
      var created := CreateWorkspaces(cfg, InitWm(screen, root, sw, sh, fontHeight));
      assert r.wss[i] == created.wss[i].(barwin := r.wss[i].barwin);
    }
  }
}
