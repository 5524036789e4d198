/** The event dispatcher: one handler per event kind, each threading the state through. */
module Events {
  import opened Types
  import opened Configuration
  import opened Clients
  import opened Workspaces
  import opened WmState
  import opened Commands

  /** The fields of an X event the handlers read, one variant per handled kind. */
  datatype Event =
    | ConfigureRequest(window: Window, x: int, y: int, width: nat, height: nat,
                       borderWidth: nat, above: Window, detail: int, valueMask: nat)
    | ConfigureNotify(window: Window)
    | DestroyNotify(window: Window)
    | KeyPress(keycode: KeyCode, state: Mask)
    | ButtonPress(window: Window)
    | MapRequest(window: Window)
    | PropertyNotify(window: Window)
    | Other(typ: int)  // `typ` is the code of a kind none of the handlers above takes

  /** What the handlers ask of the server: the keysym of a keycode, the attributes of a window
      (absent when the query fails) and the name of the root window. */
  datatype Display = Display(keysyms: map<KeyCode, KeySym>, attributes: map<Window, Attributes>, rootName: string)

  /** Column 0 of the keyboard mapping for `code`, NoSymbol when unmapped. */
  function KeysymOf(d: Display, code: KeyCode): KeySym {
    if code in d.keysyms then d.keysyms[code] else NoSymbol
  }

  /** The window changes of a configure request, as forwarded to the server. */
  datatype WindowChanges = WindowChanges(x: int, y: int, width: nat, height: nat,
                                         borderWidth: nat, sibling: Window, stackMode: int)

  /** Requests the handlers send to the server or the system. */
  datatype XRequest =
    | SendConfigure(ev: ConfigureEvent)
    | ConfigureWindow(window: Window, valueMask: nat, changes: WindowChanges)
    | Exec(cmd: Command)

  datatype Step = Step(wm: WM, requests: seq<XRequest>)

  function Execs(cmds: seq<Command>): (r: seq<XRequest>)
    ensures |r| == |cmds| && forall k :: 0 <= k < |cmds| ==> r[k] == Exec(cmds[k])
  {
    seq(|cmds|, k requires 0 <= k < |cmds| => Exec(cmds[k]))
  }

  /** Strips nothing: the modifier comparison is on the raw masks. */
  function CleanMask(mask: Mask): Mask {
    mask
  }

  /** A managed window gets its stored geometry back; an unmanaged one has its request
      forwarded verbatim. The state is never changed. */
  function HandleConfigureRequest(wm: WM, e: Event): (r: Step)
    requires e.ConfigureRequest?
    ensures r.wm == wm && |r.requests| == 1
    ensures IsManaged(wm.wss, e.window) ==>
      r.requests[0].SendConfigure? && r.requests[0].ev.window == e.window &&
      exists i, k :: 0 <= i < |wm.wss| && 0 <= k < |wm.wss[i].clients| &&
                     wm.wss[i].clients[k].win == e.window && r.requests[0].ev == Configure(wm.wss[i].clients[k])
    ensures !IsManaged(wm.wss, e.window) ==>
      r.requests[0] == ConfigureWindow(e.window, e.valueMask,
        WindowChanges(e.x, e.y, e.width, e.height, e.borderWidth, e.above, e.detail))
  {
    match FindFromWindow(e.window, wm.wss)
    case Some(c) =>
      Step(wm, [SendConfigure(Configure(c))])
    case None =>
      Step(wm, [ConfigureWindow(e.window, e.valueMask,
                  WindowChanges(e.x, e.y, e.width, e.height, e.borderWidth, e.above, e.detail))])
  }

  /** The index of the first binding for `keysym` whose modifiers equal `state`. */
  function FirstMatch(keys: seq<Key>, keysym: KeySym, state: Mask, from: nat): (r: Option<nat>)
    requires from <= |keys|
    ensures r.Some? ==> from <= r.value < |keys| && Matches(keys[r.value], keysym, state) &&
                        forall k :: from <= k < r.value ==> !Matches(keys[k], keysym, state)
    ensures r.None? ==> forall k :: from <= k < |keys| ==> !Matches(keys[k], keysym, state)
    decreases |keys| - from
  {
    if from == |keys| then None
    else if Matches(keys[from], keysym, state) then Some(from)
    else FirstMatch(keys, keysym, state, from + 1)
  }

  predicate Matches(key: Key, keysym: KeySym, state: Mask) {
    keysym == key.keysym && CleanMask(state) == CleanMask(key.modif)
  }

  /** Only the first matching binding runs; with none the state is unchanged. */
  function HandleKeyPress(wm: WM, d: Display, keys: seq<Key>, e: Event): (r: Step)
    requires e.KeyPress?
    ensures (forall k :: 0 <= k < |keys| ==> !Matches(keys[k], KeysymOf(d, e.keycode), e.state)) ==>
              r == Step(wm, [])
  {
    match FirstMatch(keys, KeysymOf(d, e.keycode), e.state, 0)
    case None => Step(wm, [])
    case Some(i) =>
      var o := Apply(keys[i], wm);
      Step(o.wm, Execs(o.spawned))
  }

  /** A window is managed only when its attributes are available, it does not bypass the
      manager and it is not managed already. */
  function HandleMapRequest(wm: WM, d: Display, e: Event): (r: Step)
    requires e.MapRequest? && WmState.Valid(wm)
    ensures r.requests == []
    ensures e.window !in d.attributes || d.attributes[e.window].overrideRedirect ==> r.wm == wm
    ensures IsManaged(wm.wss, e.window) ==> r.wm == wm
    ensures e.window in d.attributes && !d.attributes[e.window].overrideRedirect && !IsManaged(wm.wss, e.window) ==>
      r.wm == AfterManage(wm, e.window, d.attributes[e.window])
  {
    if e.window !in d.attributes || d.attributes[e.window].overrideRedirect then Step(wm, [])
    else if FindFromWindow(e.window, wm.wss) == None then
      Step(AfterManage(wm, e.window, d.attributes[e.window]), [])
    else Step(wm, [])
  }

  /** Refreshes the status text, but only for a change on the root window. */
  function HandlePropertyNotify(wm: WM, d: Display, e: Event): (r: Step)
    requires e.PropertyNotify?
    ensures r.requests == []
    ensures e.window == wm.root ==> r.wm == UpdateStatus(wm, d.rootName)
    ensures e.window != wm.root ==> r.wm == wm
  {
    if e.window == wm.root then Step(UpdateStatus(wm, d.rootName), []) else Step(wm, [])
  }

  /** Exactly one handler per listed kind; other kinds change nothing. */
  function HandleEvent(wm: WM, d: Display, keys: seq<Key>, e: Event): (r: Step)
    requires WmState.Valid(wm)
    ensures e.ConfigureRequest? ==> r == HandleConfigureRequest(wm, e)
    ensures e.ConfigureNotify? ==> r == Step(UpdateStatus(wm, d.rootName), [])
    ensures e.DestroyNotify? ==> r == Step(UpdateStatus(UnManage(wm, e.window), d.rootName), [])
    ensures e.KeyPress? ==> r == HandleKeyPress(wm, d, keys, e)
    ensures e.MapRequest? ==> r == HandleMapRequest(wm, d, e)
    ensures e.PropertyNotify? ==> r == HandlePropertyNotify(wm, d, e)
    ensures e.ButtonPress? || e.Other? ==> r == Step(wm, [])
  {
    match e
    case ConfigureRequest(_, _, _, _, _, _, _, _, _) => HandleConfigureRequest(wm, e)
    case ConfigureNotify(_) => Step(UpdateStatus(wm, d.rootName), [])
    case DestroyNotify(w) => Step(UpdateStatus(UnManage(wm, w), d.rootName), [])
    case KeyPress(_, _) => HandleKeyPress(wm, d, keys, e)
    case ButtonPress(_) => Step(wm, [])
    case MapRequest(_) => HandleMapRequest(wm, d, e)
    case PropertyNotify(_) => HandlePropertyNotify(wm, d, e)
    case Other(_) => Step(wm, [])
  }

  // ---------------------------------------------------------------------------
  // Properties of the dispatcher

  /** The modifier comparison is plain equality of the masks. */
  lemma CleanMaskIsEquality(a: Mask, b: Mask, key: Key, keysym: KeySym)
    ensures CleanMask(a) == CleanMask(b) <==> a == b
    ensures Matches(key, keysym, a) <==> key.keysym == keysym && key.modif == a
  {
  }

  /** A key press runs the first matching binding alone, whatever follows it in the table. */
  lemma KeyPressFirstMatch(wm: WM, d: Display, keys: seq<Key>, e: Event, i: nat)
    requires e.KeyPress? && i < |keys| && Matches(keys[i], KeysymOf(d, e.keycode), e.state)
    requires forall k :: 0 <= k < i ==> !Matches(keys[k], KeysymOf(d, e.keycode), e.state)
    ensures HandleKeyPress(wm, d, keys, e) == Step(Apply(keys[i], wm).wm, Execs(Apply(keys[i], wm).spawned))
    ensures HandleKeyPress(wm, d, keys, e) == HandleKeyPress(wm, d, keys[..i + 1], e)
  {
    var p := keys[..i + 1];
    assert forall k :: 0 <= k <= i ==> p[k] == keys[k];
  }

  /** A key press changes at most the running flag, and clears it exactly when the first
      matching binding quits. */
  lemma KeyPressChangesOnlyRunning(wm: WM, d: Display, keys: seq<Key>, e: Event)
    requires e.KeyPress?
    ensures var r := HandleKeyPress(wm, d, keys, e);
            r.wm == wm.(running := r.wm.running) &&
            (r.wm.running <==>
               (wm.running &&
                match FirstMatch(keys, KeysymOf(d, e.keycode), e.state, 0)
                case None => true
                case Some(i) => keys[i].func != Action.Quit))
  {
  }

  /** Unmanaging on destruction leaves no client with the destroyed handle. */
  lemma DestroyRemovesWindow(wm: WM, d: Display, keys: seq<Key>, w: Window)
    requires WmState.Valid(wm)
    ensures var r := HandleEvent(wm, d, keys, DestroyNotify(w));
            !IsManaged(r.wm.wss, w) && r.wm.stext == (if d.rootName == "" then wm.stext else d.rootName)
  {
  }

  /** Button presses and unlisted kinds change nothing; configure requests never change the state. */
  lemma PassiveEvents(wm: WM, d: Display, keys: seq<Key>, e: Event)
    requires WmState.Valid(wm)
    ensures e.ButtonPress? || e.Other? ==> HandleEvent(wm, d, keys, e) == Step(wm, [])
    ensures e.ConfigureRequest? ==> HandleEvent(wm, d, keys, e).wm == wm
    ensures e.ConfigureNotify? ==> HandleEvent(wm, d, keys, e).wm == UpdateStatus(wm, d.rootName)
  {
  }

  /** Every handler keeps the state invariant and the registry invariant. */
  lemma HandleEventKeepsInvariants(wm: WM, d: Display, keys: seq<Key>, e: Event)
    requires WmState.Valid(wm) && UniqueHandles(wm.wss)
    ensures WmState.Valid(HandleEvent(wm, d, keys, e).wm)
    ensures UniqueHandles(HandleEvent(wm, d, keys, e).wm.wss)
  {
    match e
    case DestroyNotify(w) => UnManageKeepsHandlesUnique(wm, w);
    case MapRequest(w) =>
      if w in d.attributes && !d.attributes[w].overrideRedirect && !IsManaged(wm.wss, w) {
        ManageKeepsHandlesUnique(wm, w, d.attributes[w]);
      }
    case _ =>
  }

  /** A mapped window with attributes that does not bypass the manager ends up managed,
      and the number of clients grows by one exactly when it was not managed before. */
  lemma MapRequestManages(wm: WM, d: Display, keys: seq<Key>, w: Window)
    requires WmState.Valid(wm) && UniqueHandles(wm.wss)
    requires w in d.attributes && !d.attributes[w].overrideRedirect
    ensures IsManaged(HandleEvent(wm, d, keys, MapRequest(w)).wm.wss, w)
    ensures TotalClients(HandleEvent(wm, d, keys, MapRequest(w)).wm.wss) ==
            TotalClients(wm.wss) + (if IsManaged(wm.wss, w) then 0 else 1)
  {
    if !IsManaged(wm.wss, w) {
      ManageKeepsHandlesUnique(wm, w, d.attributes[w]);
      ManageCountsOne(wm, w, d.attributes[w]);
    }
  }
}
