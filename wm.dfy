/** The window manager's state and the operations that change it. */
module WmState {
  import opened Types
  import opened Configuration
  import opened Clients
  import opened Workspaces

  /** The state threaded through every handler. Display, atom, cursor and color
      resources are not part of the model. */
  datatype WM = WM(
    screen: int,
    root: Window,
    running: bool,
    wss: seq<Workspace>,
    selwsindex: nat,
    oldwsindex: nat,
    sw: nat, sh: nat,
    bh: nat,
    stext: string,
    numlockmask: Mask)

  /** What the operations indexing the selected workspace and computing its content
      rectangle need: a valid selection and bars that fit. */
  predicate Valid(wm: WM) {
    wm.selwsindex < |wm.wss| &&
    forall i :: 0 <= i < |wm.wss| ==> BarFits(wm.wss[i])
  }

  predicate NoDup(s: seq<Window>) {
    forall a, b :: 0 <= a < b < |s| ==> s[a] != s[b]
  }

  /** The registry invariant: every handle appears at most once in at most one workspace. */
  predicate UniqueHandles(wss: seq<Workspace>) {
    (forall i :: 0 <= i < |wss| ==> NoDup(Wins(wss[i].clients))) &&
    (forall i, j, w :: 0 <= i < |wss| && 0 <= j < |wss| && i != j && w in Wins(wss[i].clients) ==>
       w !in Wins(wss[j].clients))
  }

  /** Number of clients across all workspaces. */
  function TotalClients(wss: seq<Workspace>): nat {
    if wss == [] then 0 else TotalClients(wss[..|wss| - 1]) + |wss[|wss| - 1].clients|
  }

  /** The freshly initialised state: running, no workspace yet, bar height from the font. */
  function InitWm(screen: int, root: Window, sw: nat, sh: nat, fontHeight: nat): (wm: WM)
    ensures wm.running && wm.wss == [] && wm.selwsindex == 0 && wm.oldwsindex == 0
    ensures wm.screen == screen && wm.root == root && wm.sw == sw && wm.sh == sh
    ensures wm.bh == fontHeight + 2 && wm.stext == "dwm-rust" && wm.numlockmask == 0
  {
    WM(screen, root, true, [], 0, 0, sw, sh, fontHeight + 2, "dwm-rust", 0)
  }

  /** One workspace per configured tag, screen-sized, its bar placed; the first is selected. */
  function CreateWorkspaces(cfg: Config, wm: WM): (r: WM)
    requires Configuration.Valid(cfg)
    ensures r == wm.(wss := r.wss, selwsindex := 0)
    ensures |r.wss| == |cfg.tags|
    ensures forall i :: 0 <= i < |cfg.tags| ==>
      var ws := r.wss[i];
      ws == UpdateBarPos(CreateWorkspace(cfg, cfg.tags[i]).(w := wm.sw, h := wm.sh), wm.bh) &&
      ws.tag == cfg.tags[i] && ws.w == wm.sw && ws.h == wm.sh && ws.bh == wm.bh &&
      ws.clients == [] && ws.barwin == 0 && ws.lt == cfg.layouts[0]
  {
    wm.(wss := seq(|cfg.tags|, i requires 0 <= i < |cfg.tags| =>
                     UpdateBarPos(CreateWorkspace(cfg, cfg.tags[i]).(w := wm.sw, h := wm.sh), wm.bh)),
        selwsindex := 0)
  }

  // ---------------------------------------------------------------------------
  // Num_Lock modifier

  /** The server's modifier map: eight rows of `maxKeyPerMod` keycodes, stored flat. */
  datatype ModifierKeymap = ModifierKeymap(maxKeyPerMod: nat, modifiermap: seq<KeyCode>)

  predicate WellFormed(m: ModifierKeymap) {
    |m.modifiermap| == 8 * m.maxKeyPerMod
  }

  lemma EntryInRange(i: nat, j: nat, max: nat)
    requires i < 8 && j < max
    ensures i * max + j < 8 * max
  {
    assert 8 * max - (i + 1) * max == (7 - i) * max;
  }

  /** Entry j of row i of the modifier map. */
  function Entry(m: ModifierKeymap, i: nat, j: nat): KeyCode
    requires WellFormed(m) && i < 8 && j < m.maxKeyPerMod
  {
    EntryInRange(i, j, m.maxKeyPerMod);
    m.modifiermap[i * m.maxKeyPerMod + j]
  }

  predicate RowHas(m: ModifierKeymap, code: KeyCode, i: nat)
    requires WellFormed(m) && i < 8
  {
    exists j :: 0 <= j < m.maxKeyPerMod && Entry(m, i, j) == code
  }

  /** The first row from `i` on that contains `code`. */
  function FirstRowFrom(m: ModifierKeymap, code: KeyCode, i: nat): (r: Option<nat>)
    requires WellFormed(m) && i <= 8
    ensures r.Some? ==> i <= r.value < 8 && RowHas(m, code, r.value) &&
                        forall k :: i <= k < r.value ==> !RowHas(m, code, k)
    ensures r.None? ==> forall k :: i <= k < 8 ==> !RowHas(m, code, k)
    decreases 8 - i
  {
    if i == 8 then None
    else if RowHas(m, code, i) then Some(i)
    else FirstRowFrom(m, code, i + 1)
  }

  lemma FirstRowIs(m: ModifierKeymap, code: KeyCode, i: nat)
    requires WellFormed(m) && i < 8 && RowHas(m, code, i)
    requires forall k :: 0 <= k < i ==> !RowHas(m, code, k)
    ensures FirstRowFrom(m, code, 0) == Some(i)
  {
  }

  /** The modifier bit of row `i`. */
  function RowBit(i: nat): Mask
    requires i < 8
  {
    (1 as Mask) << i
  }

  /** The modifier bit of the first row holding the Num_Lock keycode, or 0. */
  function NumLockMask(m: ModifierKeymap, code: KeyCode): (r: Mask)
    requires WellFormed(m)
    ensures (forall i :: 0 <= i < 8 ==> !RowHas(m, code, i)) ==> r == 0
    ensures forall i :: 0 <= i < 8 && RowHas(m, code, i) && (forall k :: 0 <= k < i ==> !RowHas(m, code, k)) ==>
              r == RowBit(i)
  {
    match FirstRowFrom(m, code, 0)
    case None => 0
    case Some(i) => RowBit(i)
  }

  /** The keycode the server maps a keysym to; NoSymbol when it has none. */
  function KeycodeOf(keycodes: map<KeySym, KeyCode>, ks: KeySym): KeyCode {
    if ks in keycodes then keycodes[ks] else NoSymbol
  }

  /** The nested search of the modifier map, returning as soon as the keycode is found. */
  method UpdateNumLockMask(wm: WM, m: ModifierKeymap, keycodes: map<KeySym, KeyCode>) returns (r: WM)
    requires WellFormed(m)
    ensures r == wm.(numlockmask := NumLockMask(m, KeycodeOf(keycodes, XK_Num_Lock)))
  {
    var numLock := KeycodeOf(keycodes, XK_Num_Lock);
    for i := 0 to 8
      invariant forall k :: 0 <= k < i ==> !RowHas(m, numLock, k)
    {
      for j := 0 to m.maxKeyPerMod
        invariant forall l :: 0 <= l < j ==> Entry(m, i, l) != numLock
      {
        EntryInRange(i, j, m.maxKeyPerMod);
        if m.modifiermap[i * m.maxKeyPerMod + j] == numLock {
          assert Entry(m, i, j) == numLock;
          FirstRowIs(m, numLock, i);
          return wm.(numlockmask := RowBit(i));
        }
      }
    }
    assert FirstRowFrom(m, numLock, 0).None?;
    return wm.(numlockmask := 0);
  }

  /** The mask is zero exactly when no row holds the keycode, and otherwise the bit of the
      smallest such row. */
  lemma NumLockMaskMeaning(m: ModifierKeymap, code: KeyCode)
    requires WellFormed(m)
    ensures NumLockMask(m, code) == 0 <==> forall i :: 0 <= i < 8 ==> !RowHas(m, code, i)
    ensures forall i :: 0 <= i < 8 && RowHas(m, code, i) && (forall k :: 0 <= k < i ==> !RowHas(m, code, k)) ==>
              NumLockMask(m, code) == RowBit(i)
  {
    var r := FirstRowFrom(m, code, 0);
    if r.Some? {
      var i := r.value;
      assert i < 8;
      assert RowBit(i) != 0 by {
        assert i == 0 || i == 1 || i == 2 || i == 3 || i == 4 || i == 5 || i == 6 || i == 7;
      }
    }
  }

  // ---------------------------------------------------------------------------
  // Key grabs

  datatype KeyGrab = KeyGrab(keycode: KeyCode, modifiers: Mask)

  /** Each binding is grabbed with and without Caps Lock and Num Lock. */
  function Modifiers(numlockmask: Mask): seq<Mask> {
    [0, LockMask, numlockmask, Combined(numlockmask, LockMask)]
  }

  /** Two masks or-ed together, such as a binding's modifiers and one lock combination. */
  function Combined(modif: Mask, locks: Mask): Mask {
    modif | locks
  }

  /** The four grabs of one binding, or none when its keysym has no keycode. */
  function GrabsForKey(key: Key, keycodes: map<KeySym, KeyCode>, numlockmask: Mask): (r: seq<KeyGrab>)
    ensures |r| == if KeycodeOf(keycodes, key.keysym) != 0 then 4 else 0
    ensures forall j :: 0 <= j < |r| ==>
      r[j] == KeyGrab(KeycodeOf(keycodes, key.keysym), Combined(key.modif, Modifiers(numlockmask)[j]))
  {
    var code := KeycodeOf(keycodes, key.keysym);
    var mods := Modifiers(numlockmask);
    if code != 0 then
      [KeyGrab(code, Combined(key.modif, mods[0])), KeyGrab(code, Combined(key.modif, mods[1])),
       KeyGrab(code, Combined(key.modif, mods[2])), KeyGrab(code, Combined(key.modif, mods[3]))]
    else []
  }

  /** The grabs for a key table, in table order. */
  function Grabs(keys: seq<Key>, keycodes: map<KeySym, KeyCode>, numlockmask: Mask): (r: seq<KeyGrab>)
    ensures |r| <= 4 * |keys| && |r| % 4 == 0
  {
    if keys == [] then []
    else Grabs(keys[..|keys| - 1], keycodes, numlockmask) + GrabsForKey(keys[|keys| - 1], keycodes, numlockmask)
  }

  /** Refreshes the Num Lock mask, then grabs every bound key that has a keycode
      (after releasing every previous grab, which is not modelled). */
  method GrabKeys(wm: WM, keys: seq<Key>, m: ModifierKeymap, keycodes: map<KeySym, KeyCode>)
    returns (r: WM, grabs: seq<KeyGrab>)
    requires WellFormed(m)
    ensures r == wm.(numlockmask := NumLockMask(m, KeycodeOf(keycodes, XK_Num_Lock)))
    ensures grabs == Grabs(keys, keycodes, r.numlockmask)
  {
    r := UpdateNumLockMask(wm, m, keycodes);
    var nlm := r.numlockmask;
    var modifiers := Modifiers(nlm);
    grabs := [];
    for i := 0 to |keys|
      invariant grabs == Grabs(keys[..i], keycodes, nlm)
    {
      var code := KeycodeOf(keycodes, keys[i].keysym);
      ghost var before := grabs;
      if code != 0 {
        var mine := GrabKey(keys[i], keycodes, nlm, code, modifiers);
        grabs := grabs + mine;
      }
      GrabsStep(keys, keycodes, nlm, i, grabs, before);
    }
    assert keys[..|keys|] == keys;
  }

  /** The inner loop of the grabs: one grab of a bound key per lock combination. */
  method GrabKey(key: Key, keycodes: map<KeySym, KeyCode>, nlm: Mask, code: KeyCode, modifiers: seq<Mask>)
    returns (grabs: seq<KeyGrab>)
    requires code == KeycodeOf(keycodes, key.keysym) && code != 0 && modifiers == Modifiers(nlm)
    ensures grabs == GrabsForKey(key, keycodes, nlm)
  {
    grabs := [];
    for j := 0 to |modifiers|
      invariant grabs == GrabsForKey(key, keycodes, nlm)[..j]
    {
      grabs := grabs + [KeyGrab(code, Combined(key.modif, modifiers[j]))];
      GrabsForKeyStep(key, keycodes, nlm, j);
    }
    assert GrabsForKey(key, keycodes, nlm)[..4] == GrabsForKey(key, keycodes, nlm);
  }

  /** One more lock combination appends one more grab of the binding. */
  lemma GrabsForKeyStep(key: Key, keycodes: map<KeySym, KeyCode>, nlm: Mask, j: nat)
    requires KeycodeOf(keycodes, key.keysym) != 0 && j < 4
    ensures GrabsForKey(key, keycodes, nlm)[..j + 1] ==
            GrabsForKey(key, keycodes, nlm)[..j] + [KeyGrab(KeycodeOf(keycodes, key.keysym), Combined(key.modif, Modifiers(nlm)[j]))]
  {
  }

  /** Extending the key table by one key appends that key's grabs. */
  lemma GrabsStep(keys: seq<Key>, keycodes: map<KeySym, KeyCode>, nlm: Mask, i: nat, grabs: seq<KeyGrab>, before: seq<KeyGrab>)
    requires i < |keys|
    requires KeycodeOf(keycodes, keys[i].keysym) != 0 ==> grabs == before + GrabsForKey(keys[i], keycodes, nlm)
    requires KeycodeOf(keycodes, keys[i].keysym) == 0 ==> grabs == before
    requires before == Grabs(keys[..i], keycodes, nlm)
    ensures grabs == Grabs(keys[..i + 1], keycodes, nlm)
  {
    assert keys[..i + 1][..i] == keys[..i];
    assert KeycodeOf(keycodes, keys[i].keysym) == 0 ==> GrabsForKey(keys[i], keycodes, nlm) == [];
  }

  /** Grab `g` is the one made for key `k` under lock combination `j`. */
  predicate GrabFor(keys: seq<Key>, keycodes: map<KeySym, KeyCode>, nlm: Mask, k: int, j: int, g: KeyGrab) {
    0 <= k < |keys| && 0 <= j < 4 && KeycodeOf(keycodes, keys[k].keysym) != 0 &&
    g == GrabsForKey(keys[k], keycodes, nlm)[j]
  }

  /** Every grab made stems from a bound key with a keycode and one lock combination. */
  lemma {:induction false} GrabsSound(keys: seq<Key>, keycodes: map<KeySym, KeyCode>, nlm: Mask, g: KeyGrab)
    requires g in Grabs(keys, keycodes, nlm)
    ensures exists k, j :: GrabFor(keys, keycodes, nlm, k, j, g)
    ensures g.keycode != 0
  {
    var init := keys[..|keys| - 1];
    var last := keys[|keys| - 1];
    if g in GrabsForKey(last, keycodes, nlm) {
      var j :| 0 <= j < 4 && GrabsForKey(last, keycodes, nlm)[j] == g;
      assert GrabFor(keys, keycodes, nlm, |keys| - 1, j, g);
    } else {
      GrabsSound(init, keycodes, nlm, g);
      var k, j :| GrabFor(init, keycodes, nlm, k, j, g);
      assert keys[k] == init[k];
      assert GrabFor(keys, keycodes, nlm, k, j, g);
    }
  }

  /** Every bound key with a keycode is grabbed under each of the four lock combinations. */
  lemma {:induction false} GrabsComplete(keys: seq<Key>, keycodes: map<KeySym, KeyCode>, nlm: Mask, k: int, j: int, g: KeyGrab)
    requires GrabFor(keys, keycodes, nlm, k, j, g)
    ensures g in Grabs(keys, keycodes, nlm)
  {
    var init := keys[..|keys| - 1];
    var last := keys[|keys| - 1];
    if k == |keys| - 1 {
      assert GrabsForKey(last, keycodes, nlm)[j] == g;
    } else {
      assert init[k] == keys[k];
      assert GrabFor(init, keycodes, nlm, k, j, g);
      GrabsComplete(init, keycodes, nlm, k, j, g);
    }
  }

  /** A grab is made exactly for each bound key with a non-zero keycode, combined with each
      of the four lock combinations; keys without a keycode are skipped. */
  lemma GrabsMeaning(keys: seq<Key>, keycodes: map<KeySym, KeyCode>, nlm: Mask, g: KeyGrab)
    ensures g in Grabs(keys, keycodes, nlm) <==> exists k, j :: GrabFor(keys, keycodes, nlm, k, j, g)
    ensures g in Grabs(keys, keycodes, nlm) ==> g.keycode != 0
  {
    if g in Grabs(keys, keycodes, nlm) {
      GrabsSound(keys, keycodes, nlm, g);
    }
    if exists k, j :: GrabFor(keys, keycodes, nlm, k, j, g) {
      var k, j :| GrabFor(keys, keycodes, nlm, k, j, g);
      GrabsComplete(keys, keycodes, nlm, k, j, g);
    }
  }

  // ---------------------------------------------------------------------------
  // Bars

  /** The state after the bar assignment: when the first workspace has no bar window yet,
      every workspace without one gets `barwin`. */
  function WithBars(wm: WM, barwin: Window): (r: WM)
    requires |wm.wss| > 0
    ensures r == wm.(wss := r.wss) && |r.wss| == |wm.wss|
    ensures wm.wss[0].barwin != 0 ==> r == wm
    ensures forall i :: 0 <= i < |wm.wss| ==>
      r.wss[i] == wm.wss[i].(barwin := r.wss[i].barwin) &&
      r.wss[i].barwin == if wm.wss[0].barwin == 0 && wm.wss[i].barwin == 0 then barwin else wm.wss[i].barwin
  {
    if wm.wss[0].barwin == 0 then
      wm.(wss := seq(|wm.wss|, i requires 0 <= i < |wm.wss| =>
                       if wm.wss[i].barwin == 0 then wm.wss[i].(barwin := barwin) else wm.wss[i]))
    else wm
  }

  /** Creates one bar window (its id is `barwin`) and shares it among the workspaces lacking one. */
  method UpdateBars(wm: WM, barwin: Window) returns (r: WM)
    requires |wm.wss| > 0
    ensures r == WithBars(wm, barwin)
  {
    r := wm;
    if wm.wss[0].barwin == 0 {
      var wss := wm.wss;
      for i := 0 to |wss|
        invariant |wss| == |wm.wss|
        invariant forall k :: 0 <= k < i ==>
          wss[k] == if wm.wss[k].barwin == 0 then wm.wss[k].(barwin := barwin) else wm.wss[k]
        invariant forall k :: i <= k < |wss| ==> wss[k] == wm.wss[k]
      {
        if wss[i].barwin == 0 {
          wss := wss[i := wss[i].(barwin := barwin)];
        }
      }
      r := wm.(wss := wss);
    }
  }

  /** Once a non-zero bar window is assigned every workspace has one, so a second
      assignment changes nothing. */
  lemma BarsIdempotent(wm: WM, barwin: Window, other: Window)
    requires |wm.wss| > 0 && barwin != 0
    ensures forall i :: 0 <= i < |wm.wss| ==> WithBars(wm, barwin).wss[i].barwin != 0 || wm.wss[0].barwin != 0
    ensures WithBars(wm, barwin).wss[0].barwin != 0
    ensures WithBars(WithBars(wm, barwin), other) == WithBars(wm, barwin)
  {
  }

  // ---------------------------------------------------------------------------
  // Status text

  /** The root window's name as a text property; an empty text counts as absent. */
  function GetTextProp(text: string): (r: Option<string>)
    ensures r.None? <==> text == ""
    ensures r.Some? ==> r.value == text
  {
    if text == "" then None else Some(text)
  }

  /** Takes the root window's name as the status text when it has one (drawing the bar is
      not modelled). */
  function UpdateStatus(wm: WM, rootName: string): (r: WM)
    ensures r == wm.(stext := r.stext)
    ensures r.stext == if rootName == "" then wm.stext else rootName
  {
    wm.(stext := match GetTextProp(rootName) case Some(text) => text case None => wm.stext)
  }

  /** Refreshing twice is refreshing once, and a non-empty status text never becomes empty. */
  lemma UpdateStatusSettles(wm: WM, rootName: string)
    ensures UpdateStatus(UpdateStatus(wm, rootName), rootName) == UpdateStatus(wm, rootName)
    ensures wm.stext != "" ==> UpdateStatus(wm, rootName).stext != ""
    ensures UpdateStatus(wm, rootName).wss == wm.wss && UpdateStatus(wm, rootName).running == wm.running
  {
  }

  // ---------------------------------------------------------------------------
  // Managing and unmanaging

  /** The state after managing window `w`: a new client at the head of the selected
      workspace, which alone is re-arranged. */
  function AfterManage(wm: WM, w: Window, wa: Attributes): (r: WM)
    requires Valid(wm)
    ensures Valid(r) && r == wm.(wss := r.wss) && |r.wss| == |wm.wss|
    ensures forall i :: 0 <= i < |wm.wss| && i != wm.selwsindex ==> r.wss[i] == wm.wss[i]
    ensures var old_ := wm.wss[wm.selwsindex]; var new_ := r.wss[wm.selwsindex];
            new_ == old_.(clients := new_.clients) &&
            Wins(new_.clients) == [w] + Wins(old_.clients)
    ensures r.wss[wm.selwsindex] ==
            UpdateGeom(wm.wss[wm.selwsindex].(clients := [CreateClient(w, wa, wm.selwsindex)] + wm.wss[wm.selwsindex].clients))
  {
    var sel := wm.selwsindex;
    var ws := wm.wss[sel];
    var grown := ws.(clients := [CreateClient(w, wa, sel)] + ws.clients);
    assert Wins(grown.clients) == [w] + Wins(ws.clients);
    wm.(wss := wm.wss[sel := UpdateGeom(grown)])
  }

  /** Head-inserts the client into the selected workspace, then takes that workspace out,
      re-arranges it and puts it back at the same position (showing the window is not modelled). */
  method Manage(wm: WM, w: Window, wa: Attributes) returns (r: WM)
    requires Valid(wm)
    ensures r == AfterManage(wm, w, wa)
  {
    var sel := wm.selwsindex;
    var c := CreateClient(w, wa, sel);
    var wss := wm.wss;
    wss := wss[sel := wss[sel].(clients := [c] + wss[sel].clients)];
    var ws := wss[sel];
    wss := wss[..sel] + wss[sel + 1..];
    ws := UpdateGeom(ws);
    wss := wss[..sel] + [ws] + wss[sel..];
    assert wss == wm.wss[sel := ws];
    r := wm.(wss := wss);
  }

  /** The clients of `cs` whose handle is not `w`, in their original order. */
  function Without(cs: seq<Client>, w: Window): (r: seq<Client>)
    ensures |r| <= |cs|
    ensures forall c :: c in r <==> c in cs && c.win != w
  {
    if cs == [] then []
    else if cs[0].win == w then Without(cs[1..], w)
    else [cs[0]] + Without(cs[1..], w)
  }

  /** The state after unmanaging window `w`: it is filtered out of every workspace and
      the selected workspace is re-arranged. */
  function UnManage(wm: WM, w: Window): (r: WM)
    requires Valid(wm)
    ensures Valid(r) && r == wm.(wss := r.wss) && |r.wss| == |wm.wss|
    ensures !IsManaged(r.wss, w)
    ensures forall i :: 0 <= i < |wm.wss| && i != wm.selwsindex ==>
      r.wss[i] == wm.wss[i].(clients := Without(wm.wss[i].clients, w))
    ensures var sel := wm.selwsindex;
            r.wss[sel] == wm.wss[sel].(clients := r.wss[sel].clients) &&
            Wins(r.wss[sel].clients) == Wins(Without(wm.wss[sel].clients, w))
    ensures r.wss[wm.selwsindex] == UpdateGeom(wm.wss[wm.selwsindex].(clients := Without(wm.wss[wm.selwsindex].clients, w)))
  {
    var filtered := seq(|wm.wss|, i requires 0 <= i < |wm.wss| =>
                          wm.wss[i].(clients := Without(wm.wss[i].clients, w)));
    var r := wm.(wss := filtered[wm.selwsindex := UpdateGeom(filtered[wm.selwsindex])]);
    assert !IsManaged(r.wss, w) by {
      forall i, k | 0 <= i < |r.wss| && 0 <= k < |r.wss[i].clients| ensures r.wss[i].clients[k].win != w {
        assert Wins(r.wss[i].clients)[k] == r.wss[i].clients[k].win;
        assert Wins(r.wss[i].clients) == Wins(filtered[i].clients);
        assert filtered[i].clients[k] in Without(wm.wss[i].clients, w);
      }
    }
    assert Valid(r);
    assert forall i :: 0 <= i < |wm.wss| && i != wm.selwsindex ==>
      r.wss[i] == wm.wss[i].(clients := Without(wm.wss[i].clients, w));
    assert r.wss[wm.selwsindex] == wm.wss[wm.selwsindex].(clients := r.wss[wm.selwsindex].clients);
    r
  }

  // ---------------------------------------------------------------------------
  // Properties of the registry

  /** Filtering distributes over concatenation, so the clients kept stay in their relative order. */
  lemma {:induction false} WithoutConcat(a: seq<Client>, b: seq<Client>, w: Window)
    ensures Without(a + b, w) == Without(a, w) + Without(b, w)
  {
    if a != [] {
      assert (a + b)[0] == a[0];
      assert (a + b)[1..] == a[1..] + b;
      WithoutConcat(a[1..], b, w);
      if a[0].win == w {
        assert Without(a + b, w) == Without(a[1..] + b, w);
      } else {
        assert Without(a + b, w) == [a[0]] + Without(a[1..] + b, w);
        assert Without(a, w) == [a[0]] + Without(a[1..], w);
      }
    } else {
      assert a + b == b;
    }
  }

  /** Filtering a handle that is absent changes nothing. */
  lemma {:induction false} WithoutAbsent(cs: seq<Client>, w: Window)
    requires w !in Wins(cs)
    ensures Without(cs, w) == cs
  {
    if cs != [] {
      assert Wins(cs)[0] == cs[0].win;
      assert Wins(cs[1..]) == Wins(cs)[1..];
      WithoutAbsent(cs[1..], w);
    }
  }

  /** Filtering removes exactly the occurrences of `w` among the handles. */
  lemma WithoutWinsMembers(cs: seq<Client>, w: Window)
    ensures forall v :: v in Wins(Without(cs, w)) <==> v in Wins(cs) && v != w
  {
    forall v ensures v in Wins(Without(cs, w)) <==> v in Wins(cs) && v != w {
      if v in Wins(Without(cs, w)) {
        var k :| 0 <= k < |Without(cs, w)| && Wins(Without(cs, w))[k] == v;
        assert Without(cs, w)[k] in cs;
        var a :| 0 <= a < |cs| && cs[a] == Without(cs, w)[k];
        assert Wins(cs)[a] == v;
      }
      if v in Wins(cs) && v != w {
        var a :| 0 <= a < |cs| && Wins(cs)[a] == v;
        assert cs[a] in Without(cs, w);
        var k :| 0 <= k < |Without(cs, w)| && Without(cs, w)[k] == cs[a];
        assert Wins(Without(cs, w))[k] == v;
      }
    }
  }

  lemma ConsNoDup(c: Client, cs: seq<Client>)
    requires NoDup(Wins(cs)) && c.win !in Wins(cs)
    ensures NoDup(Wins([c] + cs))
  {
    var r := [c] + cs;
    forall a, b | 0 <= a < b < |r| ensures Wins(r)[a] != Wins(r)[b] {
      assert Wins(r)[b] == Wins(cs)[b - 1];
      if a > 0 {
        assert Wins(r)[a] == Wins(cs)[a - 1];
      }
    }
  }

  /** Filtering keeps the handles of a workspace free of duplicates. */
  lemma {:induction false} WithoutKeepsNoDup(cs: seq<Client>, w: Window)
    requires NoDup(Wins(cs))
    ensures NoDup(Wins(Without(cs, w)))
  {
    if cs != [] {
      var rest := cs[1..];
      assert Wins(rest) == Wins(cs)[1..];
      WithoutKeepsNoDup(rest, w);
      if cs[0].win != w {
        WithoutWinsMembers(rest, w);
        assert cs[0].win !in Wins(rest);
        ConsNoDup(cs[0], Without(rest, w));
      }
    }
  }

  lemma {:induction false} TotalClientsUpdate(wss: seq<Workspace>, i: nat, ws: Workspace)
    requires i < |wss|
    ensures TotalClients(wss[i := ws]) == TotalClients(wss) - |wss[i].clients| + |ws.clients|
    ensures TotalClients(wss) >= |wss[i].clients|
    decreases |wss|
  {
    var n := |wss|;
    var updated := wss[i := ws];
    assert updated[..n - 1] == if i == n - 1 then wss[..n - 1] else wss[..n - 1][i := ws];
    if i < n - 1 {
      TotalClientsUpdate(wss[..n - 1], i, ws);
      assert wss[..n - 1][i] == wss[i];
    }
  }

  /** Managing adds exactly one client to the total. */
  lemma ManageCountsOne(wm: WM, w: Window, wa: Attributes)
    requires Valid(wm)
    ensures TotalClients(AfterManage(wm, w, wa).wss) == TotalClients(wm.wss) + 1
  {
    var r := AfterManage(wm, w, wa);
    var sel := wm.selwsindex;
    assert r.wss == wm.wss[sel := r.wss[sel]];
    assert |r.wss[sel].clients| == |Wins(r.wss[sel].clients)|;
    TotalClientsUpdate(wm.wss, sel, r.wss[sel]);
  }

  /** Managing a window not yet managed keeps the registry invariant and makes it managed. */
  lemma ManageKeepsHandlesUnique(wm: WM, w: Window, wa: Attributes)
    requires Valid(wm) && UniqueHandles(wm.wss) && !IsManaged(wm.wss, w)
    ensures UniqueHandles(AfterManage(wm, w, wa).wss)
    ensures IsManaged(AfterManage(wm, w, wa).wss, w)
  {
    var r := AfterManage(wm, w, wa);
    var sel := wm.selwsindex;
    assert forall i :: 0 <= i < |wm.wss| ==> w !in Wins(wm.wss[i].clients);
    assert Wins(r.wss[sel].clients)[0] == w;
    assert r.wss[sel].clients[0].win == w;
  }

  /** Unmanaging keeps the registry invariant. */
  lemma UnManageKeepsHandlesUnique(wm: WM, w: Window)
    requires Valid(wm) && UniqueHandles(wm.wss)
    ensures UniqueHandles(UnManage(wm, w).wss)
  {
    var r := UnManage(wm, w);
    forall i | 0 <= i < |wm.wss|
      ensures Wins(r.wss[i].clients) == Wins(Without(wm.wss[i].clients, w))
    {
    }
    forall i | 0 <= i < |wm.wss| ensures NoDup(Wins(r.wss[i].clients)) {
      WithoutKeepsNoDup(wm.wss[i].clients, w);
    }
    forall i, j, v | 0 <= i < |r.wss| && 0 <= j < |r.wss| && i != j && v in Wins(r.wss[i].clients)
      ensures v !in Wins(r.wss[j].clients)
    {
      WithoutWinsMembers(wm.wss[i].clients, w);
      WithoutWinsMembers(wm.wss[j].clients, w);
    }
  }

  /** Unmanaging a window that is not managed only re-arranges the selected workspace. */
  lemma UnManageAbsent(wm: WM, w: Window)
    requires Valid(wm) && !IsManaged(wm.wss, w)
    ensures UnManage(wm, w) == wm.(wss := wm.wss[wm.selwsindex := UpdateGeom(wm.wss[wm.selwsindex])])
  {
    forall i | 0 <= i < |wm.wss| ensures Without(wm.wss[i].clients, w) == wm.wss[i].clients {
      WithoutAbsent(wm.wss[i].clients, w);
    }
  }

  /** The workspaces created at start-up satisfy the state invariant and hold no client. */
  lemma CreateWorkspacesValid(cfg: Config, wm: WM)
    requires Configuration.Valid(cfg) && |cfg.tags| > 0 && (cfg.showbar ==> wm.bh <= wm.sh)
    ensures var r := CreateWorkspaces(cfg, wm);
            Valid(r) && UniqueHandles(r.wss) && TotalClients(r.wss) == 0 &&
            forall i, j :: 0 <= i < j < |r.wss| ==> SameWorkspace(r.wss[i], r.wss[j])
  {
    var r := CreateWorkspaces(cfg, wm);
    assert forall i :: 0 <= i < |r.wss| ==> r.wss[i].clients == [];
    ZeroClients(r.wss);
  }

  lemma {:induction false} ZeroClients(wss: seq<Workspace>)
    requires forall i :: 0 <= i < |wss| ==> wss[i].clients == []
    ensures TotalClients(wss) == 0
  {
    if wss != [] {
      ZeroClients(wss[..|wss| - 1]);
    }
  }
}
