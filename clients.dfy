/** A managed window: its record, its identity and the event that reports its geometry. */
module Clients {
  import opened Types

  /** The part of a window's attribute record the manager reads. */
  datatype Attributes = Attributes(x: int, y: int, width: nat, height: nat, overrideRedirect: bool)

  datatype Client = Client(
    name: string,
    x: int, y: int, w: nat, h: nat,
    bw: nat,
    tags: Mask,
    isfixed: bool, isfloating: bool, isurgent: bool, neverfocus: bool,
    oldwm: bool, isfullscreen: bool, oldstate: bool,
    win: Window)

  /** Client equality: two records denote the same client when they wrap the same window. */
  predicate SameClient(a: Client, b: Client) {
    a.win == b.win
  }

  /** Sets the geometry of a client, leaving everything else as it was. */
  function SetGeom(c: Client, x: int, y: int, w: nat, h: nat): (r: Client)
    ensures SameClient(r, c)
    ensures r.x == x && r.y == y && r.w == w && r.h == h
    ensures r == c.(x := r.x, y := r.y, w := r.w, h := r.h)
  {
    c.(x := x, y := y, w := w, h := h)
  }

  /** A fresh client for window `win`; `monindex` is accepted and not used. */
  function CreateClient(win: Window, wa: Attributes, monindex: nat): (c: Client)
    ensures c.win == win
    ensures c.x == wa.x && c.y == wa.y && c.w == wa.width && c.h == wa.height
    ensures c.bw == 0 && c.tags == 0 && c.name == ""
    ensures !c.isfixed && !c.isfloating && !c.isurgent && !c.neverfocus
    ensures !c.oldwm && !c.isfullscreen && !c.oldstate
  {
    Client("", wa.x, wa.y, wa.width, wa.height, 0, 0,
           false, false, false, false, false, false, false, win)
  }

  /** Total width of the window, borders included. */
  function Width(c: Client): (r: nat)
    ensures r >= c.w && r - c.w == 2 * c.bw
  {
    c.w + 2 * c.bw
  }

  /** Total height of the window, borders included. */
  function Height(c: Client): (r: nat)
    ensures r >= c.h && r - c.h == 2 * c.bw
  {
    c.h + 2 * c.bw
  }

  /** The ConfigureNotify record of the X11 core protocol, as the manager fills it in. */
  datatype ConfigureEvent = ConfigureEvent(
    typ: int,
    serial: nat,
    sendEvent: bool,
    event: Window,
    window: Window,
    x: int, y: int, width: nat, height: nat,
    borderWidth: nat,
    above: Window,
    overrideRedirect: bool)

  /** The synthetic event that tells the client its authoritative geometry. */
  function Configure(c: Client): (ev: ConfigureEvent)
    ensures ev.typ == ConfigureNotifyType && ev.sendEvent && ev.serial == 0
    ensures ev.event == c.win && ev.window == c.win
    ensures ev.above == 0 && !ev.overrideRedirect
  {
    ConfigureEvent(ConfigureNotifyType, 0, true, c.win, c.win,
                   c.x, c.y, c.w, c.h, c.bw, 0, false)
  }

  /** Equality by handle is an equivalence that ignores geometry and flags. */
  lemma SameClientIsHandleEquivalence(a: Client, b: Client, c: Client, x: int, y: int, w: nat, h: nat)
    ensures SameClient(a, a)
    ensures SameClient(a, b) ==> SameClient(b, a)
    ensures SameClient(a, b) && SameClient(b, c) ==> SameClient(a, c)
    ensures SameClient(a, b) <==> SameClient(SetGeom(a, x, y, w, h), b)
  {
  }

  /** Two clients made for the same window are the same client, whatever their attributes. */
  lemma CreateClientIdentity(win: Window, wa1: Attributes, wa2: Attributes, m1: nat, m2: nat)
    ensures SameClient(CreateClient(win, wa1, m1), CreateClient(win, wa2, m2))
    ensures CreateClient(win, wa1, m1) == CreateClient(win, wa1, m2)
  {
  }

  /** The border-inclusive size of a client differs from its inner size by two borders;
      a freshly created client has no border, so both equal the window's attribute size. */
  lemma OuterSize(c: Client, win: Window, wa: Attributes, m: nat)
    ensures Width(c) - c.w == 2 * c.bw && Height(c) - c.h == 2 * c.bw
    ensures Width(c) >= c.w && Height(c) >= c.h
    ensures Width(c) == c.w <==> c.bw == 0
    ensures Width(CreateClient(win, wa, m)) == wa.width && Height(CreateClient(win, wa, m)) == wa.height
  {
  }

  /** The synthetic event carries exactly the stored geometry: applying what it reports
      back to the client changes nothing. */
  lemma ConfigureCarriesGeometry(c: Client)
    ensures SetGeom(c, Configure(c).x, Configure(c).y, Configure(c).width, Configure(c).height) == c
    ensures Configure(c).borderWidth == c.bw
    ensures Configure(c).width + 2 * Configure(c).borderWidth == Width(c)
    ensures Configure(c).height + 2 * Configure(c).borderWidth == Height(c)
    ensures forall d: Client :: SameClient(c, d) ==> Configure(d).window == Configure(c).window
  {
  }
}
