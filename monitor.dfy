/** The older monitor revision: an object whose bar geometry is updated in place. */
module Monitors {
  import opened Types
  import opened Configuration
  import opened Clients
  import Workspaces

  /** Where the bar goes and what is left for windows. */
  datatype BarGeometry = BarGeometry(wy: int, wh: nat, barY: int)

  /** The bar placement for a monitor at vertical offset `my` and height `mh`. */
  function BarPos(showbar: bool, topbar: bool, my: int, mh: nat, bh: nat): (g: BarGeometry)
    requires showbar ==> bh <= mh
    ensures showbar && topbar ==> g == BarGeometry(my + bh, mh - bh, my)
    ensures showbar && !topbar ==> g == BarGeometry(my, mh - bh, my + mh - bh)
    ensures !showbar ==> g == BarGeometry(my, mh, -(bh as int))
  {
    if showbar then
      if topbar then BarGeometry(my + bh, mh - bh, my)
      else BarGeometry(my, mh - bh, my + (mh - bh))
    else BarGeometry(my, mh, -(bh as int))
  }

  /** A shown bar and the window area tile the monitor's height without overlap;
      a hidden bar sits wholly above the screen and the window area is the whole monitor. */
  lemma BarBesideWindows(showbar: bool, topbar: bool, my: int, mh: nat, bh: nat)
    requires showbar ==> bh <= mh
    ensures var g := BarPos(showbar, topbar, my, mh, bh);
            (showbar && topbar ==> g.barY == my && g.barY + bh == g.wy && g.wy + g.wh == my + mh) &&
            (showbar && !topbar ==> g.wy == my && g.wy + g.wh == g.barY && g.barY + bh == my + mh) &&
            (!showbar ==> g.barY + bh == 0 && g.wy == my && g.wh == mh) &&
            g.wh <= mh && my <= g.wy
  {
  }

  /** On a screen at the origin the monitor and workspace revisions place the bar at the
      same height and leave the same window height. */
  lemma BarPosAgreesWithWorkspace(ws: Workspaces.Workspace, bh: nat)
    requires ws.y == 0 && (ws.showbar ==> bh <= ws.h)
    ensures var g := BarPos(ws.showbar, ws.topbar, 0, ws.h, bh);
            var w := Workspaces.UpdateBarPos(ws, bh);
            g.barY == w.barY && g.wh == Workspaces.MaxH(w)
  {
  }

  function Union(a: Mask, b: Mask): Mask {
    a | b
  }

  /** The tags of all clients, or-ed together. */
  function OccupiedTags(cs: seq<Client>): Mask {
    if cs == [] then 0 else Union(OccupiedTags(cs[..|cs| - 1]), cs[|cs| - 1].tags)
  }

  /** The tags of the urgent clients, or-ed together. */
  function UrgentTags(cs: seq<Client>): Mask {
    if cs == [] then 0
    else if cs[|cs| - 1].isurgent then Union(UrgentTags(cs[..|cs| - 1]), cs[|cs| - 1].tags)
    else UrgentTags(cs[..|cs| - 1])
  }

  /** Every bit of `a` is a bit of `b`. */
  predicate Within(a: Mask, b: Mask) {
    a & !b == 0
  }

  lemma WithinGrow(a: Mask, b: Mask, t: Mask)
    requires Within(a, b)
    ensures Within(a, Union(b, t)) && Within(Union(a, t), Union(b, t)) && Within(t, Union(b, t))
  {
  }

  /** Urgent tags are always occupied tags. */
  lemma {:induction false} UrgentWithinOccupied(cs: seq<Client>)
    ensures Within(UrgentTags(cs), OccupiedTags(cs))
  {
    if cs != [] {
      var init := cs[..|cs| - 1];
      var t := cs[|cs| - 1].tags;
      UrgentWithinOccupied(init);
      WithinGrow(UrgentTags(init), OccupiedTags(init), t);
      assert OccupiedTags(cs) == Union(OccupiedTags(init), t);
    }
  }

  /** Every client's tags are occupied tags. */
  lemma {:induction false} ClientTagsOccupied(cs: seq<Client>, k: nat)
    requires k < |cs|
    ensures Within(cs[k].tags, OccupiedTags(cs))
  {
    var init := cs[..|cs| - 1];
    var t := cs[|cs| - 1].tags;
    assert OccupiedTags(cs) == Union(OccupiedTags(init), t);
    if k < |init| {
      assert init[k] == cs[k];
      ClientTagsOccupied(init, k);
      WithinGrow(cs[k].tags, OccupiedTags(init), t);
    } else {
      assert Within(0, OccupiedTags(init));
      WithinGrow(0, OccupiedTags(init), t);
    }
  }

  class Monitor {
    var ltsymbol: string
    var nmaster: nat
    var num: int
    var barY: int
    var mx: int
    var my: int
    var mw: nat
    var mh: nat
    var wx: int
    var wy: int
    var ww: nat
    var wh: nat
    var seltags: nat
    var sellt: nat
    var tagset: seq<Mask>
    var showbar: bool
    var topbar: bool
    var clients: seq<Client>
    var barwin: Window
    var lt: seq<Layout>

    /** A monitor at the origin with no size, both tag sets at tag 1 and the first two
        layouts of the table (the first twice when the table has one entry). */
    constructor (cfg: Config)
      requires Configuration.Valid(cfg)
      ensures ltsymbol == cfg.layouts[0].symbol && nmaster == cfg.nmaster
      ensures num == 0 && barY == 0
      ensures mx == 0 && my == 0 && mw == 0 && mh == 0
      ensures wx == 0 && wy == 0 && ww == 0 && wh == 0
      ensures seltags == 0 && sellt == 0
      ensures tagset == [1, 1]
      ensures showbar == cfg.showbar && topbar == cfg.topbar
      ensures clients == [] && barwin == 0
      ensures lt == [cfg.layouts[0], cfg.layouts[1 % |cfg.layouts|]]
    {
      ltsymbol := cfg.layouts[0].symbol;
      nmaster := cfg.nmaster;
      num := 0;
      barY := 0;
      mx, my, mw, mh := 0, 0, 0, 0;
      wx, wy, ww, wh := 0, 0, 0, 0;
      seltags := 0;
      sellt := 0;
      tagset := [];
      showbar := cfg.showbar;
      topbar := cfg.topbar;
      clients := [];
      barwin := 0;
      lt := [];
      new;
      tagset := tagset + [1];
      tagset := tagset + [1];
      lt := lt + [cfg.layouts[0]];
      lt := lt + [cfg.layouts[1 % |cfg.layouts|]];
    }

    /** Places the bar and shrinks the window area, touching only wy, wh and the bar's y. */
    method UpdateBarPos(bh: nat)
      requires showbar ==> bh <= mh
      modifies this`wy, this`wh, this`barY
      ensures BarGeometry(wy, wh, barY) == BarPos(showbar, topbar, my, mh, bh)
    {
      wy := my;
      wh := mh;
      if showbar {
        wh := wh - bh;
        if topbar {
          barY := wy;
          wy := wy + bh;
        } else {
          barY := wy + wh;
        }
      } else {
        barY := -(bh as int);
      }
    }

    /** The occupied and urgent tag masks of the bar, accumulated over the clients. */
    method Occupancy() returns (occ: Mask, urg: Mask)
      ensures occ == OccupiedTags(clients) && urg == UrgentTags(clients)
      ensures Within(urg, occ)
    {
      occ, urg := 0, 0;
      for i := 0 to |clients|
        invariant occ == OccupiedTags(clients[..i]) && urg == UrgentTags(clients[..i])
      {
        assert clients[..i + 1][..i] == clients[..i];
        occ := Union(occ, clients[i].tags);
        if clients[i].isurgent {
          urg := Union(urg, clients[i].tags);
        }
      }
      assert clients[..|clients|] == clients;
      UrgentWithinOccupied(clients);
    }

    /** Places the status text after the tags and layout symbol, which end at `xx`: on the
        selected monitor it is right-aligned, or clamped to start at `xx` when too wide;
        elsewhere nothing is drawn and `w` keeps the layout symbol's width `blw`.
        `titlew` is the width left for the window title. */
    method PlaceStatus(isSelected: bool, xx: nat, blw: nat, statusw: nat) returns (x: int, w: int, titlew: int)
      requires isSelected && (ww as int) - statusw < xx ==> xx <= ww
      ensures isSelected && (ww as int) - statusw >= xx ==> x == ww - statusw && w == statusw
      ensures isSelected && (ww as int) - statusw < xx ==> x == xx && w == ww - xx
      ensures !isSelected ==> x == ww && w == blw
      ensures titlew == x - xx
      ensures isSelected ==> xx <= x && x + w == ww && 0 <= w <= statusw
    {
      w := blw;
      if isSelected {
        w := statusw;
        x := (ww as int) - (w as int);
        if x < xx {
          x := xx;
          w := ww - xx;
        }
      } else {
        x := ww;
      }
      titlew := x - xx;
    }
  }
}
