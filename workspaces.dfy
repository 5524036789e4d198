/** The workspace store and the layout engine. */
module Workspaces {
  import opened Types
  import opened Configuration
  import opened Clients

  /** One workspace per tag: its area, its bar and its ordered clients (head = master). */
  datatype Workspace = Workspace(
    nmaster: nat,
    num: int,
    tag: string,
    barY: int, bh: nat,
    x: int, y: int, w: nat, h: nat,
    showbar: bool,
    topbar: bool,
    clients: seq<Client>,
    barwin: Window,
    lt: Layout)

  /** Workspace equality compares the workspace number only. */
  predicate SameWorkspace(a: Workspace, b: Workspace) {
    a.num == b.num
  }

  /** Workspace equality is an equivalence that ignores the clients, the geometry and the bar. */
  lemma SameWorkspaceIsNumberEquivalence(a: Workspace, b: Workspace, c: Workspace, cs: seq<Client>, bw: Window)
    ensures SameWorkspace(a, a)
    ensures SameWorkspace(a, b) ==> SameWorkspace(b, a)
    ensures SameWorkspace(a, b) && SameWorkspace(b, c) ==> SameWorkspace(a, c)
    ensures SameWorkspace(a, b) <==> SameWorkspace(a.(clients := cs, barwin := bw), b)
    ensures SameWorkspace(a, b) <==> SameWorkspace(a.(x := b.x, y := b.y, w := b.w, h := b.h), b)
  {
  }

  /** The bar fits in the workspace, so the unsigned subtraction in MaxH is defined. */
  predicate BarFits(ws: Workspace) {
    ws.showbar ==> ws.bh <= ws.h
  }

  /** Handles of a client sequence, in order. */
  function Wins(cs: seq<Client>): (r: seq<Window>)
    ensures |r| == |cs|
    ensures forall i :: 0 <= i < |cs| ==> r[i] == cs[i].win
  {
    seq(|cs|, i requires 0 <= i < |cs| => cs[i].win)
  }

  function CreateWorkspace(cfg: Config, tag: string): (ws: Workspace)
    requires Configuration.Valid(cfg)
    ensures ws.tag == tag && ws.clients == [] && ws.barwin == 0 && ws.num == 0
    ensures ws.x == 0 && ws.y == 0 && ws.w == 0 && ws.h == 0 && ws.barY == 0 && ws.bh == 0
    ensures ws.nmaster == cfg.nmaster && ws.showbar == cfg.showbar && ws.topbar == cfg.topbar
    ensures ws.lt == cfg.layouts[0]
    ensures BarFits(ws)
  {
    Workspace(cfg.nmaster, 0, tag, 0, 0, 0, 0, 0, 0, cfg.showbar, cfg.topbar, [], 0,
              Layout(cfg.layouts[0].symbol, cfg.layouts[0].arrange))
  }

  // The content rectangle: the workspace minus the bar.

  function MinX(ws: Workspace): int { ws.x }

  function MaxW(ws: Workspace): nat { ws.w }

  /** The top of the content rectangle: below a shown top bar, else the workspace's own top. */
  function MinY(ws: Workspace): (r: int)
    ensures ws.showbar && ws.topbar ==> r == ws.bh
    ensures !(ws.showbar && ws.topbar) ==> r == ws.y
  {
    if ws.showbar && ws.topbar then ws.bh else ws.y
  }

  /** The height of the content rectangle: a shown bar takes its height off the workspace's. */
  function MaxH(ws: Workspace): (r: nat)
    requires BarFits(ws)
    ensures r <= ws.h
    ensures ws.showbar ==> r + ws.bh == ws.h
    ensures !ws.showbar ==> r == ws.h
  {
    if ws.showbar then ws.h - ws.bh else ws.h
  }

  /** Evenly splits the content rectangle into one column per client, in client order. */
  function TileArrange(ws: Workspace): (r: Workspace)
    requires BarFits(ws)
    ensures r == ws.(clients := r.clients)
    ensures |r.clients| == |ws.clients|
    ensures forall i :: 0 <= i < |ws.clients| ==>
      r.clients[i] == SetGeom(ws.clients[i], MinX(ws) + i * (MaxW(ws) / |ws.clients|), MinY(ws),
                              MaxW(ws) / |ws.clients|, MaxH(ws))
  {
    var n := |ws.clients|;
    var x, y, w, h := MinX(ws), MinY(ws), MaxW(ws), MaxH(ws);
    if n == 1 then
      assert w / n == w && x + 0 * (w / n) == x;
      ws.(clients := [SetGeom(ws.clients[0], x, y, w, h)])
    else if n > 1 then
      var cw := w / n;
      ws.(clients := seq(n, i requires 0 <= i < n => SetGeom(ws.clients[i], x + i * cw, y, cw, h)))
    else
      ws
  }

  function MonocleArrange(ws: Workspace): Workspace { ws }

  function NoArrange(ws: Workspace): Workspace { ws }

  function GridArrange(ws: Workspace): Workspace { ws }

  /** The arrange function the workspace's layout selects. */
  function Arrange(ws: Workspace): (r: Workspace)
    requires BarFits(ws)
    ensures ws.lt.arrange == Tile ==> r == TileArrange(ws)
    ensures ws.lt.arrange != Tile ==> r == ws
    ensures r == ws.(clients := r.clients) && |r.clients| == |ws.clients|
  {
    match ws.lt.arrange
    case Tile => TileArrange(ws)
    case Monocle => MonocleArrange(ws)
    case Floating => NoArrange(ws)
    case Grid => GridArrange(ws)
  }

  /** Recomputes the geometry of a workspace (the configure events it then sends are not modelled). */
  function UpdateGeom(ws: Workspace): (r: Workspace)
    requires BarFits(ws)
    ensures r == Arrange(ws)
    ensures ws.lt.arrange == Tile ==> r == TileArrange(ws)
    ensures ws.lt.arrange != Tile ==> r == ws
    ensures r == ws.(clients := r.clients)
    ensures Wins(r.clients) == Wins(ws.clients)
    ensures BarFits(r)
  {
    Arrange(ws)
  }

  /** Places the bar and records its height. */
  function UpdateBarPos(ws: Workspace, bh: nat): (r: Workspace)
    ensures r == ws.(barY := r.barY, bh := bh)
    ensures ws.showbar && ws.topbar ==> r.barY == ws.y
    ensures ws.showbar && !ws.topbar ==> r.barY == ws.h - bh
    ensures !ws.showbar ==> r.barY == -(bh as int)
  {
    if ws.showbar then
      ws.(barY := if ws.topbar then ws.y else ws.h - bh, bh := bh)
    else
      ws.(barY := -(bh as int), bh := bh)
  }

  /** Inserts a client at the head of the workspace. */
  method AddClient(ws: Workspace, c: Client) returns (r: Workspace)
    ensures r == ws.(clients := r.clients)
    ensures |r.clients| == |ws.clients| + 1 && r.clients[0] == c && r.clients[1..] == ws.clients
  {
    r := ws.(clients := [c] + ws.clients);
  }

  /** The position of the first client whose handle is `win`. */
  function FirstIndex(cs: seq<Client>, win: Window): (r: Option<nat>)
    ensures r.None? <==> forall k :: 0 <= k < |cs| ==> cs[k].win != win
    ensures r.Some? ==> r.value < |cs| && cs[r.value].win == win &&
                        forall k :: 0 <= k < r.value ==> cs[k].win != win
  {
    if cs == [] then None
    else if cs[0].win == win then Some(0)
    else
      match FirstIndex(cs[1..], win)
      case None => None
      case Some(j) => Some(j + 1)
  }

  /** The clients left and the client taken when the first one with handle `win` is removed. */
  function RemoveFirst(cs: seq<Client>, win: Window): (r: (seq<Client>, Option<Client>))
    ensures r.1.None? <==> forall k :: 0 <= k < |cs| ==> cs[k].win != win
    ensures r.1.None? ==> r.0 == cs
    ensures r.1.Some? ==>
              (r.1.value.win == win &&
               exists i :: 0 <= i < |cs| && cs[i] == r.1.value && r.0 == cs[..i] + cs[i + 1..] &&
                           forall k :: 0 <= k < i ==> cs[k].win != win)
  {
    match FirstIndex(cs, win)
    case None => (cs, None)
    case Some(i) => (cs[..i] + cs[i + 1..], Some(cs[i]))
  }

  /** The source's index loop over the workspace's clients with an early return. */
  method RemoveClient(ws: Workspace, c: Client) returns (r: Workspace, removed: Option<Client>)
    ensures r == ws.(clients := r.clients)
    ensures (r.clients, removed) == RemoveFirst(ws.clients, c.win)
  {
    var i := 0;
    while i < |ws.clients|
      invariant 0 <= i <= |ws.clients|
      invariant forall k :: 0 <= k < i ==> !SameClient(ws.clients[k], c)
    {
      if SameClient(ws.clients[i], c) {
        removed := Some(ws.clients[i]);
        r := ws.(clients := ws.clients[..i] + ws.clients[i + 1..]);
        return;
      }
      i := i + 1;
    }
    r, removed := ws, None;
  }

  /** The client wrapping window `w` in some workspace, if there is one. */
  function FindFromWindow(w: Window, wss: seq<Workspace>): (r: Option<Client>)
    ensures r.None? <==> !IsManaged(wss, w)
    ensures r.Some? ==> r.value.win == w &&
                        exists i, k :: 0 <= i < |wss| && 0 <= k < |wss[i].clients| && wss[i].clients[k] == r.value
  {
    if wss == [] then None
    else
      var found := FirstIndex(wss[0].clients, w);
      if found.Some? then
        Some(wss[0].clients[found.value])
      else
        var r := FindFromWindow(w, wss[1..]);
        assert forall i, k :: 0 <= i < |wss[1..]| && 0 <= k < |wss[1..][i].clients| ==>
          wss[1..][i].clients[k] == wss[i + 1].clients[k];
        assert IsManaged(wss, w) ==> IsManaged(wss[1..], w) by {
          if IsManaged(wss, w) {
            var i, k :| 0 <= i < |wss| && 0 <= k < |wss[i].clients| && wss[i].clients[k].win == w;
            assert i != 0;
            assert wss[1..][i - 1].clients[k].win == w;
          }
        }
        r
  }

  /** Some workspace has a client whose handle is `w`. */
  predicate IsManaged(wss: seq<Workspace>, w: Window) {
    exists i, k :: 0 <= i < |wss| && 0 <= k < |wss[i].clients| && wss[i].clients[k].win == w
  }

  // ---------------------------------------------------------------------------
  // Properties of the layout engine

  /** With no client, tiling changes nothing. */
  lemma TileEmpty(ws: Workspace)
    requires BarFits(ws) && ws.clients == []
    ensures TileArrange(ws) == ws
  {
  }

  /** A single client receives the whole content rectangle. */
  lemma TileSingle(ws: Workspace)
    requires BarFits(ws) && |ws.clients| == 1
    ensures var c := TileArrange(ws).clients[0];
            c.x == MinX(ws) && c.y == MinY(ws) && c.w == MaxW(ws) && c.h == MaxH(ws) &&
            SameClient(c, ws.clients[0])
  {
  }

  /** Column i of an n-way tiling starts i column widths to the right of the content's left edge. */
  lemma {:induction false} ColumnsOrdered(i: nat, j: nat, cw: nat)
    requires i < j
    ensures i * cw + cw <= j * cw
    decreases j - i
  {
    if j > i + 1 {
      ColumnsOrdered(i, j - 1, cw);
      assert (j - 1) * cw + cw == j * cw;
    } else {
      assert (i + 1) * cw == i * cw + cw;
    }
  }

  /** With n > 1 clients the columns are pairwise disjoint, lie inside the content rectangle,
      and together fill its width up to less than n pixels. */
  lemma TileColumns(ws: Workspace)
    requires BarFits(ws) && |ws.clients| > 1
    ensures var r := TileArrange(ws); var n := |ws.clients|;
            (forall i, j :: 0 <= i < j < n ==> r.clients[i].x + r.clients[i].w <= r.clients[j].x) &&
            (forall i :: 0 <= i < n ==> MinX(ws) <= r.clients[i].x &&
                                        r.clients[i].x + r.clients[i].w <= MinX(ws) + MaxW(ws)) &&
            n * r.clients[0].w <= MaxW(ws) < n * r.clients[0].w + n
  {
    var r := TileArrange(ws);
    var n := |ws.clients|;
    var cw := MaxW(ws) / n;
    forall i, j | 0 <= i < j < n ensures r.clients[i].x + r.clients[i].w <= r.clients[j].x {
      ColumnsOrdered(i, j, cw);
    }
    assert MaxW(ws) == n * cw + MaxW(ws) % n;
    forall i | 0 <= i < n
      ensures MinX(ws) <= r.clients[i].x && r.clients[i].x + r.clients[i].w <= MinX(ws) + MaxW(ws)
    {
      ColumnsOrdered(i, n, cw);
    }
  }

  /** The worked example: three clients in a 900x600 content area get 300-pixel columns. */
  lemma TileThreeColumns(ws: Workspace)
    requires |ws.clients| == 3 && !ws.showbar && ws.x == 0 && ws.y == 0 && ws.w == 900 && ws.h == 600
    ensures var r := TileArrange(ws);
            (forall i :: 0 <= i < 3 ==> r.clients[i].w == 300 && r.clients[i].h == 600 && r.clients[i].y == 0) &&
            r.clients[0].x == 0 && r.clients[1].x == 300 && r.clients[2].x == 600
  {
  }

  /** Every layout keeps the clients, their order and every other field; only tiling moves them. */
  lemma ArrangeKeepsClients(ws: Workspace)
    requires BarFits(ws)
    ensures ws.lt.arrange != Tile ==> Arrange(ws) == ws
    ensures MonocleArrange(ws) == ws && NoArrange(ws) == ws && GridArrange(ws) == ws
    ensures Arrange(ws) == ws.(clients := Arrange(ws).clients)
    ensures forall i :: 0 <= i < |ws.clients| ==> SameClient(Arrange(ws).clients[i], ws.clients[i])
  {
  }

  /** On a workspace at the top of the screen, the bar and the content rectangle are adjacent
      and together cover the workspace height; a hidden bar sits just above the screen. */
  lemma BarBesideContent(ws: Workspace, bh: nat)
    requires ws.y == 0 && (ws.showbar ==> bh <= ws.h)
    ensures var r := UpdateBarPos(ws, bh);
            BarFits(r) &&
            (r.showbar && r.topbar ==> r.barY + r.bh == MinY(r) && MinY(r) + MaxH(r) == r.h) &&
            (r.showbar && !r.topbar ==> MinY(r) == 0 && MinY(r) + MaxH(r) == r.barY && r.barY + r.bh == r.h) &&
            (!r.showbar ==> MinY(r) == 0 && MaxH(r) == r.h && r.barY + r.bh == 0)
  {
  }

  /** Removing a client just added at the head gives back the workspace's clients. */
  lemma RemoveAfterAdd(cs: seq<Client>, c: Client)
    ensures RemoveFirst([c] + cs, c.win) == (cs, Some(c))
  {
    var cs' := [c] + cs;
    assert cs'[0].win == c.win;
    assert cs'[..0] + cs'[1..] == cs;
  }

  /** Removal takes out exactly one client when one matches, and nothing otherwise. */
  lemma RemoveFirstCount(cs: seq<Client>, win: Window)
    ensures var r := RemoveFirst(cs, win);
            (r.1.Some? ==> r.1.value.win == win && |r.0| == |cs| - 1 &&
                           multiset(r.0) + multiset{r.1.value} == multiset(cs)) &&
            (r.1.None? ==> r.0 == cs && forall k :: 0 <= k < |cs| ==> cs[k].win != win)
  {
    var r := RemoveFirst(cs, win);
    if r.1.Some? {
      var i := FirstIndex(cs, win).value;
      assert cs == cs[..i] + [cs[i]] + cs[i + 1..];
    }
  }
}
