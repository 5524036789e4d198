/** The static configuration the window manager is built with. */
module Configuration {
  import opened Types

  /** Which arrange function of the layout engine a layout selects. */
  datatype ArrangeKind = Tile | Monocle | Floating | Grid

  datatype Layout = Layout(symbol: string, arrange: ArrangeKind)

  /** The payload of a key binding: a tagged value instead of an untyped union. */
  datatype Arg = I(i: int) | U(u: nat) | S(s: string)

  /** The actions a key binding can invoke. */
  datatype Action = Spawn | Quit

  datatype Key = Key(modif: Mask, keysym: KeySym, func: Action, arg: Arg)

  /** The configuration values the core reads. */
  datatype Config = Config(
    tags: seq<string>,
    layouts: seq<Layout>,
    keys: seq<Key>,
    nmaster: nat,
    showbar: bool,
    topbar: bool)

  /** The layout table every workspace and monitor picks its first entry from. */
  predicate Valid(cfg: Config) {
    |cfg.layouts| > 0
  }

  const ShowBar: bool := true
  const TopBar: bool := false
  const NMaster: nat := 2

  const Layouts: seq<Layout> := [
    Layout("[]=", Tile),
    Layout("[M]", Monocle),
    Layout("><>", Floating),
    Layout("HHH", Grid)
  ]

  /** The shipped configuration, for a given tag list and key table. */
  function Shipped(tags: seq<string>, keys: seq<Key>): (cfg: Config)
    ensures Valid(cfg) && cfg.layouts[0].arrange == Tile
    ensures cfg.showbar && !cfg.topbar && cfg.nmaster == 2
    ensures cfg.tags == tags && cfg.keys == keys
  {
    Config(tags, Layouts, keys, NMaster, ShowBar, TopBar)
  }
}
