/** Basic X11 vocabulary shared by every part of the model. */
module Types {

  datatype Option<T> = None | Some(value: T)

  /** An X resource id; 0 stands for "no window". */
  type Window = nat
  type KeySym = nat
  type KeyCode = nat
  /** A 32-bit modifier or tag mask. */
  type Mask = bv32

  /** The Caps Lock modifier bit of the X11 core protocol. */
  const LockMask: Mask := 2

  /** The keysym that X11 keysymdef.h names XK_Num_Lock. */
  const XK_Num_Lock: KeySym := 0xff7f
  /** The keysym and keycode the server reports for "nothing bound". */
  const NoSymbol: nat := 0

  /** Event type code of ConfigureNotify in the X11 core protocol. */
  const ConfigureNotifyType: int := 22

  /** X11 core protocol error codes. */
  const BadWindow: nat := 3
  const BadMatch: nat := 8
  const BadDrawable: nat := 9
  const BadAccess: nat := 10
}
