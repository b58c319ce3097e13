/**
 * What the two X11 overlay clients share: the constants of common.h, the
 * Xinerama screen clamp, the centring arithmetic in C's truncating integer
 * division, and the abstract window calls the clients issue. Drawing
 * itself (fonts, text, pixels) is not part of this model.
 */
module OverlayCommon {
  import opened Wrappers

  const WindowWidth: int := 192
  const WindowHeight: int := 108
  const MaxScreens: int := 16
  const SmallWindowSize: int := 20

  /** The notification codes as the overlays know them; -1 is "nothing shown". */
  const StateUnknown: int := -1
  const StateBreakOver: int := 0
  const StateBreak: int := 1
  const StateTyping: int := 2
  const StateOverspeed: int := 3
  const StateBreakDue: int := 4

  const ColorUnknown: int := 0x000000
  const ColorBreakOver: int := 0x007051
  const ColorBreak: int := 0x142f8c
  const ColorTyping: int := 0x8C4914
  const ColorOverspeed: int := 0xB70000
  const ColorBreakDue: int := 0xFF6D00

  /** C's `n / 2` on int: the quotient truncated toward zero. */
  function CHalf(n: int): (q: int)
    ensures n >= 0 ==> 0 <= n - 2 * q <= 1
    ensures n < 0 ==> -1 <= n - 2 * q <= 0
  {
    if n >= 0 then n / 2 else -((-n) / 2)
  }

  /** Truncation is symmetric about zero, unlike floor division. */
  lemma CHalfNegates(n: int)
    ensures CHalf(-n) == -CHalf(n)
  {
  }

  /**
   * origin + (extent - size) / 2: where a window of `size` starts so that it
   * sits centred on a span of `extent` starting at `origin`.
   */
  function Centre(origin: int, extent: int, size: int): (c: int)
    // a window that fits lies inside the span, its two margins at most one apart
    ensures size <= extent ==> origin <= c && c + size <= origin + extent
    ensures size <= extent ==> c - origin <= (origin + extent) - (c + size) <= c - origin + 1
    // a window larger than the span overhangs it on both sides
    ensures extent < size ==> c <= origin && origin + extent <= c + size
    ensures extent < size ==> (origin - c) <= (c + size) - (origin + extent) <= (origin - c) + 1
  {
    origin + CHalf(extent - size)
  }

  /** One entry of the XineramaQueryScreens result. */
  datatype ScreenInfo = ScreenInfo(xOrg: int, yOrg: int, width: int, height: int)

  /** struct screen_window without its X handles: position and size. */
  datatype ScreenWindow = ScreenWindow(x: int, y: int, width: int, height: int)

  /**
   * How many screens the client uses: the Xinerama count capped at
   * MAX_SCREENS, or one (the whole display) when the query gives nothing.
   */
  function ScreenCount(query: Option<seq<ScreenInfo>>): (n: int)
    ensures 1 <= n <= MaxScreens
    ensures query.Some? && |query.value| > 0 ==>
      n <= |query.value| && (n == |query.value| || n == MaxScreens)
    ensures query.Some? && |query.value| > 0 && |query.value| <= MaxScreens ==> n == |query.value|
    ensures query.None? || |query.value| == 0 ==> n == 1
  {
    if query.Some? && |query.value| > 0 then
      if |query.value| > MaxScreens then MaxScreens else |query.value|
    else 1
  }

  /** The window calls the clients make, per screen. */
  datatype WindowAction =
    /** move, resize and raise the screen's window, then fill it with a colour */
    | Place(screen: int, x: int, y: int, width: int, height: int, colour: int)
    /** unmap the screen's window */
    | Unmap(screen: int)

  /** Unmapping every screen's window, in screen order. */
  function UnmapAll(n: nat): (actions: seq<WindowAction>)
    ensures |actions| == n && forall i :: 0 <= i < n ==> actions[i] == Unmap(i)
  {
    if n == 0 then [] else UnmapAll(n - 1) + [Unmap(n - 1)]
  }
}
