/**
 * The standalone overspeed overlay: one red panel per screen, centred once
 * at start-up, shown for code 3 and hidden for every other code. Only the
 * `is_visible` flag, the layout arithmetic and the window calls are
 * modelled; the calls are returned as a log.
 */
module OverspeedMonitor {
  import opened Wrappers
  import opened Decimal
  import opened OverlayCommon
  import OverlayWindow

  /** Where init_x11 puts the panel on one Xinerama screen. */
  function CentredScreen(info: ScreenInfo): (s: ScreenWindow)
    ensures s.width == info.width && s.height == info.height
    ensures s.x == Centre(info.xOrg, info.width, WindowWidth) && s.y == Centre(info.yOrg, info.height, WindowHeight)
  {
    ScreenWindow(info.xOrg + CHalf(info.width - WindowWidth), info.yOrg + CHalf(info.height - WindowHeight),
      info.width, info.height)
  }

  /** The panels laid out at start-up: on every Xinerama screen, or centred on the display. */
  function CentredScreens(query: Option<seq<ScreenInfo>>, rootWidth: int, rootHeight: int): (layout: seq<ScreenWindow>)
    ensures |layout| == ScreenCount(query)
    ensures query.Some? && |query.value| > 0 ==>
      forall i :: 0 <= i < |layout| ==> layout[i] == CentredScreen(query.value[i])
    ensures query.None? || |query.value| == 0 ==>
      layout == [CentredScreen(ScreenInfo(0, 0, rootWidth, rootHeight))]
  {
    if query.Some? && |query.value| > 0 then
      var n := ScreenCount(query);
      seq(n, i requires 0 <= i < n => CentredScreen(query.value[i]))
    else
      [CentredScreen(ScreenInfo(0, 0, rootWidth, rootHeight))]
  }

  /**
   * The panel lands where the main overlay's large panel lands: centring at
   * start-up here and at show time there give the same position.
   */
  lemma SameCentreAsMainOverlay(query: Option<seq<ScreenInfo>>, rootWidth: int, rootHeight: int, i: int)
    requires 0 <= i < ScreenCount(query)
    ensures var here := CentredScreens(query, rootWidth, rootHeight)[i];
      var there := OverlayWindow.PlaceAll(OverlayWindow.InitialScreens(query, rootWidth, rootHeight),
        OverlayWindow.Look(true, ColorOverspeed))[i];
      here.x == there.x && here.y == there.y
  {
  }

  /** Mapping the panel on every screen, in screen order. */
  function MapAll(layout: seq<ScreenWindow>): (actions: seq<WindowAction>)
    ensures |actions| == |layout|
    ensures forall i :: 0 <= i < |layout| ==>
      actions[i] == Place(i, layout[i].x, layout[i].y, WindowWidth, WindowHeight, ColorOverspeed)
  {
    if layout == [] then []
    else
      var last := layout[|layout| - 1];
      MapAll(layout[..|layout| - 1]) + [Place(|layout| - 1, last.x, last.y, WindowWidth, WindowHeight, ColorOverspeed)]
  }

  /** The visibility after acting on a received code: shown exactly for OVERSPEED. */
  function VisibleAfter(code: int): (visible: bool)
    ensures visible <==> OverlayWindow.Shown(code) == Some(OverlayWindow.Look(true, ColorOverspeed))
  {
    code == StateOverspeed
  }

  /** This overlay shows its panel exactly when the main overlay shows the OVERSPEED panel. */
  lemma AgreesWithMainOverlay(d: OverlayWindow.Status, code: int)
    ensures VisibleAfter(code) <==> OverlayWindow.AfterDispatch(d, code) == OverlayWindow.Status(true, StateOverspeed)
  {
  }

  class OverspeedWindowState {
    /** screens[MAX_SCREENS], holding the centred positions */
    const screens: array<ScreenWindow>
    const numScreens: int
    var isVisible: bool

    ghost predicate Valid()
      reads this
    {
      screens.Length == MaxScreens && 1 <= numScreens <= MaxScreens
    }

    function Layout(): (layout: seq<ScreenWindow>)
      reads this, screens
      requires Valid()
      ensures |layout| == numScreens
    {
      screens[..numScreens]
    }

    /** init_x11 with the Xinerama answer and the display size passed in: panels centred, hidden. */
    constructor InitX11(query: Option<seq<ScreenInfo>>, rootWidth: int, rootHeight: int)
      ensures Valid() && fresh(screens)
      ensures numScreens == ScreenCount(query)
      ensures Layout() == CentredScreens(query, rootWidth, rootHeight)
      ensures !isVisible
    {
      var blank := new ScreenWindow[MaxScreens](_ => ScreenWindow(0, 0, 0, 0));
      var count := 1;
      if query.Some? && |query.value| > 0 {
        count := if |query.value| > MaxScreens then MaxScreens else |query.value|;
        var i := 0;
        while i < count
          invariant 0 <= i <= count
          invariant forall k :: 0 <= k < i ==> blank[k] == CentredScreen(query.value[k])
          modifies blank
        {
          var info := query.value[i];
          blank[i] := ScreenWindow(info.xOrg + CHalf(info.width - WindowWidth),
            info.yOrg + CHalf(info.height - WindowHeight), info.width, info.height);
          i := i + 1;
        }
      } else {
        blank[0] := ScreenWindow(CHalf(rootWidth - WindowWidth), CHalf(rootHeight - WindowHeight),
          rootWidth, rootHeight);
      }
      screens := blank;
      numScreens := count;
      isVisible := false;
      new;
      assert Layout() == CentredScreens(query, rootWidth, rootHeight);
    }

    /** show_overspeed_window: nothing when shown; otherwise map and paint every panel. */
    method Show() returns (actions: seq<WindowAction>)
      requires Valid()
      modifies this
      ensures isVisible
      ensures old(isVisible) ==> actions == []
      ensures !old(isVisible) ==> actions == MapAll(Layout())
    {
      if isVisible {
        return [];
      }
      actions := [];
      var i := 0;
      while i < numScreens
        invariant 0 <= i <= numScreens
        invariant actions == MapAll(Layout()[..i])
      {
        assert Layout()[..i + 1][..i] == Layout()[..i];
        actions := actions + [Place(i, screens[i].x, screens[i].y, WindowWidth, WindowHeight, ColorOverspeed)];
        i := i + 1;
      }
      assert Layout()[..i] == Layout();
      isVisible := true;
    }

    /** hide_overspeed_window: nothing when hidden; otherwise unmap every panel. */
    method Hide() returns (actions: seq<WindowAction>)
      requires Valid()
      modifies this
      ensures !isVisible
      ensures !old(isVisible) ==> actions == []
      ensures old(isVisible) ==> actions == UnmapAll(numScreens)
    {
      if !isVisible {
        return [];
      }
      actions := [];
      var i := 0;
      while i < numScreens
        invariant 0 <= i <= numScreens
        invariant actions == UnmapAll(i)
      {
        actions := actions + [Unmap(i)];
        i := i + 1;
      }
      isVisible := false;
    }

    /** One read of the socket: code 3 shows the panel, any other code hides it. */
    method ReceiveChunk(buffer: string) returns (code: int, actions: seq<WindowAction>)
      requires Valid()
      modifies this
      ensures code == Atoi(buffer)
      ensures isVisible == VisibleAfter(code)
      ensures old(isVisible) == isVisible ==> actions == []
      ensures !old(isVisible) && isVisible ==> actions == MapAll(Layout())
      ensures old(isVisible) && !isVisible ==> actions == UnmapAll(numScreens)
    {
      code := Atoi(buffer);
      if code == StateOverspeed {
        actions := Show();
      } else {
        actions := Hide();
      }
    }
  }
}
