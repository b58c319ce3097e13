/**
 * The main overlay client: one window per screen that shows a small
 * coloured square for BREAK_OVER, BREAK and TYPING, a large centred panel
 * for OVERSPEED and BREAK_DUE, and nothing for any other code. Only the
 * bookkeeping (`is_visible`, `current_state`), the layout arithmetic and the
 * window calls are modelled; the calls are returned as a log.
 */
module OverlayWindow {
  import opened Wrappers
  import opened Decimal
  import opened OverlayCommon
  import StateMachine

  /** How a code is shown: a large centred panel or a small square, and in which colour. */
  datatype Look = Look(large: bool, colour: int)

  /** The look of each code the client understands; other codes show nothing. */
  function Shown(code: int): (r: Option<Look>)
    ensures r.Some? <==> StateBreakOver <= code <= StateBreakDue
    ensures r.Some? ==> (r.value.large <==> code == StateOverspeed || code == StateBreakDue)
  {
    if code == StateOverspeed then Some(Look(true, ColorOverspeed))
    else if code == StateBreakDue then Some(Look(true, ColorBreakDue))
    else if code == StateBreakOver then Some(Look(false, ColorBreakOver))
    else if code == StateBreak then Some(Look(false, ColorBreak))
    else if code == StateTyping then Some(Look(false, ColorTyping))
    else None
  }

  /** The colour switch of show_small_indicator: none for codes it does not draw. */
  function SmallColour(state: int): (c: Option<int>)
    ensures c.Some? <==> StateBreakOver <= state <= StateTyping
    ensures c.Some? ==> Shown(state) == Some(Look(false, c.value))
    ensures state == StateBreakOver ==> c == Some(ColorBreakOver)
    ensures state == StateBreak ==> c == Some(ColorBreak)
    ensures state == StateTyping ==> c == Some(ColorTyping)
  {
    if state == StateBreakOver then Some(ColorBreakOver)
    else if state == StateBreak then Some(ColorBreak)
    else if state == StateTyping then Some(ColorTyping)
    else None
  }

  /** The call that shows `look` on screen `i`: a centred panel or a square at the screen's corner. */
  function Placement(s: ScreenWindow, i: int, look: Look): (a: WindowAction)
    ensures a.Place? && a.screen == i && a.colour == look.colour
    ensures look.large ==> a.width == WindowWidth && a.height == WindowHeight
    ensures look.large ==> a.x == Centre(s.x, s.width, WindowWidth) && a.y == Centre(s.y, s.height, WindowHeight)
    ensures !look.large ==> a == Place(i, s.x, s.y, SmallWindowSize, SmallWindowSize, look.colour)
  {
    if look.large then
      Place(i, Centre(s.x, s.width, WindowWidth), Centre(s.y, s.height, WindowHeight),
        WindowWidth, WindowHeight, look.colour)
    else
      Place(i, s.x, s.y, SmallWindowSize, SmallWindowSize, look.colour)
  }

  /** One placement per screen, in screen order. */
  function PlaceAll(layout: seq<ScreenWindow>, look: Look): (actions: seq<WindowAction>)
    ensures |actions| == |layout|
    ensures forall i :: 0 <= i < |layout| ==> actions[i] == Placement(layout[i], i, look)
  {
    if layout == [] then []
    else PlaceAll(layout[..|layout| - 1], look) + [Placement(layout[|layout| - 1], |layout| - 1, look)]
  }

  /** The panel sits centred on every screen that is at least as large as it. */
  lemma LargePanelCentred(layout: seq<ScreenWindow>, look: Look, i: int)
    requires look.large && 0 <= i < |layout|
    requires layout[i].width >= WindowWidth && layout[i].height >= WindowHeight
    ensures var a := PlaceAll(layout, look)[i];
      layout[i].x <= a.x && a.x + WindowWidth <= layout[i].x + layout[i].width &&
      layout[i].y <= a.y && a.y + WindowHeight <= layout[i].y + layout[i].height &&
      // the margins on either side differ by at most the pixel C's division drops
      a.x - layout[i].x <= (layout[i].x + layout[i].width) - (a.x + WindowWidth) <= a.x - layout[i].x + 1 &&
      a.y - layout[i].y <= (layout[i].y + layout[i].height) - (a.y + WindowHeight) <= a.y - layout[i].y + 1
  {
  }

  /** The screens the client lays out at start-up: Xinerama's, or the whole display. */
  function InitialScreens(query: Option<seq<ScreenInfo>>, rootWidth: int, rootHeight: int): (layout: seq<ScreenWindow>)
    ensures |layout| == ScreenCount(query)
    ensures query.Some? && |query.value| > 0 ==> forall i :: 0 <= i < |layout| ==>
      layout[i] == ScreenWindow(query.value[i].xOrg, query.value[i].yOrg, query.value[i].width, query.value[i].height)
    ensures query.None? || |query.value| == 0 ==> layout == [ScreenWindow(0, 0, rootWidth, rootHeight)]
  {
    if query.Some? && |query.value| > 0 then
      var n := ScreenCount(query);
      seq(n, i requires 0 <= i < n =>
        ScreenWindow(query.value[i].xOrg, query.value[i].yOrg, query.value[i].width, query.value[i].height))
    else
      [ScreenWindow(0, 0, rootWidth, rootHeight)]
  }

  /** `is_visible` and `current_state`. */
  datatype Status = Status(visible: bool, current: int) {
    /** Nothing is shown exactly when no state is recorded. */
    predicate Valid() {
      visible <==> current != StateUnknown
    }
  }

  /** The bookkeeping after the dispatch switch of main.c acts on `code`. */
  function AfterDispatch(d: Status, code: int): (r: Status)
    ensures StateBreakOver <= code <= StateBreakDue ==> r == Status(true, code)
    ensures !(StateBreakOver <= code <= StateBreakDue) ==> !r.visible
    ensures !(StateBreakOver <= code <= StateBreakDue) && d.visible ==> r.current == StateUnknown
    ensures !(StateBreakOver <= code <= StateBreakDue) && !d.visible ==> r == d
  {
    match Shown(code)
    case Some(_) => Status(true, code)
    case None => if d.visible then Status(false, StateUnknown) else d
  }

  /** The window calls the dispatch of `code` makes from status `d`. */
  function DispatchActions(d: Status, layout: seq<ScreenWindow>, code: int): (actions: seq<WindowAction>)
    ensures Shown(code).Some? && d.visible && d.current == code ==> actions == []
    ensures Shown(code).None? && !d.visible ==> actions == []
  {
    match Shown(code)
    case Some(look) => if d.visible && d.current == code then [] else PlaceAll(layout, look)
    case None => if d.visible then UnmapAll(|layout|) else []
  }

  /** Every dispatch keeps `is_visible == 0` exactly when `current_state == -1`. */
  lemma DispatchKeepsValid(d: Status, code: int)
    requires d.Valid()
    ensures AfterDispatch(d, code).Valid()
  {
  }

  /** Dispatching a code twice is dispatching it once, and the second time draws nothing. */
  lemma DispatchIdempotent(d: Status, layout: seq<ScreenWindow>, code: int)
    requires d.Valid()
    ensures AfterDispatch(AfterDispatch(d, code), code) == AfterDispatch(d, code)
    ensures DispatchActions(AfterDispatch(d, code), layout, code) == []
  {
  }

  /** What is left shown after acting on `code`, whatever was shown before. */
  function ShownAfter(code: int): Status {
    if Shown(code).Some? then Status(true, code) else Status(false, StateUnknown)
  }

  /** From any valid status, what is shown afterwards depends on the code alone. */
  lemma DispatchForgetsHistory(d: Status, code: int)
    requires d.Valid()
    ensures AfterDispatch(d, code) == ShownAfter(code)
  {
  }

  /** A code the client does not know hides everything it showed. */
  lemma UnknownCodeHides(d: Status, layout: seq<ScreenWindow>, code: int)
    requires Shown(code).None? && d.visible
    ensures DispatchActions(d, layout, code) == UnmapAll(|layout|)
    ensures forall i :: 0 <= i < |layout| ==> DispatchActions(d, layout, code)[i] == Unmap(i)
  {
  }

  /** The five codes the monitor sends are the five codes the client draws. */
  lemma MonitorCodesAreShown(s: StateMachine.NotificationState)
    ensures Shown(s.Code()).Some?
    ensures StateMachine.NotificationState.BreakOver.Code() == StateBreakOver && StateMachine.NotificationState.Break.Code() == StateBreak
    ensures StateMachine.NotificationState.Typing.Code() == StateTyping && StateMachine.NotificationState.Overspeed.Code() == StateOverspeed
    ensures StateMachine.NotificationState.BreakDue.Code() == StateBreakDue
  {
  }

  /** struct window_state: the per-screen windows and what is shown. */
  class WindowState {
    /** screens[MAX_SCREENS] */
    const screens: array<ScreenWindow>
    const numScreens: int
    var isVisible: bool
    var currentState: int

    ghost predicate Valid()
      reads this
    {
      screens.Length == MaxScreens && 1 <= numScreens <= MaxScreens &&
      (isVisible <==> currentState != StateUnknown)
    }

    /** The screens in use. */
    function Layout(): (layout: seq<ScreenWindow>)
      reads this, screens
      requires Valid()
      ensures |layout| == numScreens
    {
      screens[..numScreens]
    }

    function CurrentStatus(): (d: Status)
      reads this
    {
      Status(isVisible, currentState)
    }

    /**
     * init_x11 with the Xinerama answer (None for a NULL result) and the
     * display size passed in: the screens used, nothing shown.
     */
    constructor InitX11(query: Option<seq<ScreenInfo>>, rootWidth: int, rootHeight: int)
      ensures Valid() && fresh(screens)
      ensures numScreens == ScreenCount(query)
      ensures Layout() == InitialScreens(query, rootWidth, rootHeight)
      ensures !isVisible && currentState == StateUnknown
    {
      var blank := new ScreenWindow[MaxScreens](_ => ScreenWindow(0, 0, 0, 0));
      var count := 1;
      if query.Some? && |query.value| > 0 {
        count := if |query.value| > MaxScreens then MaxScreens else |query.value|;
        var i := 0;
        while i < count
          invariant 0 <= i <= count
          invariant forall k :: 0 <= k < i ==>
            blank[k] == ScreenWindow(query.value[k].xOrg, query.value[k].yOrg, query.value[k].width, query.value[k].height)
          modifies blank
        {
          var info := query.value[i];
          blank[i] := ScreenWindow(info.xOrg, info.yOrg, info.width, info.height);
          i := i + 1;
        }
      } else {
        blank[0] := ScreenWindow(0, 0, rootWidth, rootHeight);
      }
      screens := blank;
      numScreens := count;
      isVisible := false;
      currentState := StateUnknown;
      new;
      assert Layout() == InitialScreens(query, rootWidth, rootHeight);
    }

    /** The screen-by-screen placement loop of the two show functions. */
    method PlaceScreens(look: Look) returns (actions: seq<WindowAction>)
      requires Valid()
      ensures actions == PlaceAll(Layout(), look)
    {
      actions := [];
      var i := 0;
      while i < numScreens
        invariant 0 <= i <= numScreens
        invariant actions == PlaceAll(Layout()[..i], look)
      {
        assert Layout()[..i + 1][..i] == Layout()[..i];
        actions := actions + [Placement(screens[i], i, look)];
        i := i + 1;
      }
      assert Layout()[..i] == Layout();
    }

    /** show_large_window: nothing when already showing `state`; otherwise a centred panel on every screen. */
    method ShowLargeWindow(colour: int, state: int) returns (actions: seq<WindowAction>)
      requires Valid() && state != StateUnknown
      modifies this
      ensures Valid()
      ensures old(isVisible) && old(currentState) == state ==>
        actions == [] && isVisible == old(isVisible) && currentState == old(currentState)
      ensures !(old(isVisible) && old(currentState) == state) ==>
        actions == PlaceAll(Layout(), Look(true, colour)) && isVisible && currentState == state
    {
      if isVisible && currentState == state {
        return [];
      }
      actions := PlaceScreens(Look(true, colour));
      isVisible := true;
      currentState := state;
    }

    /** show_overspeed_window. */
    method ShowOverspeedWindow() returns (actions: seq<WindowAction>)
      requires Valid()
      modifies this
      ensures Valid()
      ensures old(isVisible) && old(currentState) == StateOverspeed ==>
        actions == [] && isVisible == old(isVisible) && currentState == old(currentState)
      ensures !(old(isVisible) && old(currentState) == StateOverspeed) ==>
        actions == PlaceAll(Layout(), Look(true, ColorOverspeed)) && isVisible && currentState == StateOverspeed
    {
      actions := ShowLargeWindow(ColorOverspeed, StateOverspeed);
    }

    /** show_break_due_window. */
    method ShowBreakDueWindow() returns (actions: seq<WindowAction>)
      requires Valid()
      modifies this
      ensures Valid()
      ensures old(isVisible) && old(currentState) == StateBreakDue ==>
        actions == [] && isVisible == old(isVisible) && currentState == old(currentState)
      ensures !(old(isVisible) && old(currentState) == StateBreakDue) ==>
        actions == PlaceAll(Layout(), Look(true, ColorBreakDue)) && isVisible && currentState == StateBreakDue
    {
      actions := ShowLargeWindow(ColorBreakDue, StateBreakDue);
    }

    /**
     * show_small_indicator: codes other than 0, 1 and 2 change nothing;
     * otherwise nothing when already showing it, else a square on every screen.
     */
    method ShowSmallIndicator(state: int) returns (actions: seq<WindowAction>)
      requires Valid()
      modifies this
      ensures Valid()
      ensures SmallColour(state).None? || (old(isVisible) && old(currentState) == state) ==>
        actions == [] && isVisible == old(isVisible) && currentState == old(currentState)
      ensures SmallColour(state).Some? && !(old(isVisible) && old(currentState) == state) ==>
        actions == PlaceAll(Layout(), Look(false, SmallColour(state).value)) && isVisible && currentState == state
    {
      var colour := SmallColour(state);
      if colour.None? {
        return [];
      }
      if isVisible && currentState == state {
        return [];
      }
      actions := PlaceScreens(Look(false, colour.value));
      isVisible := true;
      currentState := state;
    }

    /** hide_all_windows: nothing when hidden; otherwise unmap every screen's window. */
    method HideAllWindows() returns (actions: seq<WindowAction>)
      requires Valid()
      modifies this
      ensures Valid()
      ensures !old(isVisible) ==> actions == [] && !isVisible && currentState == old(currentState)
      ensures old(isVisible) ==> actions == UnmapAll(numScreens) && !isVisible && currentState == StateUnknown
    {
      if !isVisible {
        return [];
      }
      actions := [];
      var i := 0;
      while i < numScreens
        invariant 0 <= i <= numScreens
        invariant actions == UnmapAll(i)
      {
        actions := actions + [Unmap(i)];
        i := i + 1;
      }
      isVisible := false;
      currentState := StateUnknown;
    }

    /** The switch of main.c's read loop on a received code. */
    method Dispatch(code: int) returns (actions: seq<WindowAction>)
      requires Valid()
      modifies this
      ensures Valid()
      ensures CurrentStatus() == AfterDispatch(old(CurrentStatus()), code)
      ensures actions == DispatchActions(old(CurrentStatus()), Layout(), code)
    {
      if code == StateOverspeed {
        actions := ShowOverspeedWindow();
      } else if code == StateBreakDue {
        actions := ShowBreakDueWindow();
      } else if code == StateBreakOver || code == StateBreak || code == StateTyping {
        actions := ShowSmallIndicator(code);
      } else {
        actions := HideAllWindows();
      }
    }

    /** One read of the socket: only the leading integer of the chunk is acted on. */
    method ReceiveChunk(buffer: string) returns (code: int, actions: seq<WindowAction>)
      requires Valid()
      modifies this
      ensures Valid()
      ensures code == Atoi(buffer)
      ensures CurrentStatus() == AfterDispatch(old(CurrentStatus()), code)
      ensures actions == DispatchActions(old(CurrentStatus()), Layout(), code)
    {
      code := Atoi(buffer);
      actions := Dispatch(code);
    }

    /** The read loop over the chunks of one connection: the last chunk decides what is left shown. */
    method ReadLoop(chunks: seq<string>)
      requires Valid()
      modifies this
      ensures Valid()
      ensures chunks == [] ==> CurrentStatus() == old(CurrentStatus())
      ensures chunks != [] ==> CurrentStatus() == ShownAfter(Atoi(chunks[|chunks| - 1]))
    {
      var i := 0;
      var lastChunk := "";
      var last := StateUnknown;
      while i < |chunks|
        invariant 0 <= i <= |chunks|
        invariant Valid()
        invariant i == 0 ==> CurrentStatus() == old(CurrentStatus())
        invariant i > 0 ==> lastChunk == chunks[i - 1]
        invariant i > 0 ==> last == Atoi(lastChunk) && CurrentStatus() == ShownAfter(last)
      {
        ghost var before := CurrentStatus();
        lastChunk := chunks[i];
        var code, _ := ReceiveChunk(lastChunk);
        DispatchForgetsHistory(before, code);
        last := code;
        i := i + 1;
      }
    }
  }

  /**
   * Start-up of main.c: init_x11, then show_small_indicator(STATE_UNKNOWN),
   * which draws nothing, so the client starts with nothing shown.
   */
  method Startup(query: Option<seq<ScreenInfo>>, rootWidth: int, rootHeight: int)
    returns (ws: WindowState, actions: seq<WindowAction>)
    ensures ws.Valid() && ws.numScreens == ScreenCount(query)
    ensures actions == [] && !ws.isVisible && ws.currentState == StateUnknown
  {
    ws := new WindowState.InitX11(query, rootWidth, rootHeight);
    actions := ws.ShowSmallIndicator(StateUnknown);
  }
}
