# usage-bar: typing-rhythm monitor, modelled in Dafny

usage-bar watches keyboard and mouse input to infer a typing rhythm and
publishes a small notification state to local listeners. Those listeners show
break reminders.

The monitor has four parts:

- An input listener records a timestamp for every key or button press.
- A counter thread keeps only the last ten seconds of timestamps. It feeds
  their number to a typing state machine. The machine tracks:
  - idle spells;
  - breaks and when they finish;
  - typing sessions;
  - an "overspeed" penalty that lengthens the next break.
- A notification thread resolves the machine's fields to one of five codes:
  BREAK_OVER 0, BREAK 1, TYPING 2, OVERSPEED 3, BREAK_DUE 4. It broadcasts a
  code as `"<code>\n"` to every connected client of a Unix socket server, but
  only when the code changes.
- Two X11 overlay clients read the feed:
  - `src/` shows a small coloured square or a large centred panel on every
    screen;
  - `overspeed_monitor.c` shows only the OVERSPEED panel.

Two more programs are covered. `input_monitor.py` is an earlier single-file
version of the monitor, with four states and no typing-session clock.
`pause.py` parses a duration such as `2h` or `60m` and pauses the services for
that long.

The model is split into these modules:

| module | file | models |
|---|---|---|
| `Wrappers` | `wrappers.dfy` | `Option` and `Outcome` |
| `Decimal` | `decimal.dfy` | Python's `str()` and `int()` on decimal numerals, and C's `atoi` |
| `SlidingWindow` | `sliding_window.dfy` | the ten-second pulse window |
| `InputListener` | `input_listener.dfy` | `InputListener`: event filtering and the timestamp list, as a class |
| `StateMachine` | `state_machine.dfy` | `TypingState` |
| `Protocol` | `protocol.dfy` | the wire frame and the "broadcast on change" rule over a feed of resolved states |
| `SocketServer` | `socket_server.dfy` | `SocketServer`, as a class over its client list |
| `Orchestrator` | `orchestrator.dfy` | `main.py`: the counter and notification loops and `main` |
| `InputMonitor` | `input_monitor.dfy` | the earlier monitor; its module globals become one `Monitor` object |
| `OverlayCommon` | `overlay_common.dfy` | the constants shared by both overlays, `common.h` |
| `OverlayWindow` | `overlay_window.dfy` | `src/window.c` and `src/main.c` |
| `OverspeedMonitor` | `overspeed_monitor.dfy` | `overspeed_monitor.c` |
| `Pause` | `pause.dfy` | `pause.py` |

Things that happen outside the program become parameters:

- Each clock reading is a `real` parameter. -1 means "not set", as in the
  source.
- The devices that could be opened are a parameter.
- Whether each client's `sendall` succeeds is an oracle,
  `delivers: Client -> bool`.
- What Xinerama reports and what each `read` returns are parameters.
- X11 drawing calls come back as a list of `WindowAction`s: `Place` (move,
  resize, map and fill) or `Unmap`, one per screen.
- Closing a failed client is recorded in a `closedClients` log.

Each method is proved against a specification function:

- `TypingState.Update` equals `Updated`.
- `Server.Broadcast` equals `Survivors`/`Failed` of the old client list.
- `WindowState.Dispatch` equals `AfterDispatch`/`DispatchActions`.
- The loops of `main.py` end where `Run`, `WindowAfter` and `Broadcasts`
  say.

The properties of those functions are proved as lemmas.

### Behaviour of the code worth noting

- **Startup fields.** A typing tick straight after startup sets neither
  "last went idle" nor "typing started", because `last_zero` is still -1
  (`state_machine.py:59-63`). Both stay unset until the first idle tick. So
  the invariant proved is "never both set" (`StateMachine.Consistent`),
  together with "a pending break belongs to an idle spell". It is not
  "exactly one set".
- **Stopping the server.** `socket_server.py:23-35` only closes the
  listening socket and unlinks the file. The client list is left as it is,
  and `Server.Stop` promises exactly that.
- **Legacy agent at startup.** In the earlier monitor, the dataclass defaults
  resolve to TYPING (`input_monitor.py:258-265`). So if the agent runs before
  the first counter pass, it broadcasts TYPING even though it starts out
  holding BREAK (`InputMonitor.LegacyStartupResolvesTyping`).
- **Relevant events.** The docstring of `is_relevant_event`
  (`input_listener.py:46`) mentions scrolling, but the code counts only
  EV_KEY events with value 1. A scroll (EV_REL) never counts
  (`InputListener.OnlyKeyPressesCount`).

## Model

| member | source | states |
|---|---|---|
| StateMachine.NotificationState.Code | python-src/state_machine.py:7-13 | each state's wire code is 0..4, and decoding the code gives the state back |
| StateMachine.FromCode | python-src/state_machine.py:7-13 | a code names a state exactly when it is in 0..4 |
| StateMachine.Initial | python-src/state_machine.py:31-37 | the fresh state is consistent under every valid configuration, and it resolves to BREAK at any time |
| StateMachine.TypingState.constructor | python-src/state_machine.py:31-37 | a new TypingState holds the initial fields and its penalty is within bounds |
| StateMachine.Updated | python-src/state_machine.py:39-75 | each branch of update: going idle starts a break of threshold plus penalty; an idle tick after the break clears penalty and overspeed; an idle tick within the break changes nothing; the first typing tick after idling starts a session; overspeed holds iff the count exceeds the threshold; the penalty never drops while typing and is capped |
| StateMachine.TypingState.Update | python-src/state_machine.py:39-75 | the new fields are `Updated` of the old ones, and the penalty stays within [0, max] |
| StateMachine.Resolve | python-src/state_machine.py:77-93 | an if-and-only-if for each of the five results, following the precedence overspeed > break > break over > break due > typing > break |
| StateMachine.TypingState.GetNotificationState | python-src/state_machine.py:77-93 | a definition: `Resolve` of the current fields; its properties are the iffs on `Resolve` |
| StateMachine.InitialConsistent | python-src/state_machine.py:31-37 | the startup state is consistent |
| StateMachine.UpdatePreservesConsistent | python-src/state_machine.py:39-75 | update keeps the penalty in [0, max], never records idle and typing at once, and never leaves a break without an idle spell |
| StateMachine.IdleAfterBreakIsStable | python-src/state_machine.py:52-57 | once a break is over, further idle ticks leave the state unchanged |
| StateMachine.PenaltyDropsOnlyAfterBreak | python-src/state_machine.py:52-75 | the penalty decreases only on an idle tick that finds the break over, and then to zero |
| StateMachine.RunAppend | python-src/main.py:16-23 | running the ticks and then one more tick is that tick's update of the run |
| StateMachine.PenaltyMonotoneWhileTyping | python-src/state_machine.py:65-75 | over any run of typing ticks the penalty never decreases and never exceeds the cap |
| StateMachine.RunPreservesConsistent | python-src/state_machine.py:39-75 | every state reached by a run of updates from a consistent state is consistent |
| StateMachine.StartupResolvesToBreak | python-src/state_machine.py:82-93 | before anything is observed the resolver reports BREAK |
| SlidingWindow.KeepNewer | python-src/input_listener.py:62 | keeps exactly the timestamps newer than the cutoff, in order, with their multiplicities |
| SlidingWindow.FilterNewer | python-src/input_listener.py:62 | the list comprehension's loop yields `KeepNewer` |
| SlidingWindow.KeepNewerAppend | python-src/input_listener.py:54-62 | trimming after an append is trimming before it, plus the new timestamp if it is newer than the cutoff |
| SlidingWindow.KeepNewerOfNewer | python-src/input_listener.py:62 | a window whose timestamps are all newer than the cutoff is unchanged by trimming |
| SlidingWindow.KeepNewerIdempotent | python-src/input_listener.py:59-62 | trimming twice at the same cutoff is trimming once |
| SlidingWindow.KeepNewerCompose | python-src/input_listener.py:59-62 | trimming at an earlier and then a later cutoff is trimming at the later one |
| InputListener.ParseEvent | python-src/input_listener.py:38-43 | a definition: decode a read of exactly the event size, discard any other; its property is stated by `ParseEventRoundTrip` |
| InputListener.ParseEventRoundTrip | python-src/input_listener.py:38-42 | with an unpack that inverts pack, a full-size read decodes and every shorter read is discarded |
| InputListener.IsRelevantEvent | python-src/input_listener.py:45-52 | a definition; its properties are stated by `OnlyKeyPressesCount` and `RelevanceIgnoresCode` |
| InputListener.OnlyKeyPressesCount | python-src/input_listener.py:45-52 | an EV_KEY press counts whatever its code; a key release (0), a key repeat (2) and any EV_REL event (scroll) do not |
| InputListener.RelevanceIgnoresCode | python-src/input_listener.py:45-52 | which key or button was pressed does not matter |
| InputListener.Listener.constructor | python-src/input_listener.py:13-17 | no timestamps, no devices, stop not requested |
| InputListener.Listener.AddTimestamp | python-src/input_listener.py:54-57 | appends the clock reading and changes nothing else |
| InputListener.Listener.RemoveOldTimestamps | python-src/input_listener.py:59-62 | the timestamps become `KeepNewer` of the old ones |
| InputListener.Listener.GetEventCount | python-src/input_listener.py:64-67 | returns the number of timestamps held |
| InputListener.Listener.HandleRecord | python-src/input_listener.py:81-90 | a record adds one timestamp iff it parses and is a press |
| InputListener.Listener.Start | python-src/input_listener.py:106-117 | fails iff no device could be opened; records the devices |
| InputListener.Listener.Stop | python-src/input_listener.py:119-122 | sets the stop flag and keeps the timestamps |
| Protocol.Frame | python-src/socket_server.py:72 | the frame is a numeral ending in exactly one newline |
| Protocol.FrameReadsBack | src/main.c:33-35 | atoi of a frame gives the value back |
| Protocol.CoalescedFramesReadFirst | src/main.c:33-35 | when two frames arrive in one read, atoi sees only the first value |
| Protocol.Broadcasts | python-src/main.py:33-41 | the codes sent for a feed of resolved states are drawn from the feed and are no more than its length |
| Protocol.Remembered | python-src/main.py:33-41 | a definition of `prev_state` after a feed; its property is stated by `RememberedIsLastSent` |
| Protocol.RememberedIsLastSent | python-src/main.py:38-41 | the state remembered after a feed is the last code sent, or the starting one when nothing was sent |
| Protocol.BroadcastsAppend | python-src/main.py:35-41 | one more pass sends its state iff it differs from the remembered one |
| Protocol.SteadyRunBroadcastsOnce | python-src/main.py:38-41 | an unchanged new state is sent once however many passes see it |
| Protocol.SteadyRunBroadcastsNothing | python-src/main.py:38-41 | a state equal to the remembered one is never re-sent |
| Protocol.BroadcastsOnlyChanges | python-src/main.py:38-41 | no two consecutive codes sent are equal, and the first differs from the remembered state |
| Protocol.FirstTickAlwaysBroadcasts | python-src/main.py:33-39 | starting from None, the first resolved state is always sent |
| Decimal.NatToString | python-src/socket_server.py:72 | a non-empty string of digits, with no leading zero except for 0 itself |
| Decimal.IntToString | python-src/socket_server.py:72 | digits after an optional '-', which appears iff the number is negative |
| Decimal.DigitsValueOfNatToString | pause.py:20 | int() of str(n) is n |
| Decimal.LeadingZeroIgnored | pause.py:20 | a leading zero does not change the value int() reads |
| Decimal.LeadingDigits | src/main.c:35 | the longest prefix of digits |
| Decimal.SkipSpace | src/main.c:35 | every character dropped is C white space and what is left does not start with any; text that does not start with white space is unchanged |
| Decimal.SkipSpaceIsSuffix | src/main.c:35 | what is left after the white space is the rest of the text, unchanged |
| Decimal.DigitsValue | pause.py:20 | the value of a string of digits is 0 iff every digit is '0' |
| Decimal.Atoi | src/main.c:35 | text with no digits at all reads as 0 |
| Decimal.LeadingDigitsOfNumeral | src/main.c:35 | a numeral followed by a non-digit reads as exactly that numeral |
| Decimal.AtoiOfDigitsFirst | src/main.c:35 | atoi of a buffer that starts with a digit is the value of its leading digits |
| Decimal.AtoiOfMinusFirst | src/main.c:35 | atoi of a buffer that starts with '-' is minus the value of the digits after it |
| Decimal.AtoiOfIntToString | src/main.c:35 | atoi of str(n) followed by a non-digit is n |
| SocketServer.Failed | python-src/socket_server.py:69-74 | the clients collected as disconnected are clients whose send failed, and no more than there were |
| SocketServer.Survivors | python-src/socket_server.py:76-77 | the clients left are clients whose send succeeded, and no more than there were |
| SocketServer.RemoveFirst | python-src/socket_server.py:77 | list.remove: one element fewer, and exactly one copy of the client is gone |
| SocketServer.FirstIndex | python-src/socket_server.py:77 | the position of the client's first occurrence: the client is there and not before it |
| SocketServer.RemoveFirstDropsFirstOccurrence | python-src/socket_server.py:77 | list.remove drops the first occurrence and keeps everything before and after it in order |
| SocketServer.PartitionSizes | python-src/socket_server.py:66-81 | every client is either kept or dropped |
| SocketServer.FailedAppend | python-src/socket_server.py:70-74 | a client added to the list is collected iff its send fails |
| SocketServer.RemovingFirstFailure | python-src/socket_server.py:76-77 | removing the first failed client leaves the same survivors and the remaining failures |
| SocketServer.NoFailuresKeepsAll | python-src/socket_server.py:66-81 | when every send succeeds, nobody is dropped |
| SocketServer.FailedMembers | python-src/socket_server.py:70-74 | a client is collected iff it is in the list and its send fails |
| SocketServer.SurvivorMembers | python-src/socket_server.py:76-77 | a client is kept iff it is in the list and its send succeeds |
| SocketServer.FailedOfSurvivors | python-src/socket_server.py:66-81 | with the same connections, a second broadcast drops nobody and keeps everybody |
| SocketServer.SendAll | python-src/socket_server.py:69-74 | one send per client, in order, each with the same frame; disconnected is `Failed` |
| SocketServer.DropFailed | python-src/socket_server.py:76-81 | removing each disconnected client leaves `Survivors`; every one of them is closed, in order |
| SocketServer.Server.constructor | python-src/socket_server.py:10-15 | no clients, no server socket, stop not requested |
| SocketServer.Server.Listen | python-src/socket_server.py:39-45 | a stale file is removed and the socket is bound and listening |
| SocketServer.Server.Accept | python-src/socket_server.py:52-54 | the accepted connection joins the end of the client list |
| SocketServer.Server.Broadcast | python-src/socket_server.py:66-81 | every client gets the frame once; the list becomes the survivors; the failed ones are closed; nothing else changes |
| SocketServer.Server.Stop | python-src/socket_server.py:23-35 | the listening socket is closed if there was one, the file is gone, the clients stay |
| SocketServer.Server.Shutdown | python-src/socket_server.py:62-64 | the socket is closed and the file is gone |
| Orchestrator.CounterTick | python-src/main.py:16-23 | trims at the clock minus ten seconds, then updates the state with the size of the trimmed window |
| Orchestrator.WindowAfter | python-src/main.py:16-25 | after the last pass, every held timestamp is within ten seconds of its clock |
| Orchestrator.TicksOf | python-src/main.py:16-25 | one tick per pass, taking that pass's clock reading |
| Orchestrator.RecordPulses | python-src/input_listener.py:81-90 | the pulses are appended in order |
| Orchestrator.OneMoreCounterPass | python-src/main.py:16-25 | each pass trims once more and updates the state once more |
| Orchestrator.CounterLoop | python-src/main.py:13-28 | after the passes, the window is `WindowAfter` and the typing state is the state machine's `Run` over the counts observed |
| Orchestrator.CounterLoopConsistent | python-src/main.py:16-25 | every state the counter loop reaches from startup is consistent |
| Orchestrator.Announce | python-src/main.py:38-41 | broadcasts iff the resolved state differs from the remembered one; otherwise nothing is sent and nothing changes |
| Orchestrator.NotificationTick | python-src/main.py:35-43 | remembers the resolved state and broadcasts its code iff it changed |
| Orchestrator.FeedBroadcastsOnceMore | python-src/main.py:38-41 | with the same connections, a further broadcast leaves clients and close log as after the first |
| Orchestrator.FeedOneMore | python-src/main.py:35-41 | each pass remembers its state and sends it iff it changed |
| Orchestrator.NotificationLoop | python-src/main.py:31-43 | the codes sent are exactly `Broadcasts` of the observed feed; after any send the client list is the survivors |
| Orchestrator.RunMonitor | python-src/main.py:46-103 | returns 1 with no device, before the server starts; otherwise 0 with the listener and server stopped, the socket closed and the file removed |
| InputMonitor.LegacyNotification.Code | input_monitor.py:193-197 | codes 0..3; BREAK_OVER, BREAK, TYPING and OVERSPEED each have the code of the newer state of the same name |
| InputMonitor.LegacyInitial | input_monitor.py:118-127 | the four fields the newer fresh state shares, and the agent resolves them to TYPING whatever state it held |
| InputMonitor.AfterSet | input_monitor.py:129-162 | each branch of set; every typing tick clears the idle spell and the break |
| InputMonitor.State.constructor | input_monitor.py:118-127 | a new State holds the defaults |
| InputMonitor.State.Set | input_monitor.py:129-162 | the new fields are `AfterSet` of the old ones |
| InputMonitor.Agent | input_monitor.py:256-265 | an if-and-only-if for each of the four results, following the precedence overspeed > break > break over > typing |
| InputMonitor.AgentIgnoresPrevious | input_monitor.py:258-265 | the chain is exhaustive, so the held state never shows through |
| InputMonitor.Monitor.constructor | input_monitor.py:200-202 | empty lists, a fresh machine, notification BREAK |
| InputMonitor.Monitor.AddTimestamp | input_monitor.py:71-74 | appends the clock reading |
| InputMonitor.Monitor.RemoveOldTimestamps | input_monitor.py:106-109 | the timestamps become `KeepNewer` of the old ones |
| InputMonitor.Monitor.GetEventCount | input_monitor.py:112-115 | returns the number of timestamps held |
| InputMonitor.Monitor.CounterTick | input_monitor.py:172-181 | trims at the clock minus ten seconds and sets the machine from the trimmed count |
| InputMonitor.Monitor.BroadcastNotificationState | input_monitor.py:235-250 | every client gets the frame once; the failed ones are dropped and closed |
| InputMonitor.Monitor.NotificationAgentTick | input_monitor.py:255-271 | the held state becomes `Agent` of the fields, and is broadcast iff it changed |
| InputMonitor.Monitor.Run | input_monitor.py:274-310 | returns 1 with no device; otherwise 0 with the stop event set |
| InputMonitor.SetAgreesWithUpdate | input_monitor.py:129-162 | on every state where a break belongs to an idle spell, the earlier set and the newer update agree on the four shared fields |
| InputMonitor.AgentAgreesWithResolve | input_monitor.py:256-265 | both resolvers agree except where the earlier one says TYPING; there the newer one says TYPING, BREAK_DUE, or BREAK before any session |
| InputMonitor.LegacyStartupResolvesTyping | input_monitor.py:256-265 | from the defaults, the earlier agent resolves TYPING |
| InputMonitor.LegacyIdleStartResolvesBreak | input_monitor.py:253-268 | after one idle counter pass from the defaults, the agent resolves BREAK, the state it holds |
| OverlayCommon.CHalf | src/window.c:110-111 | C's `/ 2`: truncates toward zero, for negative numbers too |
| OverlayCommon.CHalfNegates | src/window.c:110-111 | halving commutes with negation |
| OverlayCommon.Centre | src/window.c:110-111 | a panel that fits lies inside the screen with margins differing by at most one pixel; one that does not fit overhangs both sides evenly |
| OverlayCommon.ScreenCount | src/window.c:25-57 | between 1 and 16 screens: the screens Xinerama reports, capped at 16, or 1 when it reports none |
| OverlayCommon.UnmapAll | src/window.c:206-207 | one unmap per screen, in order |
| OverlayWindow.Shown | src/main.c:39-55 | codes 0..4 are shown and anything else hides; 3 and 4 show the large panel |
| OverlayWindow.SmallColour | src/window.c:164-176 | BREAK_OVER, BREAK and TYPING get `COLOR_BREAK_OVER`, `COLOR_BREAK` and `COLOR_TYPING`, each the small look of its code; any other state draws nothing |
| OverlayWindow.Placement | src/window.c:110-115 | a large panel is 192x108 at `Centre` of the screen in both directions; a small square is 20x20 at its corner |
| OverlayWindow.PlaceAll | src/window.c:109-142 | one placement per screen, in order |
| OverlayWindow.LargePanelCentred | src/window.c:110-111 | on a screen at least as large as the panel, the panel is inside it, and the margins on either side differ by at most one pixel, the right or bottom one being the larger when they differ |
| OverlayWindow.InitialScreens | src/window.c:25-79 | Xinerama's screens, capped at 16, or the whole root window when Xinerama reports none |
| OverlayWindow.AfterDispatch | src/main.c:39-56 | after a known code the overlay shows that code; after any other code it is hidden |
| OverlayWindow.DispatchActions | src/main.c:39-56 | re-showing the state already shown, or hiding when already hidden, draws nothing |
| OverlayWindow.DispatchKeepsValid | src/window.c:145-211 | visibility and the current state stay in step |
| OverlayWindow.DispatchIdempotent | src/window.c:99-211 | the same code twice changes nothing the second time and draws nothing |
| OverlayWindow.ShownAfter | src/main.c:39-56 | what the overlay holds after a code, whatever came before |
| OverlayWindow.DispatchForgetsHistory | src/main.c:39-56 | from any valid status, the result depends on the code alone |
| OverlayWindow.UnknownCodeHides | src/main.c:53-55 | an unknown code unmaps every screen when the overlay is visible |
| OverlayWindow.MonitorCodesAreShown | src/common.h:11-16 | the five codes the monitor sends are the overlay's five known states |
| OverlayWindow.WindowState.InitX11 | src/window.c:10-83 | the screen table is `InitialScreens`, hidden, state unknown |
| OverlayWindow.WindowState.PlaceScreens | src/window.c:109-142 | places every screen in order as `PlaceAll` says |
| OverlayWindow.WindowState.ShowLargeWindow | src/window.c:99-147 | nothing when that state is already showing; otherwise places every large panel and becomes visible in that state |
| OverlayWindow.WindowState.ShowOverspeedWindow | src/window.c:149-152 | the large panel in red for OVERSPEED |
| OverlayWindow.WindowState.ShowBreakDueWindow | src/window.c:154-157 | the large panel in orange for BREAK_DUE |
| OverlayWindow.WindowState.ShowSmallIndicator | src/window.c:159-197 | nothing for an unknown state or for the state already showing; otherwise a small square of its colour on every screen |
| OverlayWindow.WindowState.HideAllWindows | src/window.c:199-211 | nothing when hidden; otherwise unmaps every screen and forgets the state |
| OverlayWindow.WindowState.Dispatch | src/main.c:39-56 | the new status is `AfterDispatch` and the drawing is `DispatchActions` |
| OverlayWindow.WindowState.ReceiveChunk | src/main.c:33-35 | the code is atoi of the buffer, then it is dispatched |
| OverlayWindow.WindowState.ReadLoop | src/main.c:33-57 | after a run of reads, the overlay shows what the last one said |
| OverlayWindow.Startup | src/main.c:15-18 | after start-up with an unknown state, nothing is drawn and the overlay is hidden |
| OverspeedMonitor.CentredScreen | overspeed_monitor.c:59-64 | the panel's position is the centre of the screen Xinerama reports |
| OverspeedMonitor.CentredScreens | overspeed_monitor.c:54-92 | one centred panel per screen, capped at 16, or one centred in the root window |
| OverspeedMonitor.SameCentreAsMainOverlay | overspeed_monitor.c:61-64 | the panel sits where the main overlay puts its large panel |
| OverspeedMonitor.MapAll | overspeed_monitor.c:125-131 | one red 192x108 placement per screen |
| OverspeedMonitor.VisibleAfter | overspeed_monitor.c:239-244 | visible after a code iff the main overlay would show the large red OVERSPEED panel for it |
| OverspeedMonitor.AgreesWithMainOverlay | overspeed_monitor.c:239-244 | visible after a code iff the main overlay would show OVERSPEED |
| OverspeedMonitor.OverspeedWindowState.InitX11 | overspeed_monitor.c:39-113 | the panel table is `CentredScreens` and the panel is hidden |
| OverspeedMonitor.OverspeedWindowState.Show | overspeed_monitor.c:115-157 | maps every panel unless already visible |
| OverspeedMonitor.OverspeedWindowState.Hide | overspeed_monitor.c:159-171 | unmaps every panel unless already hidden |
| OverspeedMonitor.OverspeedWindowState.ReceiveChunk | overspeed_monitor.c:233-245 | visible afterwards iff atoi of the buffer is 3; draws only on a change |
| Pause.MatchDuration | pause.py:15-18 | an accepted argument is one or more digits, then h or m, then at most one newline |
| Pause.MatchAccepts | pause.py:15 | every such argument is accepted, with and without the newline |
| Pause.Seconds | pause.py:20-26 | hours give value times 3600 and minutes give value times 60, so the total is whole minutes |
| Pause.Run | pause.py:9-26 | exit 1 iff the argument count is wrong or the duration does not match; otherwise a pause of whole minutes |
| Pause.HoursRoundTrip | pause.py:15-24 | `<n>h` pauses for n times 3600 seconds |
| Pause.MinutesRoundTrip | pause.py:15-26 | `<n>m` pauses for n times 60 seconds |
| Pause.LeadingZeroAccepted | pause.py:15-20 | a leading zero is accepted and does not change the pause |
| Pause.TrailingNewlineAccepted | pause.py:15 | `$` also accepts one trailing newline, with the same pause |
| Pause.MalformedRejected | pause.py:15-18 | an argument that does not end in h or m, with or without one newline, exits with 1 |

## Left out

- Device handling is not modelled: enumerating `/dev/input`, `os.open`, `select`, `os.read` and closing the descriptors (`cleanup_devices`). The devices that could be opened are a parameter. `InputListener.Listener.Stop` and `InputMonitor.Monitor.Run` therefore only set the stop flag.
- `InputListener.ParseEvent`: `struct.calcsize` and `struct.unpack` depend on the platform's sizes and byte order, so both are parameters.
- Socket system calls are not modelled: `socket`, `bind`, `listen`, `settimeout`, `accept`, `sendall` and `close`. The accept loop is repeated `Server.Accept`, and socket errors and timeouts are not modelled. `sendall` success is the oracle `delivers`.
- Threads, locks, sleeps and the stop event are not modelled. Each loop runs over the iterations it is given. The counter pass trims and counts atomically, although `main.py:20-21` takes the lock twice. Clients accepted between two broadcasts are not interleaved into the notification feed.
- `StateMachine.TypingState.Update`, `InputMonitor.State.Set`: read the clock once per call, whereas the source calls `time.time()` twice when a break starts (`state_machine.py:44,47`, `input_monitor.py:133,135`). So the modelled break finish is "now + threshold + penalty" with a single `now`.
- `Orchestrator.NotificationLoop`: the resolved states are a given feed, not computed from the typing state, and `delivers` is the same for every pass. The loop therefore says nothing about clients that connect or fail midway.
- `Orchestrator.RunMonitor`: the socket server is started synchronously (`Listen`), not on its own thread, and the Ctrl+C wait is left out.
- `InputMonitor.Monitor`: only single passes of the earlier monitor's counter thread and notification agent are modelled, not whole loops. Its `parse_event`, `is_relevant_event` and socket thread are the same code as the newer ones, and reuse the `InputListener` and `SocketServer` members.
- Configuration loading is not modelled: `config.py` and the earlier monitor's YAML. Non-negative settings are a precondition (`Config.Valid`) where a property needs them. `UpdatePreservesConsistent` also needs clock readings of at least 0, since a reading of -1 would look unset.
- X11 is not modelled: opening the display (exit 1 on failure), windows, GCs, fonts, text, `XFlush` and `cleanup_x11`. The drawing calls are summarised as `WindowAction`s.
- Clock arithmetic is exact `real` arithmetic, whereas Python computes with floats; rounding of `now - 10.0`, `now + threshold + penalty` and the comparisons is not modelled.
- Unlocked reads are not modelled: `main.py:36` calls `get_notification_state` without the lock while `update` may be running on the counter thread, so a read can see a half-updated state (between `state_machine.py:62` and `:63` all three time fields are -1, which resolves to a transient BREAK). The model only observes `Snapshot()` between whole updates.
- C `int` overflow is not modelled. Neither is `atoi` on values outside `int`, which is undefined behaviour in C.
- OverlayWindow.WindowState.ShowLargeWindow: requires a known state (not -1), since a visible overlay always holds one. The C function is static and is only called with OVERSPEED and BREAK_DUE.
- `OverlayWindow.WindowState.ReceiveChunk`, `OverspeedMonitor.OverspeedWindowState.ReceiveChunk`: the 255-byte read limit and the NUL terminator are not modelled; a read arrives as a string.
- The connect and reconnect loops of both overlays are not modelled: `src/main.c:22-31,59-62`, `overspeed_monitor.c:187-209,222-250`. `src/socket.c` is not part of this model.
- `pause.py`: the `systemctl` calls and the sleep are left out; `Run` returns the pause length. Python's `\d` also matches non-ASCII digits; the model accepts ASCII digits only.
- All printing is left out.
