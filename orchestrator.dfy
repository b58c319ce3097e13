/**
 * The monitor's entry point and its two periodic threads. The counter
 * thread trims the pulse window and feeds the count to the typing state;
 * the notification thread resolves the state and broadcasts it when it
 * changes. Sleeping, threads and the stop event are not part of this
 * model: a loop here runs over the iterations it is given, and every clock
 * reading is a parameter.
 */
module Orchestrator {
  import opened Wrappers
  import opened SlidingWindow
  import opened InputListener
  import opened StateMachine
  import opened Protocol
  import opened SocketServer

  /**
   * One pass of counter_thread: trim the window at `trimClock`, count it, and
   * update the typing state; `updateClock` is the clock reading update takes.
   */
  method CounterTick(listener: Listener, state: TypingState, trimClock: real, updateClock: real)
    requires state.Valid()
    modifies listener, state
    ensures listener.timestamps == KeepNewer(old(listener.timestamps), trimClock - WindowSeconds)
    ensures listener.devices == old(listener.devices) && listener.stopRequested == old(listener.stopRequested)
    ensures state.Valid()
    ensures state.Snapshot() ==
      Updated(state.config, old(state.Snapshot()), CountInWindow(old(listener.timestamps), trimClock), updateClock)
  {
    var cutoff := trimClock - 10.0;
    listener.RemoveOldTimestamps(cutoff);
    var count := listener.GetEventCount();
    state.Update(count, updateClock);
  }

  /**
   * What happens between two passes of the counter loop: the pulses the
   * listener thread records, then the two clock readings of the pass.
   */
  datatype CounterStep = CounterStep(arrived: seq<real>, trimClock: real, updateClock: real)

  /** The pulse window after the counter passes `steps`, starting from `ts`. */
  function WindowAfter(ts: seq<real>, steps: seq<CounterStep>): (w: seq<real>)
    ensures steps != [] ==>
      forall i :: 0 <= i < |w| ==> w[i] > steps[|steps| - 1].trimClock - WindowSeconds
    decreases |steps|
  {
    if steps == [] then ts
    else
      var last := steps[|steps| - 1];
      KeepNewer(WindowAfter(ts, steps[..|steps| - 1]) + last.arrived, last.trimClock - WindowSeconds)
  }

  /** The counts and clock readings the counter passes `steps` feed to update. */
  function TicksOf(ts: seq<real>, steps: seq<CounterStep>): (ticks: seq<Tick>)
    ensures |ticks| == |steps|
    ensures forall i :: 0 <= i < |steps| ==> ticks[i].now == steps[i].updateClock
    decreases |steps|
  {
    if steps == [] then []
    else TicksOf(ts, steps[..|steps| - 1]) + [Tick(|WindowAfter(ts, steps)|, steps[|steps| - 1].updateClock)]
  }

  /** Appends the pulses the listener thread records (one add_timestamp each). */
  method RecordPulses(listener: Listener, arrived: seq<real>)
    modifies listener
    ensures listener.timestamps == old(listener.timestamps) + arrived
    ensures listener.devices == old(listener.devices) && listener.stopRequested == old(listener.stopRequested)
  {
    var j := 0;
    while j < |arrived|
      invariant 0 <= j <= |arrived|
      invariant listener.timestamps == old(listener.timestamps) + arrived[..j]
      invariant listener.devices == old(listener.devices) && listener.stopRequested == old(listener.stopRequested)
    {
      listener.AddTimestamp(arrived[j]);
      assert arrived[..j + 1] == arrived[..j] + [arrived[j]];
      j := j + 1;
    }
    assert arrived[..j] == arrived;
  }

  /** The passes up to and including pass `i`: pass `i` trims, counts and updates once more. */
  lemma OneMoreCounterPass(cfg: Config, f: Fields, ts: seq<real>, steps: seq<CounterStep>, i: int)
    requires 0 <= i < |steps|
    ensures WindowAfter(ts, steps[..i + 1]) ==
      KeepNewer(WindowAfter(ts, steps[..i]) + steps[i].arrived, steps[i].trimClock - WindowSeconds)
    ensures Run(cfg, f, TicksOf(ts, steps[..i + 1])) ==
      Updated(cfg, Run(cfg, f, TicksOf(ts, steps[..i])), |WindowAfter(ts, steps[..i + 1])|, steps[i].updateClock)
  {
    var prefix := steps[..i + 1];
    assert prefix[..i] == steps[..i] && prefix[i] == steps[i];
    RunAppend(cfg, f, TicksOf(ts, steps[..i]), Tick(|WindowAfter(ts, prefix)|, steps[i].updateClock));
  }

  /**
   * The counter loop over the passes `steps`: the typing state ends where the
   * state machine's run over the observed counts ends.
   */
  method CounterLoop(listener: Listener, state: TypingState, steps: seq<CounterStep>)
    requires state.Valid()
    modifies listener, state
    ensures state.Valid()
    ensures listener.timestamps == WindowAfter(old(listener.timestamps), steps)
    ensures state.Snapshot() == Run(state.config, old(state.Snapshot()), TicksOf(old(listener.timestamps), steps))
    ensures listener.devices == old(listener.devices) && listener.stopRequested == old(listener.stopRequested)
  {
    var i := 0;
    while i < |steps|
      invariant 0 <= i <= |steps|
      invariant state.Valid()
      invariant listener.timestamps == WindowAfter(old(listener.timestamps), steps[..i])
      invariant state.Snapshot() == Run(state.config, old(state.Snapshot()), TicksOf(old(listener.timestamps), steps[..i]))
      invariant listener.devices == old(listener.devices) && listener.stopRequested == old(listener.stopRequested)
    {
      var step := steps[i];
      OneMoreCounterPass(state.config, old(state.Snapshot()), old(listener.timestamps), steps, i);
      RecordPulses(listener, step.arrived);
      CounterTick(listener, state, step.trimClock, step.updateClock);
      i := i + 1;
    }
    assert steps[..i] == steps;
  }

  /** Every state the counter loop reaches from startup is consistent. */
  lemma CounterLoopConsistent(cfg: Config, ts: seq<real>, steps: seq<CounterStep>)
    requires cfg.Valid()
    requires forall i :: 0 <= i < |steps| ==> steps[i].updateClock >= 0.0
    ensures Consistent(cfg, Run(cfg, Initial(), TicksOf(ts, steps)))
  {
    InitialConsistent(cfg);
    RunPreservesConsistent(cfg, Initial(), TicksOf(ts, steps));
  }

  /**
   * The body of notification_thread's loop once the state `s` is resolved:
   * broadcast s.value when it differs from the one remembered in `prev`.
   */
  method Announce(server: Server, prev: Option<NotificationState>, s: NotificationState, delivers: Client -> bool)
    returns (attempts: seq<Send>)
    modifies server
    ensures prev == Some(s) ==>
      attempts == [] && server.clients == old(server.clients) && server.closedClients == old(server.closedClients)
    ensures prev != Some(s) ==>
      && |attempts| == |old(server.clients)|
      && (forall i :: 0 <= i < |attempts| ==> attempts[i] == Send(old(server.clients)[i], Frame(s.Code())))
      && server.clients == Survivors(old(server.clients), delivers)
      && server.closedClients == old(server.closedClients) + Failed(old(server.clients), delivers)
    ensures server.serverSocket == old(server.serverSocket) && server.socketFileExists == old(server.socketFileExists)
    ensures server.stopRequested == old(server.stopRequested)
  {
    attempts := [];
    if prev != Some(s) {
      attempts := server.Broadcast(s.Code(), delivers);
    }
  }

  /** One pass of notification_thread at clock reading `now`; `next` is the state it remembers. */
  method NotificationTick(state: TypingState, server: Server, prev: Option<NotificationState>, now: real, delivers: Client -> bool)
    returns (next: Option<NotificationState>, attempts: seq<Send>)
    modifies server
    ensures next == Some(Resolve(state.config, state.Snapshot(), now))
    ensures prev == next ==>
      attempts == [] && server.clients == old(server.clients) && server.closedClients == old(server.closedClients)
    ensures prev != next ==>
      && |attempts| == |old(server.clients)|
      && (forall i :: 0 <= i < |attempts| ==> attempts[i] == Send(old(server.clients)[i], Frame(next.value.Code())))
      && server.clients == Survivors(old(server.clients), delivers)
      && server.closedClients == old(server.closedClients) + Failed(old(server.clients), delivers)
    ensures server.serverSocket == old(server.serverSocket) && server.socketFileExists == old(server.socketFileExists)
    ensures server.stopRequested == old(server.stopRequested)
  {
    var s := state.GetNotificationState(now);
    attempts := Announce(server, prev, s, delivers);
    next := Some(s);
  }

  /**
   * The client list and close log after a feed that did (`any`) or did not
   * broadcast anything, from `clients0` and `closed0` at its start.
   */
  ghost predicate AfterFeed(clients: seq<Client>, closed: seq<Client>,
    clients0: seq<Client>, closed0: seq<Client>, delivers: Client -> bool, any: bool)
  {
    if any then clients == Survivors(clients0, delivers) && closed == closed0 + Failed(clients0, delivers)
    else clients == clients0 && closed == closed0
  }

  /** With connections that stay as they are, one more broadcast finds nobody more to drop. */
  lemma FeedBroadcastsOnceMore(clients: seq<Client>, closed: seq<Client>,
    clients0: seq<Client>, closed0: seq<Client>, delivers: Client -> bool, any: bool)
    requires AfterFeed(clients, closed, clients0, closed0, delivers, any)
    ensures AfterFeed(Survivors(clients, delivers), closed + Failed(clients, delivers), clients0, closed0, delivers, true)
  {
    FailedOfSurvivors(clients0, delivers);
    if any {
      assert closed + [] == closed;
    }
  }

  /** One more pass of the feed: it sends its state exactly when it differs from the remembered one. */
  lemma FeedOneMore(observed: seq<NotificationState>, i: int)
    requires 0 <= i < |observed|
    ensures Remembered(None, observed[..i + 1]) == Some(observed[i])
    ensures Broadcasts(None, observed[..i + 1]) == Broadcasts(None, observed[..i]) +
      (if Remembered(None, observed[..i]) != Some(observed[i]) then [observed[i]] else [])
  {
    BroadcastsAppend(None, observed[..i], observed[i]);
    assert observed[..i + 1] == observed[..i] + [observed[i]];
  }

  /**
   * The notification loop from its start (prev_state = None) over the states
   * `observed` that successive passes resolve, while the counter thread
   * updates the typing state in between. The codes sent are exactly the
   * changes of the observed feed; with connections that stay as they are,
   * the first broadcast drops the dead ones and later ones drop nothing.
   */
  method NotificationLoop(server: Server, observed: seq<NotificationState>, delivers: Client -> bool)
    returns (sent: seq<NotificationState>)
    modifies server
    ensures sent == Broadcasts(None, observed)
    ensures AfterFeed(server.clients, server.closedClients, old(server.clients), old(server.closedClients),
      delivers, sent != [])
    ensures server.serverSocket == old(server.serverSocket) && server.socketFileExists == old(server.socketFileExists)
    ensures server.stopRequested == old(server.stopRequested)
  {
    ghost var clients0, closed0 := server.clients, server.closedClients;
    var prev: Option<NotificationState> := None;
    sent := [];
    var i := 0;
    while i < |observed|
      invariant 0 <= i <= |observed|
      invariant sent == Broadcasts(None, observed[..i])
      invariant prev == Remembered(None, observed[..i])
      invariant AfterFeed(server.clients, server.closedClients, clients0, closed0, delivers, sent != [])
      invariant server.serverSocket == old(server.serverSocket) && server.socketFileExists == old(server.socketFileExists)
      invariant server.stopRequested == old(server.stopRequested)
    {
      var s := observed[i];
      FeedOneMore(observed, i);
      FeedBroadcastsOnceMore(server.clients, server.closedClients, clients0, closed0, delivers, sent != []);
      var _ := Announce(server, prev, s, delivers);
      if prev != Some(s) {
        sent := sent + [s];
      }
      prev := Some(s);
      i := i + 1;
    }
    assert observed[..i] == observed;
  }

  /**
   * main, with the configuration and the devices that could be opened passed
   * in, and the wait for Ctrl+C left out: with no device it returns 1 before
   * the server starts; otherwise it starts the server and, on exit, stops the
   * listener and the server and returns 0.
   */
  method RunMonitor(cfg: Config, socketPath: string, staleFile: bool, found: seq<Device>)
    returns (exitCode: int, listener: Listener, state: TypingState, server: Server)
    requires cfg.Valid()
    ensures exitCode == (if found == [] then 1 else 0)
    ensures listener.devices == found && listener.timestamps == []
    ensures state.config == cfg && state.Valid() && state.Snapshot() == Initial()
    ensures server.socketPath == socketPath && server.clients == [] && server.closedClients == []
    ensures found == [] ==>
      !listener.stopRequested && !server.stopRequested &&
      server.serverSocket == NoSocket && server.socketFileExists == staleFile
    ensures found != [] ==>
      listener.stopRequested && server.stopRequested &&
      server.serverSocket == Closed && !server.socketFileExists
  {
    listener := new Listener();
    state := new TypingState(cfg);
    server := new Server(socketPath, staleFile);
    var started := listener.Start(found);
    if started.Fail? {
      return 1, listener, state, server;
    }
    server.Listen();
    listener.Stop();
    var _ := server.Stop();
    exitCode := 0;
  }
}
