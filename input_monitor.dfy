/**
 * The earlier, single-file monitor: the same sliding window and broadcast,
 * a four-state break machine without a typing-session clock, and a
 * notification agent that reads the machine's fields directly. Its module
 * globals (the timestamp list, the machine, the current notification and
 * the client list) are the fields of one `Monitor` object here.
 */
module InputMonitor {
  import opened Wrappers
  import opened SlidingWindow
  import opened InputListener
  import StateMachine
  import opened Protocol
  import opened SocketServer

  /** BREAK_THRESHOLD, OVERSPEED_THRESHOLD, OVERSPEED_COUNT_MULTIPLIER, MAX_OVERSPEED_PENALTY. */
  datatype LegacyConfig = LegacyConfig(
    breakThreshold: real,
    overspeedThreshold: real,
    overspeedCountMultiplier: real,
    maxOverspeedPenalty: real)
  {
    predicate Valid() {
      breakThreshold >= 0.0 && overspeedThreshold >= 0.0 &&
      overspeedCountMultiplier >= 0.0 && maxOverspeedPenalty >= 0.0
    }
  }

  /** The four notification codes of the earlier version: there is no BREAK_DUE. */
  datatype LegacyNotification = BreakOver | Break | Typing | Overspeed {
    function Code(): (c: int)
      ensures 0 <= c <= 3
      ensures StateMachine.FromCode(c).Some? && StateMachine.FromCode(c).value.Code() == c
      // each code is the one the newer monitor gives the state of the same name
      ensures this == BreakOver <==> c == StateMachine.NotificationState.BreakOver.Code()
      ensures this == Break <==> c == StateMachine.NotificationState.Break.Code()
      ensures this == Typing <==> c == StateMachine.NotificationState.Typing.Code()
      ensures this == Overspeed <==> c == StateMachine.NotificationState.Overspeed.Code()
    {
      match this
      case BreakOver => 0
      case Break => 1
      case Typing => 2
      case Overspeed => 3
    }
  }

  /** The four fields of the earlier `State` dataclass. */
  datatype LegacyFields = LegacyFields(
    lastZero: real,
    overspeedPenalty: real,
    inOverspeed: bool,
    breakFinish: real)

  /**
   * The dataclass defaults: the newer machine's start without its session
   * clock, which the agent nevertheless reads as TYPING.
   */
  function LegacyInitial(): (f: LegacyFields)
    ensures f.lastZero == StateMachine.Unset && f.breakFinish == StateMachine.Unset
    ensures f.overspeedPenalty == 0.0 && !f.inOverspeed
    ensures f == Project(StateMachine.Initial())
    ensures forall prev: LegacyNotification :: Agent(prev, f) == Typing
  {
    LegacyFields(StateMachine.Unset, 0.0, false, StateMachine.Unset)
  }

  /** The state after `State.set(count)` at time `now`. */
  function AfterSet(cfg: LegacyConfig, f: LegacyFields, count: nat, now: real): (r: LegacyFields)
    // just went idle: a break starts, lasting the threshold plus the penalty
    ensures count == 0 && f.lastZero == StateMachine.Unset ==>
      r == f.(lastZero := now, breakFinish := now + cfg.breakThreshold + f.overspeedPenalty)
    // idle after the break is over: penalty and overspeed are forgotten
    ensures count == 0 && f.lastZero != StateMachine.Unset && now > f.breakFinish ==>
      r == f.(overspeedPenalty := 0.0, inOverspeed := false, breakFinish := StateMachine.Unset)
    ensures count == 0 && f.lastZero != StateMachine.Unset && now <= f.breakFinish ==> r == f
    // any typing tick forgets the idle spell and the break, unconditionally
    ensures count > 0 ==> r.lastZero == StateMachine.Unset && r.breakFinish == StateMachine.Unset
    ensures count > 0 ==> (r.inOverspeed <==> count as real > cfg.overspeedThreshold)
    ensures count > 0 ==>
      r.overspeedPenalty == StateMachine.Min(cfg.maxOverspeedPenalty,
        if r.inOverspeed then StateMachine.Max(f.overspeedPenalty, count as real * cfg.overspeedCountMultiplier)
        else f.overspeedPenalty)
  {
    if count == 0 then
      if f.lastZero == StateMachine.Unset then
        f.(lastZero := now, breakFinish := now + cfg.breakThreshold + f.overspeedPenalty)
      else if now > f.breakFinish then
        f.(overspeedPenalty := 0.0, inOverspeed := false, breakFinish := StateMachine.Unset)
      else
        f
    else
      var over := count as real > cfg.overspeedThreshold;
      var candidate := count as real * cfg.overspeedCountMultiplier;
      var raised := if over && candidate > f.overspeedPenalty then candidate else f.overspeedPenalty;
      var capped := if raised > cfg.maxOverspeedPenalty then cfg.maxOverspeedPenalty else raised;
      LegacyFields(StateMachine.Unset, capped, over, StateMachine.Unset)
  }

  /**
   * One pass of notification_agent_thread's precedence chain, starting from
   * the notification `prev` it holds: a state that matches no branch would
   * keep `prev`.
   */
  function Agent(prev: LegacyNotification, f: LegacyFields): (r: LegacyNotification)
    ensures r == Overspeed <==> f.inOverspeed
    ensures r == Break <==> !f.inOverspeed && f.breakFinish != StateMachine.Unset
    ensures r == BreakOver <==> !f.inOverspeed && f.breakFinish == StateMachine.Unset && f.lastZero != StateMachine.Unset
    ensures r == Typing <==> !f.inOverspeed && f.breakFinish == StateMachine.Unset && f.lastZero == StateMachine.Unset
  {
    if f.inOverspeed then Overspeed
    else if f.breakFinish != StateMachine.Unset then Break
    else if f.lastZero != StateMachine.Unset then BreakOver
    else if f.lastZero == StateMachine.Unset then Typing
    else prev
  }

  /** The chain is exhaustive: what the agent held before never shows through. */
  lemma AgentIgnoresPrevious(prev1: LegacyNotification, prev2: LegacyNotification, f: LegacyFields)
    ensures Agent(prev1, f) == Agent(prev2, f)
  {
  }

  /** The earlier `State` dataclass, updated in place by `set`. */
  class State {
    const config: LegacyConfig
    var lastZero: real
    var overspeedPenalty: real
    var inOverspeed: bool
    var breakFinish: real

    function Snapshot(): LegacyFields
      reads this
    {
      LegacyFields(lastZero, overspeedPenalty, inOverspeed, breakFinish)
    }

    constructor (config: LegacyConfig)
      ensures this.config == config && Snapshot() == LegacyInitial()
    {
      this.config := config;
      lastZero := StateMachine.Unset;
      overspeedPenalty := 0.0;
      inOverspeed := false;
      breakFinish := StateMachine.Unset;
    }

    /** set(count), with one clock reading `now` for the whole call. */
    method Set(count: nat, now: real)
      modifies this
      ensures Snapshot() == AfterSet(config, old(Snapshot()), count, now)
    {
      if count == 0 {
        if lastZero == StateMachine.Unset {
          lastZero := now;
          breakFinish := now + config.breakThreshold + overspeedPenalty;
          return;
        }
        if now > breakFinish {
          overspeedPenalty := 0.0;
          inOverspeed := false;
          breakFinish := StateMachine.Unset;
        }
        return;
      }

      lastZero := StateMachine.Unset;
      breakFinish := StateMachine.Unset;

      if count as real > config.overspeedThreshold {
        inOverspeed := true;
        var newPenalty := count as real * config.overspeedCountMultiplier;
        if newPenalty > overspeedPenalty {
          overspeedPenalty := newPenalty;
        }
      } else {
        inOverspeed := false;
      }

      if overspeedPenalty > config.maxOverspeedPenalty {
        overspeedPenalty := config.maxOverspeedPenalty;
      }
    }
  }

  /** The module globals of the earlier monitor. */
  class Monitor {
    /** timestamps */
    var timestamps: seq<real>
    /** state */
    const state: State
    /** notification_state */
    var notificationState: LegacyNotification
    /** socket_clients and the socket thread, which behave as the newer server's */
    const server: Server
    /** stop_event */
    var stopRequested: bool

    /** Module initialisation: empty lists, a fresh machine, notification BREAK. */
    constructor (config: LegacyConfig, socketPath: string, staleFile: bool)
      ensures timestamps == [] && notificationState == Break && !stopRequested
      ensures fresh(state) && state.config == config && state.Snapshot() == LegacyInitial()
      ensures fresh(server) && server.clients == [] && server.closedClients == []
      ensures server.socketPath == socketPath && server.serverSocket == NoSocket
    {
      timestamps := [];
      state := new State(config);
      notificationState := Break;
      server := new Server(socketPath, staleFile);
      stopRequested := false;
    }

    /** add_timestamp, with the clock reading `now` passed in. */
    method AddTimestamp(now: real)
      modifies this
      ensures timestamps == old(timestamps) + [now]
      ensures notificationState == old(notificationState) && stopRequested == old(stopRequested)
    {
      timestamps := timestamps + [now];
    }

    /** remove_old_timestamps: keep the timestamps strictly newer than `cutoff`. */
    method RemoveOldTimestamps(cutoff: real)
      modifies this
      ensures timestamps == KeepNewer(old(timestamps), cutoff)
      ensures notificationState == old(notificationState) && stopRequested == old(stopRequested)
    {
      var kept := FilterNewer(timestamps, cutoff);
      timestamps := kept;
    }

    /** get_event_count. */
    method GetEventCount() returns (count: nat)
      ensures count == |timestamps|
    {
      count := |timestamps|;
    }

    /** One pass of counter_thread: trim at `trimClock` minus ten seconds, count, set. */
    method CounterTick(trimClock: real, setClock: real)
      modifies this, state
      ensures timestamps == KeepNewer(old(timestamps), trimClock - WindowSeconds)
      ensures state.Snapshot() ==
        AfterSet(state.config, old(state.Snapshot()), CountInWindow(old(timestamps), trimClock), setClock)
      ensures notificationState == old(notificationState) && stopRequested == old(stopRequested)
    {
      var cutoff := trimClock - 10.0;
      RemoveOldTimestamps(cutoff);
      var count := GetEventCount();
      state.Set(count, setClock);
    }

    /** broadcast_notification_state(value): the same two passes as the newer server's broadcast. */
    method BroadcastNotificationState(value: int, delivers: Client -> bool) returns (attempts: seq<Send>)
      modifies server
      ensures |attempts| == |old(server.clients)|
      ensures forall i :: 0 <= i < |attempts| ==> attempts[i] == Send(old(server.clients)[i], Frame(value))
      ensures server.clients == Survivors(old(server.clients), delivers)
      ensures server.closedClients == old(server.closedClients) + Failed(old(server.clients), delivers)
      ensures server.serverSocket == old(server.serverSocket) && server.socketFileExists == old(server.socketFileExists)
    {
      attempts := server.Broadcast(value, delivers);
    }

    /**
     * One pass of notification_agent_thread: resolve from the machine's
     * fields and broadcast the new code when it differs from the held one.
     */
    method NotificationAgentTick(delivers: Client -> bool) returns (attempts: seq<Send>)
      modifies this, server
      ensures notificationState == Agent(old(notificationState), state.Snapshot())
      ensures notificationState == old(notificationState) ==>
        attempts == [] && server.clients == old(server.clients) && server.closedClients == old(server.closedClients)
      ensures notificationState != old(notificationState) ==>
        && |attempts| == |old(server.clients)|
        && (forall i :: 0 <= i < |attempts| ==> attempts[i] == Send(old(server.clients)[i], Frame(notificationState.Code())))
        && server.clients == Survivors(old(server.clients), delivers)
        && server.closedClients == old(server.closedClients) + Failed(old(server.clients), delivers)
      ensures timestamps == old(timestamps) && stopRequested == old(stopRequested)
    {
      var prevState := notificationState;
      notificationState := Agent(prevState, state.Snapshot());
      attempts := [];
      if prevState != notificationState {
        attempts := BroadcastNotificationState(notificationState.Code(), delivers);
      }
    }

    /**
     * main, with the devices that could be opened passed in and the wait for
     * Ctrl+C left out: 1 when there is no device, otherwise 0 after the stop
     * event is set.
     */
    method Run(found: seq<Device>) returns (exitCode: int)
      modifies this
      ensures exitCode == (if found == [] then 1 else 0)
      ensures stopRequested <==> found != [] || old(stopRequested)
      ensures timestamps == old(timestamps) && notificationState == old(notificationState)
    {
      if found == [] {
        return 1;
      }
      stopRequested := true;
      return 0;
    }
  }

  /** The earlier machine's configuration inside the newer one's. */
  function ToLegacy(cfg: StateMachine.Config): LegacyConfig {
    LegacyConfig(cfg.breakThreshold, cfg.overspeedThreshold, cfg.overspeedCountMultiplier, cfg.maxOverspeedPenalty)
  }

  /** The newer machine's fields without the typing-session clock. */
  function Project(f: StateMachine.Fields): LegacyFields {
    LegacyFields(f.lastZero, f.overspeedPenalty, f.inOverspeed, f.breakFinish)
  }

  /**
   * On every state where a pending break belongs to an idle spell, the
   * earlier `set` and the newer `update` agree on the four shared fields.
   */
  lemma SetAgreesWithUpdate(cfg: StateMachine.Config, f: StateMachine.Fields, count: nat, now: real)
    requires f.breakFinish != StateMachine.Unset ==> f.lastZero != StateMachine.Unset
    ensures Project(StateMachine.Updated(cfg, f, count, now)) == AfterSet(ToLegacy(cfg), Project(f), count, now)
  {
    if count > 0 {
      var r := StateMachine.Updated(cfg, f, count, now);
      var l := AfterSet(ToLegacy(cfg), Project(f), count, now);
      assert r.lastZero == l.lastZero && r.breakFinish == l.breakFinish;
      assert r.inOverspeed == l.inOverspeed;
    }
  }

  /**
   * The two resolvers agree on OVERSPEED, BREAK and BREAK_OVER; where the
   * earlier one says TYPING the newer one says TYPING, BREAK_DUE, or BREAK
   * before any typing session was recorded.
   */
  lemma AgentAgreesWithResolve(cfg: StateMachine.Config, prev: LegacyNotification, f: StateMachine.Fields, now: real)
    ensures var legacy := Agent(prev, Project(f));
      var current := StateMachine.Resolve(cfg, f, now);
      (legacy != Typing ==> legacy.Code() == current.Code()) &&
      (legacy == Typing <==> current in {StateMachine.Typing, StateMachine.BreakDue} || (current == StateMachine.Break && f.breakFinish == StateMachine.Unset))
  {
  }

  /**
   * Before the first counter pass the earlier agent resolves TYPING from the
   * dataclass defaults, so its first pass broadcasts TYPING rather than the
   * BREAK it starts with.
   */
  lemma LegacyStartupResolvesTyping(prev: LegacyNotification)
    ensures Agent(prev, LegacyInitial()) == Typing
  {
  }

  /** After an idle counter pass from the defaults the agent resolves BREAK: nothing is sent. */
  lemma LegacyIdleStartResolvesBreak(cfg: LegacyConfig, now: real)
    requires cfg.Valid() && now >= 0.0
    ensures Agent(Break, AfterSet(cfg, LegacyInitial(), 0, now)) == Break
  {
  }
}
