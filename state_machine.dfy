/**
 * The typing/break state machine and the notification resolver.
 * A `TypingState` is updated once per counter tick with the number of
 * pulses in the window; the resolver maps its fields to one of five codes.
 * The clock is the parameter `now`; -1 marks a time that is not set.
 */
module StateMachine {
  import opened Wrappers

  /** The externally visible notification, with its wire code. */
  datatype NotificationState = BreakOver | Break | Typing | Overspeed | BreakDue {
    function Code(): (c: int)
      ensures 0 <= c <= 4
      ensures FromCode(c) == Some(this)
    {
      match this
      case BreakOver => 0
      case Break => 1
      case Typing => 2
      case Overspeed => 3
      case BreakDue => 4
    }
  }

  /** NotificationState(c): the state with wire code `c`, if there is one. */
  function FromCode(c: int): (s: Option<NotificationState>)
    ensures s.Some? <==> 0 <= c <= 4
  {
    if c == 0 then Some(BreakOver)
    else if c == 1 then Some(Break)
    else if c == 2 then Some(Typing)
    else if c == 3 then Some(Overspeed)
    else if c == 4 then Some(BreakDue)
    else None
  }

  /** The time value meaning "not set". */
  const Unset: real := -1.0

  /** The five numbers of the configuration file, read once at startup. */
  datatype Config = Config(
    breakThreshold: real,
    breakLength: real,
    overspeedThreshold: real,
    overspeedCountMultiplier: real,
    maxOverspeedPenalty: real)
  {
    predicate Valid() {
      && breakThreshold >= 0.0
      && breakLength >= 0.0
      && overspeedThreshold >= 0.0
      && overspeedCountMultiplier >= 0.0
      && maxOverspeedPenalty >= 0.0
    }
  }

  /** The five fields of a TypingState. */
  datatype Fields = Fields(
    lastZero: real,
    overspeedPenalty: real,
    inOverspeed: bool,
    breakFinish: real,
    typingStart: real)

  function Min(a: real, b: real): real { if a <= b then a else b }
  function Max(a: real, b: real): real { if a >= b then a else b }

  /**
   * A fresh TypingState: nothing observed yet. Whatever the configuration,
   * it is a consistent state, and it reads as BREAK at any time.
   */
  function Initial(): (f: Fields)
    ensures f.lastZero == Unset && f.breakFinish == Unset && f.typingStart == Unset
    ensures f.overspeedPenalty == 0.0 && !f.inOverspeed
    ensures forall cfg: Config :: cfg.Valid() ==> Consistent(cfg, f)
    ensures forall cfg: Config, now: real :: Resolve(cfg, f, now) == Break
  {
    Fields(Unset, 0.0, false, Unset, Unset)
  }

  /** The state after `update(count)` at time `now`. */
  function Updated(cfg: Config, f: Fields, count: nat, now: real): (r: Fields)
    // idle tick, just went idle: a break starts, lasting the threshold plus the penalty
    ensures count == 0 && f.lastZero == Unset ==>
      r == f.(lastZero := now, typingStart := Unset,
              breakFinish := now + cfg.breakThreshold + f.overspeedPenalty)
    // idle tick after the break is over: penalty and overspeed are forgotten, the break closed
    ensures count == 0 && f.lastZero != Unset && now > f.breakFinish ==>
      r == f.(overspeedPenalty := 0.0, inOverspeed := false, breakFinish := Unset)
    // idle tick within the break: nothing changes
    ensures count == 0 && f.lastZero != Unset && now <= f.breakFinish ==> r == f
    // typing tick after an idle spell: a typing session starts now
    ensures count > 0 && f.lastZero != Unset ==>
      r.lastZero == Unset && r.breakFinish == Unset && r.typingStart == now
    // typing tick while already typing (or at startup): the session fields stay
    ensures count > 0 && f.lastZero == Unset ==>
      r.lastZero == f.lastZero && r.breakFinish == f.breakFinish && r.typingStart == f.typingStart
    // every typing tick recomputes overspeed from the count alone
    ensures count > 0 ==> (r.inOverspeed <==> count as real > cfg.overspeedThreshold)
    // the penalty only grows, to the count times the multiplier, and is capped
    ensures count > 0 ==>
      r.overspeedPenalty == Min(cfg.maxOverspeedPenalty,
        if r.inOverspeed then Max(f.overspeedPenalty, count as real * cfg.overspeedCountMultiplier)
        else f.overspeedPenalty)
    ensures count > 0 ==> r.overspeedPenalty <= cfg.maxOverspeedPenalty
  {
    if count == 0 then
      if f.lastZero == Unset then
        f.(lastZero := now, typingStart := Unset,
           breakFinish := now + cfg.breakThreshold + f.overspeedPenalty)
      else if now > f.breakFinish then
        f.(overspeedPenalty := 0.0, inOverspeed := false, breakFinish := Unset)
      else
        f
    else
      var g := if f.lastZero != Unset
        then f.(lastZero := Unset, breakFinish := Unset, typingStart := now)
        else f;
      var over := count as real > cfg.overspeedThreshold;
      var candidate := count as real * cfg.overspeedCountMultiplier;
      var raised := if over && candidate > g.overspeedPenalty then candidate else g.overspeedPenalty;
      var capped := if raised > cfg.maxOverspeedPenalty then cfg.maxOverspeedPenalty else raised;
      g.(inOverspeed := over, overspeedPenalty := capped)
  }

  /** When a typing session is due for a break. */
  function BreakDueAt(cfg: Config, f: Fields): real {
    f.typingStart + cfg.breakLength + f.overspeedPenalty
  }

  /** get_notification_state: the first of OVERSPEED, BREAK, BREAK_OVER, BREAK_DUE, TYPING that applies, else BREAK. */
  function Resolve(cfg: Config, f: Fields, now: real): (r: NotificationState)
    ensures r == Overspeed <==> f.inOverspeed
    ensures r == Break <==>
      !f.inOverspeed && (f.breakFinish != Unset || (f.lastZero == Unset && f.typingStart == Unset))
    ensures r == BreakOver <==> !f.inOverspeed && f.breakFinish == Unset && f.lastZero != Unset
    ensures r == BreakDue <==>
      !f.inOverspeed && f.breakFinish == Unset && f.lastZero == Unset && f.typingStart != Unset
      && now > BreakDueAt(cfg, f)
    ensures r == Typing <==>
      !f.inOverspeed && f.breakFinish == Unset && f.lastZero == Unset && f.typingStart != Unset
      && now <= BreakDueAt(cfg, f)
  {
    var breakDue := BreakDueAt(cfg, f);
    if f.inOverspeed then Overspeed
    else if f.breakFinish != Unset then Break
    else if f.lastZero != Unset then BreakOver
    else if f.typingStart != Unset && now > breakDue then BreakDue
    else if f.typingStart != Unset then Typing
    else Break
  }

  /** The mutable record the counter tick updates and the notification tick reads. */
  class TypingState {
    const config: Config
    var lastZero: real
    var overspeedPenalty: real
    var inOverspeed: bool
    var breakFinish: real
    var typingStart: real

    function Snapshot(): Fields
      reads this
    {
      Fields(lastZero, overspeedPenalty, inOverspeed, breakFinish, typingStart)
    }

    /** The penalty stays within [0, max_overspeed_penalty]. */
    ghost predicate Valid()
      reads this
    {
      config.Valid() && 0.0 <= overspeedPenalty <= config.maxOverspeedPenalty
    }

    constructor (config: Config)
      requires config.Valid()
      ensures this.config == config && Valid()
      ensures lastZero == Unset && breakFinish == Unset && typingStart == Unset
      ensures overspeedPenalty == 0.0 && !inOverspeed
      ensures Snapshot() == Initial()
    {
      this.config := config;
      lastZero := Unset;
      overspeedPenalty := 0.0;
      inOverspeed := false;
      breakFinish := Unset;
      typingStart := Unset;
    }

    /** update(event_count), with one clock reading `now` for the whole call. */
    method Update(eventCount: nat, now: real)
      requires Valid()
      modifies this
      ensures Valid()
      ensures Snapshot() == Updated(config, old(Snapshot()), eventCount, now)
    {
      if eventCount == 0 {
        if lastZero == Unset {
          lastZero := now;
          typingStart := Unset;
          breakFinish := now + config.breakThreshold + overspeedPenalty;
          return;
        }
        if now > breakFinish {
          overspeedPenalty := 0.0;
          inOverspeed := false;
          breakFinish := Unset;
        }
        return;
      }

      if eventCount != 0 && lastZero != Unset {
        lastZero := Unset;
        breakFinish := Unset;
        typingStart := now;
      }

      if eventCount as real > config.overspeedThreshold {
        inOverspeed := true;
        var newPenalty := eventCount as real * config.overspeedCountMultiplier;
        if newPenalty > overspeedPenalty {
          overspeedPenalty := newPenalty;
        }
      } else {
        inOverspeed := false;
      }

      if overspeedPenalty > config.maxOverspeedPenalty {
        overspeedPenalty := config.maxOverspeedPenalty;
      }
    }

    /** get_notification_state at time `now`. */
    function GetNotificationState(now: real): NotificationState
      reads this
    {
      Resolve(config, Snapshot(), now)
    }
  }

  /** The structural facts every reachable state satisfies. */
  ghost predicate Consistent(cfg: Config, f: Fields) {
    && 0.0 <= f.overspeedPenalty <= cfg.maxOverspeedPenalty
    // idle and typing are never recorded at once
    && (f.lastZero == Unset || f.typingStart == Unset)
    // a break in progress belongs to an idle spell
    && (f.breakFinish != Unset ==> f.lastZero != Unset)
  }

  lemma InitialConsistent(cfg: Config)
    requires cfg.Valid()
    ensures Consistent(cfg, Initial())
  {
  }

  /** Every update keeps the state consistent, for clock readings after the epoch. */
  lemma UpdatePreservesConsistent(cfg: Config, f: Fields, count: nat, now: real)
    requires cfg.Valid() && Consistent(cfg, f) && now >= 0.0
    ensures Consistent(cfg, Updated(cfg, f, count, now))
  {
  }

  /** Once a break is over, further idle ticks change nothing. */
  lemma IdleAfterBreakIsStable(cfg: Config, f: Fields, now1: real, now2: real)
    requires f.lastZero != Unset && now1 > f.breakFinish && now2 >= 0.0
    ensures var g := Updated(cfg, f, 0, now1); Updated(cfg, g, 0, now2) == g
  {
  }

  /** The penalty only drops when an idle tick finds the break over, and then to zero. */
  lemma PenaltyDropsOnlyAfterBreak(cfg: Config, f: Fields, count: nat, now: real)
    requires f.overspeedPenalty <= cfg.maxOverspeedPenalty
    requires Updated(cfg, f, count, now).overspeedPenalty < f.overspeedPenalty
    ensures count == 0 && f.lastZero != Unset && now > f.breakFinish
    ensures Updated(cfg, f, count, now).overspeedPenalty == 0.0
  {
  }

  /** One counter tick: the window count and the clock reading. */
  datatype Tick = Tick(count: nat, now: real)

  /** The state after a sequence of counter ticks. */
  function Run(cfg: Config, f: Fields, ticks: seq<Tick>): Fields
    decreases |ticks|
  {
    if ticks == [] then f
    else Run(cfg, Updated(cfg, f, ticks[0].count, ticks[0].now), ticks[1..])
  }

  /** A run followed by one more tick is that tick's update of the run's result. */
  lemma {:induction false} RunAppend(cfg: Config, f: Fields, ticks: seq<Tick>, t: Tick)
    ensures Run(cfg, f, ticks + [t]) == Updated(cfg, Run(cfg, f, ticks), t.count, t.now)
    decreases |ticks|
  {
    if ticks == [] {
      assert [] + [t] == [t];
      assert [t][1..] == [];
    } else {
      assert (ticks + [t])[0] == ticks[0];
      assert (ticks + [t])[1..] == ticks[1..] + [t];
      RunAppend(cfg, Updated(cfg, f, ticks[0].count, ticks[0].now), ticks[1..], t);
    }
  }

  /**
   * While typing continues (no idle tick), the penalty never decreases and
   * never exceeds the cap: slowing down does not shorten the next break.
   */
  lemma {:induction false} PenaltyMonotoneWhileTyping(cfg: Config, f: Fields, ticks: seq<Tick>)
    requires f.overspeedPenalty <= cfg.maxOverspeedPenalty
    requires forall i :: 0 <= i < |ticks| ==> ticks[i].count > 0
    ensures f.overspeedPenalty <= Run(cfg, f, ticks).overspeedPenalty <= cfg.maxOverspeedPenalty
    decreases |ticks|
  {
    if ticks != [] {
      var g := Updated(cfg, f, ticks[0].count, ticks[0].now);
      PenaltyMonotoneWhileTyping(cfg, g, ticks[1..]);
    }
  }

  /** Consistency holds after any run of ticks from startup. */
  lemma {:induction false} RunPreservesConsistent(cfg: Config, f: Fields, ticks: seq<Tick>)
    requires cfg.Valid() && Consistent(cfg, f)
    requires forall i :: 0 <= i < |ticks| ==> ticks[i].now >= 0.0
    ensures Consistent(cfg, Run(cfg, f, ticks))
    decreases |ticks|
  {
    if ticks != [] {
      UpdatePreservesConsistent(cfg, f, ticks[0].count, ticks[0].now);
      RunPreservesConsistent(cfg, Updated(cfg, f, ticks[0].count, ticks[0].now), ticks[1..]);
    }
  }

  /** Before anything is observed the resolver reports BREAK. */
  lemma StartupResolvesToBreak(cfg: Config, now: real)
    ensures Resolve(cfg, Initial(), now) == Break
  {
  }
}
