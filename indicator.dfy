/** The deferred busy-indicator state machine behind the `Animating` property
    of the LoadMore and AccessoryIndicator cell views.

    Both cell views keep the same state: the activity indicator's `Hidden` and
    `IsAnimating` flags, the time `_ShowStarted` of the last busy request, the
    `_Timer` slot holding the last scheduled timer, and (outside the view, in
    the run loop) every one-shot timer that was scheduled and has not fired.
    The functions here are the specification the two classes are proved
    against; the lemmas state what the state machine does. */
module Indicator {
  import opened Wrappers

  /** The timing parameters of the annotation, in seconds. */
  datatype Config = Config(graceTime: real, minimumShowTime: real)

  /** The activity indicator's `Hidden` and `IsAnimating` flags. */
  datatype Flags = Flags(hidden: bool, isAnimating: bool)

  /** What `StopActivityIndicator` leaves, and how the indicator is created. */
  const Stopped := Flags(true, false)

  /** What `StartActivityIndicator` leaves. */
  const Running := Flags(false, true)

  /** The indicator is visible exactly when it animates. */
  predicate LockStep(f: Flags) {
    f.hidden == !f.isAnimating
  }

  /** The callback a one-shot timer runs. */
  datatype TimerKind = StartTimer | StopTimer

  /** A scheduled one-shot timer: its callback and the time it is due. */
  datatype Timer = Timer(kind: TimerKind, fireAt: real)

  /** What runs on the indicator during one step. */
  datatype Effect = NoEffect | StartEffect | StopEffect

  /** The state of one cell view's indicator.  `pending` is the bag of timers
      the run loop still holds: scheduling never invalidates an earlier timer,
      so several may be pending at once, even two of the same kind. */
  datatype Machine = Machine(
    flags: Flags,
    showStarted: Option<real>,
    timer: Option<Timer>,
    pending: multiset<Timer>)

  /** The state of a freshly constructed cell view. */
  function Initial(): Machine {
    Machine(Stopped, None, None, multiset{})
  }

  /** The `Animating` getter: the indicator's own animating flag. */
  predicate Animating(m: Machine) {
    m.flags.isAnimating
  }

  /** Runs an effect on the indicator flags; Start and Stop each set both
      flags, so the lock-step between them survives every effect. */
  function Apply(f: Flags, e: Effect): (r: Flags)
    ensures LockStep(f) ==> LockStep(r)
    ensures e != NoEffect ==> LockStep(r) && (r.isAnimating <==> e == StartEffect)
  {
    match e
    case NoEffect => f
    case StartEffect => Running
    case StopEffect => Stopped
  }

  /** How much longer a stop requested at `now` must wait so that the
      indicator stays up `minimumShowTime` after the busy request, or None
      when the stop may run at once. */
  function StopDelay(minimumShowTime: real, showStarted: Option<real>, now: real): (d: Option<real>)
    ensures d.Some? <==>
      minimumShowTime > 0.0 && showStarted.Some? && now - showStarted.value < minimumShowTime
    ensures d.Some? ==> d.value > 0.0 && now + d.value == showStarted.value + minimumShowTime
  {
    if minimumShowTime > 0.0 && showStarted.Some? then
      var elapsed := now - showStarted.value;
      if elapsed < minimumShowTime then Some(minimumShowTime - elapsed) else None
    else
      None
  }

  /** The effect that the `Animating` setter runs at once. */
  function RequestEffect(m: Machine, cfg: Config, value: bool, now: real): Effect {
    if value then
      if cfg.graceTime > 0.0 then NoEffect else StartEffect
    else
      if StopDelay(cfg.minimumShowTime, m.showStarted, now).Some? then NoEffect else StopEffect
  }

  /** The timer that the `Animating` setter schedules, if any. */
  function RequestTimer(m: Machine, cfg: Config, value: bool, now: real): Option<Timer> {
    if value then
      if cfg.graceTime > 0.0 then Some(Timer(StartTimer, now + cfg.graceTime)) else None
    else
      match StopDelay(cfg.minimumShowTime, m.showStarted, now)
      case Some(d) => Some(Timer(StopTimer, now + d))
      case None => None
  }

  /** The `Animating` setter, called at time `now`.  It never removes a
      pending timer and schedules at most one. */
  function SetAnimating(m: Machine, cfg: Config, value: bool, now: real): (r: Machine)
    ensures m.pending <= r.pending && |r.pending| <= |m.pending| + 1
    ensures r.showStarted == if value then Some(now) else m.showStarted
    ensures LockStep(m.flags) ==> LockStep(r.flags)
  {
    var t := RequestTimer(m, cfg, value, now);
    Machine(
      Apply(m.flags, RequestEffect(m, cfg, value, now)),
      if value then Some(now) else m.showStarted,
      if t.Some? then t else m.timer,
      if t.Some? then m.pending + multiset{t.value} else m.pending)
  }

  /** The effect a timer's callback runs. */
  function FireEffect(t: Timer): Effect {
    if t.kind == StartTimer then StartEffect else StopEffect
  }

  /** The run loop fires one pending timer: it leaves the bag and its
      callback runs, whatever happened since it was scheduled. */
  function Fire(m: Machine, t: Timer): (r: Machine)
    requires t in m.pending
    ensures r.pending == m.pending - multiset{t} && |r.pending| == |m.pending| - 1
    ensures LockStep(r.flags) && (Animating(r) <==> t.kind == StartTimer)
    ensures r.showStarted == m.showStarted && r.timer == m.timer
  {
    m.(flags := Apply(m.flags, FireEffect(t)), pending := m.pending - multiset{t})
  }

  /** `Dispose(disposing)`: with `disposing` the `_Timer` slot is cleared.
      Nothing is removed from the run loop. */
  function Dispose(m: Machine, disposing: bool): (r: Machine)
    ensures disposing ==> r.timer == None
    ensures r.flags == m.flags && r.pending == m.pending && r.showStarted == m.showStarted
    ensures !disposing ==> r == m
  {
    if disposing then m.(timer := None) else m
  }

  /** Row selection: ignored while the indicator animates, otherwise a busy
      request (the command dispatch that follows does not touch this state). */
  function Select(m: Machine, cfg: Config, now: real): (r: Machine)
    ensures Animating(m) ==> r == m
    ensures !Animating(m) ==> r.showStarted == Some(now) && m.pending <= r.pending
    ensures LockStep(m.flags) ==> LockStep(r.flags)
  {
    if Animating(m) then m else SetAnimating(m, cfg, true, now)
  }

  /** The events that drive one cell view. */
  datatype Event =
    | Assign(value: bool, now: real)  // the `Animating` setter, e.g. the completion callback
    | Selected(now: real)             // the user selects the row
    | Fired(timer: Timer)             // the run loop fires a timer
    | Disposed(disposing: bool)       // the cell view is disposed

  /** One event.  The run loop can only fire a timer it holds, so firing one
      that is not pending changes nothing. */
  function Step(m: Machine, cfg: Config, e: Event): Machine {
    match e
    case Assign(value, now) => SetAnimating(m, cfg, value, now)
    case Selected(now) => Select(m, cfg, now)
    case Fired(t) => if t in m.pending then Fire(m, t) else m
    case Disposed(disposing) => Dispose(m, disposing)
  }

  /** A sequence of events, in order. */
  function Run(m: Machine, cfg: Config, events: seq<Event>): Machine
    decreases |events|
  {
    if events == [] then m else Run(Step(m, cfg, events[0]), cfg, events[1..])
  }

  /** The indicator starts hidden and stopped, and every event sequence keeps
      `Hidden == !IsAnimating`. */
  lemma {:induction false} LockStepAlways(cfg: Config, events: seq<Event>)
    ensures LockStep(Initial().flags)
    ensures LockStep(Run(Initial(), cfg, events).flags)
  {
    LockStepPreserved(Initial(), cfg, events);
  }

  lemma {:induction false} LockStepPreserved(m: Machine, cfg: Config, events: seq<Event>)
    requires LockStep(m.flags)
    ensures LockStep(Run(m, cfg, events).flags)
    decreases |events|
  {
    if events != [] {
      var m' := Step(m, cfg, events[0]);
      assert LockStep(m'.flags);
      LockStepPreserved(m', cfg, events[1..]);
    }
  }

  /** A busy request records the request time.  With a positive grace time
      nothing becomes visible and a start is scheduled `graceTime` later;
      otherwise the indicator starts at once and `Animating` reads true. */
  lemma StartRequest(m: Machine, cfg: Config, now: real)
    ensures var r := SetAnimating(m, cfg, true, now);
      && r.showStarted == Some(now)
      && (cfg.graceTime > 0.0 ==>
            && r.flags == m.flags
            && r.timer == Some(Timer(StartTimer, now + cfg.graceTime))
            && r.pending == m.pending + multiset{Timer(StartTimer, now + cfg.graceTime)})
      && (cfg.graceTime <= 0.0 ==>
            r.flags == Running && Animating(r) && r.timer == m.timer && r.pending == m.pending)
  {
  }

  /** Right after a grace-time busy request on a stopped indicator the getter
      reads false and the start is pending. */
  lemma AnimatingFalseWhileStartPending(m: Machine, cfg: Config, now: real)
    requires m.flags == Stopped && cfg.graceTime > 0.0
    ensures !Animating(SetAnimating(m, cfg, true, now))
    ensures Timer(StartTimer, now + cfg.graceTime) in SetAnimating(m, cfg, true, now).pending
  {
  }

  /** With a positive grace time, an indicator that is not animating stays so
      until a start timer fires: no busy request, selection, idle request,
      stop timer or disposal starts it, and every start timer already pending
      stays pending. */
  lemma {:induction false} StaysFalseUntilStartFires(m: Machine, cfg: Config, events: seq<Event>)
    requires cfg.graceTime > 0.0 && !Animating(m)
    requires forall i :: 0 <= i < |events| ==> !(events[i].Fired? && events[i].timer.kind == StartTimer)
    ensures !Animating(Run(m, cfg, events))
    ensures forall t :: t in m.pending && t.kind == StartTimer ==> t in Run(m, cfg, events).pending
    decreases |events|
  {
    if events != [] {
      var m' := Step(m, cfg, events[0]);
      assert !Animating(m');
      forall t | t in m.pending && t.kind == StartTimer
        ensures t in m'.pending
      {
        if events[0].Fired? && events[0].timer in m.pending {
          assert t != events[0].timer;
        }
      }
      StaysFalseUntilStartFires(m', cfg, events[1..]);
    }
  }

  /** An idle request is deferred exactly when a minimum show time is set, a
      busy request was recorded and less than the minimum has elapsed since
      it.  The deferred stop is due `minimumShowTime` after the busy request
      and the indicator is left as it is; in every other case the stop runs
      at once. */
  lemma StopRequest(m: Machine, cfg: Config, now: real)
    ensures var r := SetAnimating(m, cfg, false, now);
      var deferred := cfg.minimumShowTime > 0.0 && m.showStarted.Some?
                      && now - m.showStarted.value < cfg.minimumShowTime;
      && r.showStarted == m.showStarted
      && (deferred ==>
            && r.flags == m.flags
            && r.timer == Some(Timer(StopTimer, m.showStarted.value + cfg.minimumShowTime))
            && r.pending == m.pending + multiset{Timer(StopTimer, m.showStarted.value + cfg.minimumShowTime)})
      && (!deferred ==>
            r.flags == Stopped && !Animating(r) && r.timer == m.timer && r.pending == m.pending)
  {
  }

  /** Selection is ignored while the indicator animates and is a busy
      request otherwise. */
  lemma SelectGuard(m: Machine, cfg: Config, now: real)
    ensures Animating(m) ==> Select(m, cfg, now) == m
    ensures !Animating(m) ==> Select(m, cfg, now) == SetAnimating(m, cfg, true, now)
    ensures Select(m, cfg, now).showStarted == if Animating(m) then m.showStarted else Some(now)
  {
  }

  /** No event but a timer firing takes a timer out of the run loop: neither
      the setter nor disposal invalidates an earlier timer. */
  lemma {:induction false} TimersLeaveOnlyByFiring(m: Machine, cfg: Config, events: seq<Event>)
    requires forall i :: 0 <= i < |events| ==> !events[i].Fired?
    ensures m.pending <= Run(m, cfg, events).pending
    decreases |events|
  {
    if events != [] {
      var m' := Step(m, cfg, events[0]);
      assert m.pending <= m'.pending;
      TimersLeaveOnlyByFiring(m', cfg, events[1..]);
    }
  }

  /** Once the indicator animates, any number of further selections leaves
      the whole state unchanged. */
  lemma {:induction false} SelectionsIgnoredWhileAnimating(m: Machine, cfg: Config, events: seq<Event>)
    requires Animating(m)
    requires forall i :: 0 <= i < |events| ==> events[i].Selected?
    ensures Run(m, cfg, events) == m
    decreases |events|
  {
    if events != [] {
      assert Step(m, cfg, events[0]) == m;
      SelectionsIgnoredWhileAnimating(m, cfg, events[1..]);
    }
  }

  /** Only an idle request (`Animating = false`) can stop an animating
      indicator whose pending timers are all starts: selections, busy
      requests, start timers firing and disposal all leave it animating. */
  lemma {:induction false} OnlyIdleRequestStops(m: Machine, cfg: Config, events: seq<Event>)
    requires Animating(m)
    requires forall t :: t in m.pending ==> t.kind == StartTimer
    requires forall i :: 0 <= i < |events| ==> !(events[i].Assign? && !events[i].value)
    ensures Animating(Run(m, cfg, events))
    decreases |events|
  {
    if events != [] {
      var m' := Step(m, cfg, events[0]);
      assert Animating(m');
      forall t | t in m'.pending
        ensures t.kind == StartTimer
      {
        if events[0].Fired? && events[0].timer in m.pending {
          assert t in m.pending;
        }
      }
      OnlyIdleRequestStops(m', cfg, events[1..]);
    }
  }
}
