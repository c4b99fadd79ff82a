/** Event sequences that show how the indicator behaves over time: a busy
    request by selection, the completion callback (`Animating = false`) and
    the run loop firing the timers it holds. */
module Scenarios {
  import opened Wrappers
  import opened Indicator
  import LoadMore

  /** A grace-time start is never invalidated: when the action completes
      before the grace time is over and no minimum show time is set, the
      start still fires afterwards.  The indicator then animates with no
      timer left to stop it, and by `SelectionsIgnoredWhileAnimating` every
      later selection of the row is ignored. */
  lemma GraceStartOutlivesCompletion(cfg: Config, t0: real, t1: real)
    requires cfg.graceTime > 0.0 && cfg.minimumShowTime <= 0.0
    requires t0 <= t1 < t0 + cfg.graceTime
    ensures var start := Timer(StartTimer, t0 + cfg.graceTime);
      && Run(Initial(), cfg, [Selected(t0), Assign(false, t1)]).flags == Stopped
      && Run(Initial(), cfg, [Selected(t0), Assign(false, t1)]).pending == multiset{start}
      && Run(Initial(), cfg, [Selected(t0), Assign(false, t1), Fired(start)])
         == Machine(Running, Some(t0), Some(start), multiset{})
  {
    var start := Timer(StartTimer, t0 + cfg.graceTime);
    var m1 := Step(Initial(), cfg, Selected(t0));
    assert m1 == Machine(Stopped, Some(t0), Some(start), multiset{start});
    var m2 := Step(m1, cfg, Assign(false, t1));
    assert m2 == Machine(Stopped, Some(t0), Some(start), multiset{start});
    var m3 := Step(m2, cfg, Fired(start));
    assert m3 == Machine(Running, Some(t0), Some(start), multiset{});
    assert Run(m2, cfg, [Fired(start)]) == m3;
    assert Run(m1, cfg, [Assign(false, t1)]) == m2;
    assert Run(m1, cfg, [Assign(false, t1), Fired(start)]) == m3;
  }

  /** With a grace time shorter than the minimum show time, an action that
      completes inside the grace time still makes the indicator appear: both
      timers stay pending, the start shows it when the grace time is over and
      the stop hides it `minimumShowTime` after the selection. */
  lemma FastActionStillShows(cfg: Config, t0: real, t1: real)
    requires 0.0 < cfg.graceTime < cfg.minimumShowTime
    requires t0 <= t1 < t0 + cfg.graceTime
    ensures var start := Timer(StartTimer, t0 + cfg.graceTime);
      var stop := Timer(StopTimer, t0 + cfg.minimumShowTime);
      && Run(Initial(), cfg, [Selected(t0), Assign(false, t1)])
         == Machine(Stopped, Some(t0), Some(stop), multiset{start, stop})
      && Run(Initial(), cfg, [Selected(t0), Assign(false, t1), Fired(start)]).flags == Running
      && Run(Initial(), cfg, [Selected(t0), Assign(false, t1), Fired(start), Fired(stop)])
         == Machine(Stopped, Some(t0), Some(stop), multiset{})
  {
    var start := Timer(StartTimer, t0 + cfg.graceTime);
    var stop := Timer(StopTimer, t0 + cfg.minimumShowTime);
    var m1 := Step(Initial(), cfg, Selected(t0));
    assert m1 == Machine(Stopped, Some(t0), Some(start), multiset{start});
    var m2 := Step(m1, cfg, Assign(false, t1));
    assert StopDelay(cfg.minimumShowTime, Some(t0), t1) == Some(cfg.minimumShowTime - (t1 - t0));
    assert m2 == Machine(Stopped, Some(t0), Some(stop), multiset{start, stop});
    assert start != stop && multiset{start, stop} - multiset{start} == multiset{stop};
    var m3 := Step(m2, cfg, Fired(start));
    assert m3 == Machine(Running, Some(t0), Some(stop), multiset{stop});
    var m4 := Step(m3, cfg, Fired(stop));
    assert m4 == Machine(Stopped, Some(t0), Some(stop), multiset{});
    assert Run(m3, cfg, [Fired(stop)]) == m4;
    assert Run(m2, cfg, [Fired(start), Fired(stop)]) == m4;
    assert Run(m2, cfg, [Fired(start)]) == m3;
    assert Run(m1, cfg, [Assign(false, t1), Fired(start), Fired(stop)]) == m4;
    assert Run(m1, cfg, [Assign(false, t1), Fired(start)]) == m3;
    assert Run(m1, cfg, [Assign(false, t1)]) == m2;
  }

  /** The minimum show time counts from the busy request, not from the
      moment the indicator became visible: after a grace-time start, a stop
      requested before `minimumShowTime` has passed since the selection is
      due exactly `minimumShowTime` after the selection. */
  lemma MinimumShowCountsFromRequest(cfg: Config, t0: real, t1: real)
    requires 0.0 < cfg.graceTime
    requires t0 + cfg.graceTime <= t1 < t0 + cfg.minimumShowTime
    ensures var start := Timer(StartTimer, t0 + cfg.graceTime);
      var stop := Timer(StopTimer, t0 + cfg.minimumShowTime);
      Run(Initial(), cfg, [Selected(t0), Fired(start), Assign(false, t1)])
      == Machine(Running, Some(t0), Some(stop), multiset{stop})
  {
    var start := Timer(StartTimer, t0 + cfg.graceTime);
    var stop := Timer(StopTimer, t0 + cfg.minimumShowTime);
    var m1 := Step(Initial(), cfg, Selected(t0));
    assert m1.pending == multiset{start};
    var m2 := Step(m1, cfg, Fired(start));
    assert m2 == Machine(Running, Some(t0), Some(start), multiset{});
    var m3 := Step(m2, cfg, Assign(false, t1));
    assert m3 == Machine(Running, Some(t0), Some(stop), multiset{stop});
    assert Run(m2, cfg, [Assign(false, t1)]) == m3;
    assert Run(m1, cfg, [Fired(start), Assign(false, t1)]) == m3;
  }

  /** The selection guard reads only the animating flag, so a second
      selection during the grace time is a new busy request: it moves
      `_ShowStarted` and schedules a second start beside the first. */
  lemma SecondSelectionDuringGraceRearms(cfg: Config, t0: real, t1: real)
    requires 0.0 < cfg.graceTime
    ensures var s0 := Timer(StartTimer, t0 + cfg.graceTime);
      var s1 := Timer(StartTimer, t1 + cfg.graceTime);
      Run(Initial(), cfg, [Selected(t0), Selected(t1)])
      == Machine(Stopped, Some(t1), Some(s1), multiset{s0, s1})
  {
    var s0 := Timer(StartTimer, t0 + cfg.graceTime);
    var s1 := Timer(StartTimer, t1 + cfg.graceTime);
    var m1 := Step(Initial(), cfg, Selected(t0));
    assert m1 == Machine(Stopped, Some(t0), Some(s0), multiset{s0});
    var m2 := Step(m1, cfg, Selected(t1));
    assert m2 == Machine(Stopped, Some(t1), Some(s1), multiset{s0, s1});
    assert Run(m1, cfg, [Selected(t1)]) == m2;
  }

  /** The same on a LoadMore view: both selections pass the guard, so the
      decorated method is dispatched twice. */
  method SecondSelectionDuringGraceDispatchesAgain(cfg: Config, t0: real, t1: real)
    returns (first: bool, second: bool)
    requires 0.0 < cfg.graceTime
    ensures first && second
  {
    var view := new LoadMore.LoadMoreCellView(cfg, None, None, LoadMore.MethodMember([]));
    first := view.Selected(t0);
    second := view.Selected(t1);
  }

  /** A start that is still pending when the completion arrives fires
      afterwards whenever the stop runs at once: no minimum show time, or at
      least that much time has passed.  This includes a completion that
      arrives after the start is due but before the run loop has fired it,
      as when the parameterless method runs on the main thread past the
      grace time.  The indicator then animates with nothing pending. */
  lemma UnfiredStartOutlivesCompletion(cfg: Config, t0: real, t1: real)
    requires cfg.graceTime > 0.0 && t0 <= t1
    requires cfg.minimumShowTime <= 0.0 || t0 + cfg.minimumShowTime <= t1
    ensures var start := Timer(StartTimer, t0 + cfg.graceTime);
      Run(Initial(), cfg, [Selected(t0), Assign(false, t1), Fired(start)])
      == Machine(Running, Some(t0), Some(start), multiset{})
  {
    var start := Timer(StartTimer, t0 + cfg.graceTime);
    var m1 := Step(Initial(), cfg, Selected(t0));
    assert m1 == Machine(Stopped, Some(t0), Some(start), multiset{start});
    var m2 := Step(m1, cfg, Assign(false, t1));
    assert StopDelay(cfg.minimumShowTime, Some(t0), t1) == None;
    assert m2 == Machine(Stopped, Some(t0), Some(start), multiset{start});
    var m3 := Step(m2, cfg, Fired(start));
    assert m3 == Machine(Running, Some(t0), Some(start), multiset{});
    assert Run(m2, cfg, [Fired(start)]) == m3;
    assert Run(m1, cfg, [Assign(false, t1)]) == m2;
    assert Run(m1, cfg, [Assign(false, t1), Fired(start)]) == m3;
  }

  /** A minimum show time no longer than the grace time does not help: the
      deferred stop is due first, at `t0 + minimumShowTime`, and the start
      fires after it and leaves the indicator animating with nothing
      pending. */
  lemma ShortMinimumShowStillStrands(cfg: Config, t0: real, t1: real)
    requires 0.0 < cfg.minimumShowTime <= cfg.graceTime
    requires t0 <= t1 < t0 + cfg.minimumShowTime
    ensures Timer(StopTimer, t0 + cfg.minimumShowTime).fireAt <= Timer(StartTimer, t0 + cfg.graceTime).fireAt
    ensures Run(Initial(), cfg, [Selected(t0), Assign(false, t1)])
         == Machine(Stopped, Some(t0), Some(Timer(StopTimer, t0 + cfg.minimumShowTime)),
                    multiset{Timer(StartTimer, t0 + cfg.graceTime), Timer(StopTimer, t0 + cfg.minimumShowTime)})
    ensures Run(Initial(), cfg, [Selected(t0), Assign(false, t1),
                                 Fired(Timer(StopTimer, t0 + cfg.minimumShowTime)),
                                 Fired(Timer(StartTimer, t0 + cfg.graceTime))])
         == Machine(Running, Some(t0), Some(Timer(StopTimer, t0 + cfg.minimumShowTime)), multiset{})
  {
    var start := Timer(StartTimer, t0 + cfg.graceTime);
    var stop := Timer(StopTimer, t0 + cfg.minimumShowTime);
    var m1 := Step(Initial(), cfg, Selected(t0));
    assert m1 == Machine(Stopped, Some(t0), Some(start), multiset{start});
    assert StopDelay(cfg.minimumShowTime, Some(t0), t1) == Some(cfg.minimumShowTime - (t1 - t0));
    var m2 := Machine(Stopped, Some(t0), Some(stop), multiset{start, stop});
    assert Step(m1, cfg, Assign(false, t1)) == m2;
    assert start != stop && multiset{start, stop} - multiset{stop} == multiset{start};
    var m3 := Machine(Stopped, Some(t0), Some(stop), multiset{start});
    assert Step(m2, cfg, Fired(stop)) == m3;
    var m4 := Machine(Running, Some(t0), Some(stop), multiset{});
    assert Step(m3, cfg, Fired(start)) == m4;
    assert Run(m3, cfg, [Fired(start)]) == m4;
    assert Run(m2, cfg, [Fired(stop), Fired(start)]) == m4;
    assert Run(m1, cfg, [Assign(false, t1), Fired(stop), Fired(start)]) == m4;
    assert Run(m1, cfg, [Assign(false, t1)]) == m2;
  }
}
