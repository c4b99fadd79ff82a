/** `AccessoryIndicatorCellView`: a row whose accessory is a busy indicator
    and whose selection executes a bound command.  Its indicator follows the
    state machine of module `Indicator`, but unlike the LoadMore view it
    never edits the cell's text, and its command path never calls the
    completion, so nothing but an outside `Animating = false` stops it
    (`Indicator.OnlyIdleRequestStops`). */
module AccessoryIndicator {
  import opened Wrappers
  import Indicator

  /** A bound command, known by the name of the member it came from. */
  datatype Command = Command(name: string)

  /** One `Command.Execute(parameter)` call; a null parameter is `None`. */
  datatype Execution = Execution(command: Command, parameter: Option<string>)

  class AccessoryIndicatorCellView {
    /** `GraceTime` and `MinimumShowTime` of the annotation. */
    const config: Indicator.Config

    /** The bound command (`Command`, null when unbound) and its parameter. */
    var command: Option<Command>
    var commandParameter: Option<string>

    /** The activity indicator's `Hidden` and `IsAnimating`. */
    var hidden: bool
    var isAnimating: bool
    /** `_ShowStarted`: the time of the last busy request. */
    var showStarted: Option<real>
    /** `_Timer`: the timer scheduled last. */
    var timer: Option<Indicator.Timer>
    /** The timers the run loop holds for this view and has not fired. */
    var pending: multiset<Indicator.Timer>

    /** The indicator state as the `Indicator` specification sees it. */
    function State(): Indicator.Machine
      reads this
    {
      Indicator.Machine(Indicator.Flags(hidden, isAnimating), showStarted, timer, pending)
    }

    /** The indicator is visible exactly when it animates. */
    predicate Valid()
      reads this
    {
      Indicator.LockStep(State().flags)
    }

    /** The `Animating` getter: the indicator's own flag, which for a valid
        view says exactly whether the indicator is visible. */
    function Animating(): (a: bool)
      reads this
      ensures a == Indicator.Animating(State())
      ensures Valid() ==> (a <==> !hidden)
    {
      isAnimating
    }

    /** The indicator is created hidden and stopped; no command is bound. */
    constructor (config: Indicator.Config)
      ensures Valid() && State() == Indicator.Initial() && !Animating()
      ensures this.config == config && command == None && commandParameter == None
    {
      this.config := config;
      command, commandParameter := None, None;
      hidden := true;
      isAnimating := false;
      showStarted, timer, pending := None, None, multiset{};
    }

    /** Shows and starts the indicator; nothing else changes. */
    method StartActivityIndicator()
      modifies this`hidden, this`isAnimating
      ensures !hidden && isAnimating && Valid()
    {
      hidden := false;
      isAnimating := true;
    }

    /** Stops and hides the indicator; nothing else changes. */
    method StopActivityIndicator()
      modifies this`hidden, this`isAnimating
      ensures hidden && !isAnimating && Valid()
    {
      isAnimating := false;
      hidden := true;
    }

    /** The `Animating` setter, run at time `now`. */
    method SetAnimating(value: bool, now: real)
      requires Valid()
      modifies this`hidden, this`isAnimating, this`showStarted, this`timer, this`pending
      ensures Valid()
      ensures State() == Indicator.SetAnimating(old(State()), config, value, now)
    {
      if value {
        showStarted := Some(now);
        if config.graceTime > 0.0 {
          var t := Indicator.Timer(Indicator.StartTimer, now + config.graceTime);
          timer := Some(t);
          pending := pending + multiset{t};
        } else {
          StartActivityIndicator();
        }
      } else {
        if config.minimumShowTime > 0.0 && showStarted.Some? {
          var elapsed := now - showStarted.value;
          if elapsed < config.minimumShowTime {
            var t := Indicator.Timer(Indicator.StopTimer, now + (config.minimumShowTime - elapsed));
            timer := Some(t);
            pending := pending + multiset{t};
            return;
          }
        }
        StopActivityIndicator();
      }
    }

    /** The run loop fires the pending timer `t`. */
    method Fire(t: Indicator.Timer)
      requires Valid() && t in pending
      modifies this`hidden, this`isAnimating, this`pending
      ensures Valid()
      ensures State() == Indicator.Fire(old(State()), t)
    {
      pending := pending - multiset{t};
      if t.kind == Indicator.StartTimer {
        StartActivityIndicator();
      } else {
        StopActivityIndicator();
      }
    }

    /** Row selection at time `now`: ignored while the indicator animates;
        otherwise a busy request, after which the command is dispatched
        (`dispatched`), to run later as `ExecuteMethod`. */
    method Selected(now: real) returns (dispatched: bool)
      requires Valid()
      modifies this`hidden, this`isAnimating, this`showStarted, this`timer, this`pending
      ensures Valid()
      ensures dispatched == !old(Animating())
      ensures State() == Indicator.Select(old(State()), config, now)
    {
      if Animating() {
        return false;
      }
      SetAnimating(true, now);
      dispatched := true;
    }

    /** The dispatched command, run on the main thread: `Execute` with the
        command parameter when a command is bound, nothing otherwise.  The
        completion it is handed is never called, and the method may change
        nothing, so `Animating` is left as the selection set it. */
    method ExecuteMethod() returns (executed: Option<Execution>)
      ensures executed.Some? <==> command.Some?
      ensures executed.Some? ==>
        executed.value.command == command.value && executed.value.parameter == commandParameter
    {
      executed := None;
      if command.Some? {
        executed := Some(Execution(command.value, commandParameter));
      }
    }

    /** `Dispose(disposing)`: with `disposing` the `_Timer` slot is cleared. */
    method Dispose(disposing: bool)
      modifies this`timer
      ensures State() == Indicator.Dispose(old(State()), disposing)
      ensures disposing ==> timer == None
    {
      if disposing {
        timer := None;
      }
    }
  }

  /** With no grace time, once a selection has been dispatched on a stopped
      indicator the view stays busy: the command path never resets
      `Animating`, and every further selection is ignored.  With any grace
      time, `Indicator.OnlyIdleRequestStops` covers firings and disposals too. */
  lemma {:induction false} BusyAfterDispatch(cfg: Indicator.Config, now: real, later: seq<Indicator.Event>)
    requires cfg.graceTime <= 0.0
    requires forall i :: 0 <= i < |later| ==> later[i].Selected?
    ensures Indicator.Animating(Indicator.Select(Indicator.Initial(), cfg, now))
    ensures var m := Indicator.Select(Indicator.Initial(), cfg, now);
      Indicator.Run(m, cfg, later) == m
  {
    var m := Indicator.Select(Indicator.Initial(), cfg, now);
    Indicator.StartRequest(Indicator.Initial(), cfg, now);
    Indicator.SelectionsIgnoredWhileAnimating(m, cfg, later);
  }

  /** The same on a view with a bound command: with no grace time, a
      selection dispatches the command, running it leaves the indicator
      animating, and the next selection dispatches nothing. */
  method SelectThenExecuteStaysBusy(cfg: Indicator.Config, now: real, later: real)
    returns (dispatched: bool, ran: bool, busy: bool, again: bool)
    requires cfg.graceTime <= 0.0
    ensures dispatched && ran && busy && !again
  {
    var view := new AccessoryIndicatorCellView(cfg);
    view.command := Some(Command("Save"));
    dispatched := view.Selected(now);
    Indicator.StartRequest(Indicator.Initial(), cfg, now);
    var executed := view.ExecuteMethod();
    ran := executed.Some?;
    busy := view.Animating();
    again := view.Selected(later);
  }
}
