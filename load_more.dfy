/** `LoadMoreCellView`: a "load more" row that runs the method it decorates
    and shows a busy indicator meanwhile.  Its indicator follows the state
    machine of module `Indicator`; on top of that, starting the indicator
    shows the annotation's `Title` in the cell and stopping it restores the
    cell's `Caption`. */
module LoadMore {
  import opened Wrappers
  import Indicator

  /** A label text; `None` stands for a null string. */
  type Text = Option<string>

  /** The table cell the view is bound to; only its text label matters here. */
  datatype Cell = Cell(text: Text)

  /** The caption change that goes with an indicator effect.  Only a cell
      that is still there is edited: a released (null) cell stays null. */
  function Relabel(cell: Option<Cell>, e: Indicator.Effect, title: Text, caption: Text): (r: Option<Cell>)
    ensures r.Some? <==> cell.Some?
    ensures e == Indicator.NoEffect ==> r == cell
  {
    match cell
    case None => None
    case Some(c) =>
      match e
      case NoEffect => cell
      case StartEffect => Some(Cell(title))
      case StopEffect => Some(Cell(caption))
  }

  /** The declared type of one parameter of the decorated method: the
      completion callback type `Action`, or anything else. */
  datatype ParameterType = ActionType | OtherType

  /** The member the cell decorates: a method with its parameter list, or a
      member that is not a method. */
  datatype Member = MethodMember(parameters: seq<ParameterType>) | OtherMember

  /** An argument passed by reflection: null, or the completion callback. */
  datatype Argument = NullArgument | CompletionArgument

  /** Whether the decorated method is invoked, and with which argument array
      (`None` is the null array passed to a parameterless method). */
  datatype Invocation = NotInvoked | Invoked(arguments: Option<seq<Argument>>)

  /** `n` arguments, all null but the last, which is the completion. */
  function CompletionLast(n: nat): (args: seq<Argument>)
    requires n > 0
    ensures |args| == n && args[n - 1] == CompletionArgument
    ensures forall i :: 0 <= i < n - 1 ==> args[i] == NullArgument
  {
    seq(n, i => if i == n - 1 then CompletionArgument else NullArgument)
  }

  /** The argument array holds the completion exactly once. */
  lemma CompletionPassedOnce(n: nat)
    requires n > 0
    ensures multiset(CompletionLast(n))[CompletionArgument] == 1
  {
    var args := CompletionLast(n);
    var prefix := args[..n - 1];
    assert args == prefix + [CompletionArgument];
    assert CompletionArgument !in prefix;
    assert multiset(args) == multiset(prefix) + multiset{CompletionArgument};
  }

  /** How `ExecuteMethod` invokes the decorated member.  A method without
      parameters is invoked with a null argument array; a method whose last
      parameter is an `Action` gets the completion as that argument and null
      for every other; any other member or signature is not invoked. */
  function Dispatch(member: Member): (c: Invocation)
    ensures c.Invoked? <==>
      member.MethodMember? &&
      (member.parameters == [] || member.parameters[|member.parameters| - 1] == ActionType)
    ensures c.Invoked? && member.parameters == [] ==> c.arguments == None
    ensures c.Invoked? && member.parameters != [] ==>
      && c.arguments.Some?
      && |c.arguments.value| == |member.parameters|
      && multiset(c.arguments.value)[CompletionArgument] == 1
      && c.arguments.value[|member.parameters| - 1] == CompletionArgument
      && forall i :: 0 <= i < |member.parameters| - 1 ==> c.arguments.value[i] == NullArgument
  {
    match member
    case OtherMember => NotInvoked
    case MethodMember(ps) =>
      if |ps| == 0 then Invoked(None)
      else if ps[|ps| - 1] == ActionType then
        CompletionPassedOnce(|ps|);
        Invoked(Some(CompletionLast(|ps|)))
      else NotInvoked
  }

  class LoadMoreCellView {
    /** `GraceTime` and `MinimumShowTime` of the annotation. */
    const config: Indicator.Config
    /** The annotation's `Title`, shown while the indicator runs. */
    const title: Text
    /** The cell's `Caption`. */
    const caption: Text
    /** The decorated member (`DataContext.Member`). */
    const member: Member

    /** The activity indicator's `Hidden` and `IsAnimating`. */
    var hidden: bool
    var isAnimating: bool
    /** `_ShowStarted`: the time of the last busy request. */
    var showStarted: Option<real>
    /** `_Timer`: the timer scheduled last. */
    var timer: Option<Indicator.Timer>
    /** The timers the run loop holds for this view and has not fired. */
    var pending: multiset<Indicator.Timer>
    /** The bound table cell, `None` once it has been released. */
    var cell: Option<Cell>

    /** The indicator state as the `Indicator` specification sees it. */
    function State(): Indicator.Machine
      reads this
    {
      Indicator.Machine(Indicator.Flags(hidden, isAnimating), showStarted, timer, pending)
    }

    /** The indicator is visible exactly when it animates. */
    predicate Valid()
      reads this
    {
      Indicator.LockStep(State().flags)
    }

    /** The `Animating` getter: the indicator's own flag, which for a valid
        view says exactly whether the indicator is visible. */
    function Animating(): (a: bool)
      reads this
      ensures a == Indicator.Animating(State())
      ensures Valid() ==> (a <==> !hidden)
    {
      isAnimating
    }

    /** The indicator is created hidden and stopped; no cell is bound yet. */
    constructor (config: Indicator.Config, title: Text, caption: Text, member: Member)
      ensures Valid() && State() == Indicator.Initial() && !Animating()
      ensures cell == None
      ensures this.config == config && this.title == title
      ensures this.caption == caption && this.member == member
    {
      this.config, this.title, this.caption, this.member := config, title, caption, member;
      hidden := true;
      isAnimating := false;
      showStarted, timer, pending := None, None, multiset{};
      cell := None;
    }

    /** The table binds a cell to the view and `UpdateCell` labels it with
        the caption. */
    method UpdateCell()
      modifies this`cell
      ensures cell == Some(Cell(caption))
    {
      cell := Some(Cell(caption));
    }

    /** The bound cell is released (its table view was dismissed). */
    method ReleaseCell()
      modifies this`cell
      ensures cell == None
    {
      cell := None;
    }

    /** Shows and starts the indicator and puts the title in a cell that is
        still bound. */
    method StartActivityIndicator()
      modifies this`hidden, this`isAnimating, this`cell
      ensures !hidden && isAnimating && Valid()
      ensures cell == Relabel(old(cell), Indicator.StartEffect, title, caption)
      ensures old(cell).Some? ==> cell == Some(Cell(title))
    {
      if cell.Some? {
        cell := Some(Cell(title));
      }
      hidden := false;
      isAnimating := true;
    }

    /** Stops and hides the indicator and restores the caption of a cell
        that is still bound. */
    method StopActivityIndicator()
      modifies this`hidden, this`isAnimating, this`cell
      ensures hidden && !isAnimating && Valid()
      ensures cell == Relabel(old(cell), Indicator.StopEffect, title, caption)
      ensures old(cell).Some? ==> cell == Some(Cell(caption))
    {
      isAnimating := false;
      hidden := true;
      if cell.Some? {
        cell := Some(Cell(caption));
      }
    }

    /** The `Animating` setter, run at time `now`. */
    method SetAnimating(value: bool, now: real)
      requires Valid()
      modifies this`hidden, this`isAnimating, this`showStarted, this`timer, this`pending, this`cell
      ensures Valid()
      ensures State() == Indicator.SetAnimating(old(State()), config, value, now)
      ensures cell == Relabel(old(cell), Indicator.RequestEffect(old(State()), config, value, now), title, caption)
    {
      ghost var m := State();
      if value {
        showStarted := Some(now);
        if config.graceTime > 0.0 {
          var t := Indicator.Timer(Indicator.StartTimer, now + config.graceTime);
          timer := Some(t);
          pending := pending + multiset{t};
          assert Indicator.RequestTimer(m, config, value, now) == Some(t);
        } else {
          StartActivityIndicator();
          assert Indicator.RequestTimer(m, config, value, now) == None;
        }
      } else {
        if config.minimumShowTime > 0.0 && showStarted.Some? {
          var elapsed := now - showStarted.value;
          if elapsed < config.minimumShowTime {
            var t := Indicator.Timer(Indicator.StopTimer, now + (config.minimumShowTime - elapsed));
            timer := Some(t);
            pending := pending + multiset{t};
            assert Indicator.RequestTimer(m, config, value, now) == Some(t);
            return;
          }
        }
        StopActivityIndicator();
        assert Indicator.RequestTimer(m, config, value, now) == None;
      }
    }

    /** The run loop fires the pending timer `t`: its callback runs whatever
        happened since it was scheduled. */
    method Fire(t: Indicator.Timer)
      requires Valid() && t in pending
      modifies this
      ensures Valid()
      ensures State() == Indicator.Fire(old(State()), t)
      ensures cell == Relabel(old(cell), Indicator.FireEffect(t), title, caption)
    {
      pending := pending - multiset{t};
      if t.kind == Indicator.StartTimer {
        StartActivityIndicator();
      } else {
        StopActivityIndicator();
      }
    }

    /** Row selection at time `now`: ignored while the indicator animates;
        otherwise a busy request, after which the command is dispatched
        (`dispatched`), to run later as `ExecuteMethod`. */
    method Selected(now: real) returns (dispatched: bool)
      requires Valid()
      modifies this
      ensures Valid()
      ensures dispatched == !old(Animating())
      ensures State() == Indicator.Select(old(State()), config, now)
      ensures !dispatched ==> cell == old(cell)
      ensures dispatched ==>
        cell == Relabel(old(cell), Indicator.RequestEffect(old(State()), config, true, now), title, caption)
    {
      if Animating() {
        return false;
      }
      SetAnimating(true, now);
      dispatched := true;
    }

    /** The completion callback handed to `ExecuteMethod`: `Animating = false`. */
    method Completion(now: real)
      requires Valid()
      modifies this
      ensures Valid()
      ensures State() == Indicator.SetAnimating(old(State()), config, false, now)
      ensures cell == Relabel(old(cell), Indicator.RequestEffect(old(State()), config, false, now), title, caption)
    {
      SetAnimating(false, now);
    }

    /** The dispatched command, run on the main thread; `now` is the time
        the invoked method returns.  The member is invoked as `Dispatch`
        says; only a parameterless method is followed by the completion
        (`completed`), while a method that takes the completion calls it
        itself, later. */
    method ExecuteMethod(now: real) returns (call: Invocation, completed: bool)
      requires Valid()
      modifies this
      ensures Valid()
      ensures call == Dispatch(member)
      ensures completed <==> call == Invoked(None)
      ensures completed ==> State() == Indicator.SetAnimating(old(State()), config, false, now)
      ensures completed ==>
        cell == Relabel(old(cell), Indicator.RequestEffect(old(State()), config, false, now), title, caption)
      ensures !completed ==> State() == old(State()) && cell == old(cell)
    {
      completed := false;
      call := NotInvoked;
      if member.MethodMember? {
        var parameters := member.parameters;
        if |parameters| == 0 {
          call := Invoked(None);
          Completion(now);
          completed := true;
        } else if parameters[|parameters| - 1] == ActionType {
          var methodParams := new Argument[|parameters|](_ => NullArgument);
          methodParams[|parameters| - 1] := CompletionArgument;
          assert methodParams[..] == CompletionLast(|parameters|);
          call := Invoked(Some(methodParams[..]));
        }
      }
    }

    /** `Dispose(disposing)`: with `disposing` the `_Timer` slot is cleared. */
    method Dispose(disposing: bool)
      modifies this`timer
      ensures State() == Indicator.Dispose(old(State()), disposing)
    {
      if disposing {
        timer := None;
      }
    }
  }
}
