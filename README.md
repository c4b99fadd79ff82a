# Deferred busy indicator of the MonoMobile.Views cell templates

This project models the busy indicator behind the `Animating` property of two cell views:
`LoadMoreCellView` (a "load more" row that runs the method it decorates) and
`AccessoryIndicatorCellView` (a row that executes a bound command). The indicator has two timing rules:

- **GraceTime** postpones showing the indicator.
- **MinimumShowTime** postpones hiding it.

Both are one-shot run-loop timers. Selecting the row sets `Animating = true` and dispatches the command. The
completion callback sets `Animating = false`.

## Modules

- `Indicator` (indicator.dfy) holds the state machine that both views share, as functions over a `Machine`
  value. The value holds:
  - the indicator's `Hidden` and `IsAnimating` flags;
  - `_ShowStarted`;
  - the `_Timer` slot;
  - the bag of timers the run loop still holds.

  The module also has the lemmas about this state machine.
- `LoadMore` (load_more.dfy) holds the `LoadMoreCellView` class. Its methods update the fields in place.
  `SetAnimating`, `Fire`, `Selected`, `Completion` and `Dispose` are each proved to leave the state that the
  matching `Indicator` function gives for the old state. On top of that, the class models two things:
  - the caption swap on the bound cell, which may be null;
  - the reflective dispatch of the decorated method.
- `AccessoryIndicator` (accessory_indicator.dfy) holds the `AccessoryIndicatorCellView` class. It runs the
  same state machine. It has no caption edits, and its command path never calls the completion.
- `Scenarios` (scenarios.dfy) holds event sequences that show the timing behaviour end to end.

Time is an explicit `now : real` in seconds. A timer is a pair `(StartTimer | StopTimer, fireAt)`. The source
never invalidates a timer: it overwrites `_Timer` without cancelling it, and `Dispose` calls `_Timer.Dispose()`
and releases the slot, but never calls `Invalidate`.
So pending timers form a multiset, and `Fire` runs any one of them.

### How the code behaves, as opposed to a natural reading of the two timing rules

A natural reading of the two rules is a four-state controller: idle, pending show, showing and pending hide. In
that reading, a hide request cancels a pending grace timer, and the minimum show time counts from the moment
the indicator became visible. The code behaves differently. The model follows the code, and these lemmas
state what it does:

- `Scenarios.GraceStartOutlivesCompletion`, `Scenarios.UnfiredStartOutlivesCompletion` and
  `Scenarios.ShortMinimumShowStillStrands`: a hide request does not cancel a grace-time start that has not
  fired yet. The start then fires after the completion and leaves the indicator animating with no timer left
  to stop it. This happens in three cases:
  - the completion comes inside the grace time and no minimum show time is set;
  - the completion comes after the start is due but before the run loop has fired it, and the stop then runs
    at once: no minimum show time is set, or at least that much time has passed since the selection. The
    parameterless LoadMore method runs on the main thread, so a method that runs past both the grace time and
    the minimum show time produces this case;
  - `0 < MinimumShowTime <= GraceTime` and the completion comes inside the minimum show time. The deferred
    stop is then due first.

  `Indicator.SelectionsIgnoredWhileAnimating` shows that every later selection of the row is then ignored.
  `Indicator.OnlyIdleRequestStops` shows that nothing but another `Animating = false` stops the indicator.
- `Scenarios.FastActionStillShows`: when the grace time is shorter than the minimum show time, a fast action
  still makes the indicator appear.
- `Scenarios.MinimumShowCountsFromRequest`: the minimum show time counts from the busy request (`_ShowStarted`
  is set when `Animating` becomes true), not from the moment the indicator became visible.
- `Scenarios.SecondSelectionDuringGraceRearms` and `Scenarios.SecondSelectionDuringGraceDispatchesAgain`: the
  selection guard reads only `IsAnimating`. A second selection during the grace time is therefore a new
  request: it schedules a second start and dispatches the command a second time. The guard does not protect
  the grace window.
- Neither view evaluates `CanExecute` before dispatching. Neither view guarantees that the completion runs
  when the invoked member fails.

## Model

| member | source | states |
|---|---|---|
| `Indicator.Apply` | Templates/LoadMoreAttribute.cs:168-188 | Start leaves the indicator visible and animating, Stop leaves it hidden and stopped, so `Hidden == !IsAnimating` survives every effect |
| `Indicator.StopDelay` | Templates/LoadMoreAttribute.cs:238-245 | a stop is deferred exactly when `MinimumShowTime > 0`, `_ShowStarted` is set and the time elapsed since it is below the minimum; the delay is positive and makes the stop due `MinimumShowTime` after `_ShowStarted` |
| `Indicator.SetAnimating` | Templates/LoadMoreAttribute.cs:221-249 | the setter never removes a pending timer and schedules at most one; it records `_ShowStarted = now` exactly on `true`; it keeps the visibility lock-step |
| `Indicator.Fire` | Templates/LoadMoreAttribute.cs:225-245 | firing a pending timer removes exactly that timer and runs its callback: the indicator ends animating exactly for a start timer; `_ShowStarted` and `_Timer` are untouched |
| `Indicator.Dispose` | Templates/LoadMoreAttribute.cs:94-111 | `Dispose(true)` clears `_Timer` and removes nothing from the run loop; `Dispose(false)` changes nothing |
| `Indicator.LockStepAlways` | Templates/LoadMoreAttribute.cs:79-92 | the indicator starts hidden and stopped, and after any sequence of setter calls, selections, timer firings and disposals `Hidden == !IsAnimating` |
| `Indicator.LockStepPreserved` | Templates/AccessoryIndicatorAttribute.cs:141-214 | from any state where `Hidden == !IsAnimating`, every event sequence keeps it |
| `Indicator.StartRequest` | Templates/LoadMoreAttribute.cs:221-233 | `Animating = true` records `_ShowStarted = now`; with `GraceTime > 0` the flags are unchanged and a start is scheduled `GraceTime` later into `_Timer` and the run loop; otherwise the indicator runs at once and no timer is scheduled |
| `Indicator.AnimatingFalseWhileStartPending` | Templates/LoadMoreAttribute.cs:192-195 | right after a grace-time busy request on a stopped indicator, the getter reads false and the start is pending |
| `Indicator.StaysFalseUntilStartFires` | Templates/LoadMoreAttribute.cs:192-249 | with a positive grace time, an indicator that is not animating keeps reading false through any busy or idle requests, selections, stop timers firing and disposals, until a start timer fires; every pending start stays pending meanwhile |
| `Indicator.StopRequest` | Templates/LoadMoreAttribute.cs:234-249 | `Animating = false` is deferred exactly when `MinimumShowTime > 0`, `_ShowStarted` is set and less than the minimum has elapsed; then the flags are kept and a stop due at `_ShowStarted + MinimumShowTime` is scheduled; otherwise the indicator stops at once |
| `Indicator.SelectGuard` | Templates/LoadMoreAttribute.cs:124-129 | selection leaves the state untouched while `Animating` is true and is `Animating = true` otherwise |
| `Indicator.TimersLeaveOnlyByFiring` | Templates/LoadMoreAttribute.cs:227-243 | no event other than a timer firing removes a pending timer: the setter overwrites `_Timer` without invalidating the earlier timer |
| `Indicator.SelectionsIgnoredWhileAnimating` | Templates/AccessoryIndicatorAttribute.cs:109-112 | once the indicator animates, any number of selections leaves the whole state unchanged |
| `Indicator.OnlyIdleRequestStops` | Templates/LoadMoreAttribute.cs:221-249 | an animating indicator whose pending timers are all starts keeps animating through any sequence of selections, busy requests, timer firings and disposals; only `Animating = false` can stop it |
| `Indicator.Select` | Templates/LoadMoreAttribute.cs:124-129 | a selection while animating returns the state unchanged; otherwise it records `_ShowStarted = now`, removes no pending timer, and keeps the visibility lock-step |
| `Scenarios.GraceStartOutlivesCompletion` | Templates/LoadMoreAttribute.cs:221-249 | with a grace time and no minimum show time, a completion inside the grace time stops nothing; the pending start fires afterwards and leaves the indicator animating with no timer pending |
| `Scenarios.FastActionStillShows` | Templates/LoadMoreAttribute.cs:221-249 | with `0 < GraceTime < MinimumShowTime`, a completion inside the grace time leaves both a start and a stop pending; the indicator shows at `t0 + GraceTime` and hides at `t0 + MinimumShowTime` |
| `Scenarios.MinimumShowCountsFromRequest` | Templates/LoadMoreAttribute.cs:223-243 | after a grace-time start, a stop requested early is due `MinimumShowTime` after the selection, not after the indicator appeared |
| `Scenarios.SecondSelectionDuringGraceRearms` | Templates/LoadMoreAttribute.cs:122-132 | a second selection during the grace time moves `_ShowStarted` and schedules a second start beside the first |
| `Scenarios.SecondSelectionDuringGraceDispatchesAgain` | Templates/LoadMoreAttribute.cs:122-135 | on a LoadMore view with a grace time, two selections in a row both pass the guard, so the decorated method is dispatched twice |
| `Scenarios.UnfiredStartOutlivesCompletion` | Templates/LoadMoreAttribute.cs:221-249 | when the stop runs at once (no minimum show time, or at least that much time elapsed), a start still pending at the completion, even an overdue one, fires afterwards and leaves the indicator animating with nothing pending |
| `Scenarios.ShortMinimumShowStillStrands` | Templates/LoadMoreAttribute.cs:221-249 | with `0 < MinimumShowTime <= GraceTime` and a completion inside the minimum show time, the stop is due first; when the start fires after it, the indicator is left animating with nothing pending |
| `LoadMore.Relabel` | Templates/LoadMoreAttribute.cs:170-187 | caption edits happen only on a bound cell; a null cell stays null and no effect fails on it |
| `LoadMore.Dispatch` | Templates/LoadMoreAttribute.cs:139-154 | a member is invoked exactly when it is a method with no parameters or with `Action` as last parameter; the parameterless one gets a null argument array; otherwise the array has one slot per parameter, the completion exactly once in the last slot and null elsewhere |
| `LoadMore.LoadMoreCellView.constructor` | Templates/LoadMoreAttribute.cs:79-92 | the indicator is created hidden and stopped, with no timer and no `_ShowStarted` |
| `LoadMore.LoadMoreCellView.Animating` | Templates/LoadMoreAttribute.cs:192-195 | the getter returns the indicator's own animating flag; on a valid view that is exactly whether the indicator is visible |
| `LoadMore.LoadMoreCellView.UpdateCell` | Templates/LoadMoreAttribute.cs:113-115 | the bound cell shows the caption |
| `LoadMore.LoadMoreCellView.StartActivityIndicator` | Templates/LoadMoreAttribute.cs:168-177 | the indicator becomes visible and animating; a bound cell shows the title; a null cell is left alone |
| `LoadMore.LoadMoreCellView.StopActivityIndicator` | Templates/LoadMoreAttribute.cs:179-188 | the indicator stops and hides; a bound cell shows the caption again; a null cell is left alone |
| `LoadMore.LoadMoreCellView.SetAnimating` | Templates/LoadMoreAttribute.cs:190-251 | the setter's new state is `Indicator.SetAnimating` of the old one, and the cell caption follows the effect run at once |
| `LoadMore.LoadMoreCellView.Fire` | Templates/LoadMoreAttribute.cs:225-245 | a pending timer fires as `Indicator.Fire` says, and its callback edits the caption of a still-bound cell |
| `LoadMore.LoadMoreCellView.Selected` | Templates/LoadMoreAttribute.cs:122-135 | a selection while `Animating` changes nothing and dispatches nothing; otherwise it is `Animating = true` followed by a dispatch |
| `LoadMore.LoadMoreCellView.Completion` | Templates/LoadMoreAttribute.cs:163 | the completion handed to `ExecuteMethod` is exactly `Animating = false` |
| `LoadMore.LoadMoreCellView.ExecuteMethod` | Templates/LoadMoreAttribute.cs:137-166 | the member is invoked as `Dispatch` says; the completion runs at once exactly for a parameterless method; in every other case the indicator state and the cell are unchanged |
| `LoadMore.LoadMoreCellView.Dispose` | Templates/LoadMoreAttribute.cs:103-107 | `Dispose(true)` leaves `_Timer` null; nothing else changes |
| `AccessoryIndicator.AccessoryIndicatorCellView.constructor` | Templates/AccessoryIndicatorAttribute.cs:73-86 | the indicator is created hidden and stopped, with no timer and no `_ShowStarted` |
| `AccessoryIndicator.AccessoryIndicatorCellView.Animating` | Templates/AccessoryIndicatorAttribute.cs:155-158 | the getter returns the indicator's own animating flag; on a valid view that is exactly whether the indicator is visible |
| `AccessoryIndicator.AccessoryIndicatorCellView.StartActivityIndicator` | Templates/AccessoryIndicatorAttribute.cs:141-145 | the indicator becomes visible and animating; nothing but the two flags may change |
| `AccessoryIndicator.AccessoryIndicatorCellView.StopActivityIndicator` | Templates/AccessoryIndicatorAttribute.cs:147-151 | the indicator stops and hides; nothing but the two flags may change |
| `AccessoryIndicator.AccessoryIndicatorCellView.SetAnimating` | Templates/AccessoryIndicatorAttribute.cs:153-214 | the setter's new state is `Indicator.SetAnimating` of the old one; the command and its parameter are untouched |
| `AccessoryIndicator.AccessoryIndicatorCellView.Fire` | Templates/AccessoryIndicatorAttribute.cs:188-208 | a pending timer fires as `Indicator.Fire` says |
| `AccessoryIndicator.AccessoryIndicatorCellView.Selected` | Templates/AccessoryIndicatorAttribute.cs:107-120 | a selection while `Animating` changes nothing and dispatches nothing; otherwise it is `Animating = true` followed by a dispatch |
| `AccessoryIndicator.AccessoryIndicatorCellView.ExecuteMethod` | Templates/AccessoryIndicatorAttribute.cs:122-128 | `Execute(CommandParameter)` is called exactly when a command is bound; the method changes no state, so it never resets `Animating` |
| `AccessoryIndicator.AccessoryIndicatorCellView.Dispose` | Templates/AccessoryIndicatorAttribute.cs:97-101 | `Dispose(true)` leaves `_Timer` null; nothing else changes |
| `AccessoryIndicator.BusyAfterDispatch` | Templates/AccessoryIndicatorAttribute.cs:109-112 | with no grace time, a selection on a stopped indicator leaves it animating, and any number of later selections change nothing |
| `AccessoryIndicator.SelectThenExecuteStaysBusy` | Templates/AccessoryIndicatorAttribute.cs:107-136 | on a view with no grace time, a selection dispatches the command, running the bound command leaves `Animating` true, and the next selection dispatches nothing |

## Left out

- Threads: `new Thread`, `NSAutoreleasePool` and `InvokeOnMainThread` are not modelled. The spawned thread only
  hops back to the main thread, so the dispatch is modelled as a later, separate `ExecuteMethod` step.
  `ExecuteCommandThread` has no member of its own.
- Timer and clock mechanics: NSTimer and the run loop are replaced by the `pending` multiset and `Fire`.
  `DateTime.Now` becomes the `now` parameter.
- Fire: the model lets the run loop fire any pending timer, in any order, and does not compare `fireAt` with
  a clock. Each timer's due time is recorded in the timer itself, and the scenario lemmas fire timers in
  due order.
- Floating point: `GraceTime`, `MinimumShowTime` and the elapsed seconds are `float`/`double` in the source.
  The model uses exact reals, so rounding is not modelled.
- Reflection: `MethodInfo.GetParameters` and `Invoke` are abstracted. A member is a parameter-type list.
  `GetParameters` never yields null, so the `parameters == null` test has no counterpart.
- LoadMore.LoadMoreCellView.ExecuteMethod: the invoked member is assumed to leave the view untouched. On the
  parameterless path the completion runs on the state from before the call, so the model cannot show the
  invoked method releasing the cell first. On the `Action` path a `ReleaseCell` may come between any events.
- AccessoryIndicator.AccessoryIndicatorCellView.ExecuteMethod: what `Command.Execute` does is not modelled;
  it is assumed to leave the view untouched.
- Errors: exceptions raised by the invoked method or by `Command.Execute` are not modelled.
- Indicator style: the Gray/White choice that depends on the text colour's brightness is not modelled. It
  reads CGColor float components and only affects appearance.
- Table plumbing: `DeselectRow`, the `UpdateCell` alignment, accessory and colour styling, and the
  `CellContentView` views are not modelled.
- AccessoryIndicator properties: `Enabled` and `CommandMemberName` are not modelled.
- Native disposal: disposing the native `_ActivityIndicator` is not modelled, and neither is what a timer
  that fires after disposal does to it. `Indicator.Dispose` keeps the disposed `_Timer` in the run loop's
  bag: the model assumes that disposing the managed `NSTimer` wrapper does not invalidate the native timer
  the run loop still holds.
- LoadMore.LoadMoreCellView.ReleaseCell: the cell is released by the surrounding framework, not by this view.
  This method only stands for that event.
- UIGlassyButton.cs, Templates/AccessoryButtonAttribute.cs and Templates/ProgressButtonAttribute.cs are not
  part of this model. They hold UIKit drawing and button construction. The progress button's non-HUD
  selection delegates to `LoadMoreCellView.Selected`, and its HUD branch wraps a `ProgressHud` that is not
  shown.
