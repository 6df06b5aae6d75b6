/** What the interleaved `Joint` protocol guarantees over every run. */
module JoinTheorems {
  import opened Base
  import opened JoinCell
  import OneShot

  lemma Reachable(acts: seq<Action>)
    requires CanRun(Init(), acts)
    ensures Inv(Exec(Init(), acts))
  {
    InvAlong(Init(), acts);
  }

  // ----- Refinement ----------------------------------------------------------------------

  /** The handle has the outcome, whether or not `poll` has returned it yet. */
  predicate HasTaken(s: State) {
    || s.delivered != []
    || (s.handle.PollFastSwapped? && s.handle.found.Finished?)
    || (s.handle.PollSlowSwapped? && s.handle.found.Finished?)
  }

  function Abs(s: State): OneShot.State
    requires Published(s) ==> s.given.Some?
  {
    var cell :=
      if !Live(s) then
        OneShot.Closed(if Published(s) || s.task.WakeSkipped? then None else s.registered)
      else if HasTaken(s) && s.given.Some? then OneShot.Taken(s.given.value)
      else if Published(s) then OneShot.Done(s.given.value)
      else if s.registered.Some? then OneShot.Waiting(s.registered.value)
      else OneShot.Empty;
    var owed :=
      if (s.task.WakeSwapped? || s.task.WakeStored?) && s.task.found.Joining?
      then Some(s.task.found.reg) else None;
    OneShot.State(cell, Published(s) || s.task.WakeSkipped?, owed, s.woken)
  }

  /** The event that takes effect at a step: the linearization point of each operation. */
  function EventOf(s: State, a: Action): Option<OneShot.Event>
    requires Enabled(s, a)
  {
    match a
    case WakeLoad(at) =>
      if s.stores[at] == Stage.Running then None
      else Some(OneShot.CompleteClosed(s.task.outcome, false))
    case WakeSwap =>
      if Live(s) then Some(OneShot.Complete(s.task.outcome))
      else Some(OneShot.CompleteClosed(s.task.outcome, s.result.Joining?))
    case WakeEnd => if s.task.found.Joining? then Some(OneShot.Fire) else None
    case PollSwap =>
      if s.result.Finished? then Some(OneShot.Take(s.result.outcome))
      else if s.handle.PollSlow? && (s.result.Empty? || s.result.Joining?) then
        Some(OneShot.Register(s.handle.reg))
      else None
    case DropStore => Some(OneShot.Close)
    case _ => None
  }

  ghost predicate StepMatches(s: State, a: Action)
    requires Published(s) ==> s.given.Some?
    requires Enabled(s, a) && (Published(Apply(s, a)) ==> Apply(s, a).given.Some?)
  {
    match EventOf(s, a)
    case None => Abs(Apply(s, a)) == Abs(s)
    case Some(e) => OneShot.Enabled(Abs(s), e) && Abs(Apply(s, a)) == OneShot.Apply(Abs(s), e)
  }

  lemma TaskStepRefines(s: State, a: Action)
    requires StoresOk(s) && TaskOk(s) && HandleOk(s) && Enabled(s, a) && !ByHandle(a)
    ensures StepMatches(s, a)
  {
  }

  lemma HandleStepRefines(s: State, a: Action)
    requires TaskOk(s) && HandleOk(s) && Enabled(s, a) && ByHandle(a)
    ensures StepMatches(s, a)
  {
  }

  /** Every step is a stutter or the one atomic event it is the linearization point of. */
  lemma StepRefines(s: State, a: Action)
    requires Inv(s) && Enabled(s, a)
    ensures Inv(Apply(s, a)) && StepMatches(s, a)
  {
    InvPreserved(s, a);
    if ByHandle(a) {
      HandleStepRefines(s, a);
    } else {
      TaskStepRefines(s, a);
    }
  }

  function History(s: State, acts: seq<Action>): seq<OneShot.Event>
    requires CanRun(s, acts)
    decreases acts
  {
    if acts == [] then []
    else
      var rest := History(Apply(s, acts[0]), acts[1..]);
      match EventOf(s, acts[0])
      case None => rest
      case Some(e) => [e] + rest
  }

  lemma {:induction false} RunRefines(s: State, acts: seq<Action>)
    requires Inv(s) && CanRun(s, acts)
    ensures Inv(Exec(s, acts))
    ensures OneShot.CanRun(Abs(s), History(s, acts))
    ensures OneShot.Exec(Abs(s), History(s, acts)) == Abs(Exec(s, acts))
    decreases acts
  {
    if acts == [] {
    } else {
      StepRefines(s, acts[0]);
      RunRefines(Apply(s, acts[0]), acts[1..]);
      var rest := History(Apply(s, acts[0]), acts[1..]);
      match EventOf(s, acts[0])
      case None =>
      case Some(e) => assert ([e] + rest)[1..] == rest;
    }
  }

  /**
    Every interleaving of `wake`, `poll` and `drop`, with every choice of stale `stage`
    loads, is a run of the atomic cell.
  */
  lemma JointRefinesOneShot(acts: seq<Action>)
    requires CanRun(Init(), acts)
    ensures Inv(Exec(Init(), acts))
    ensures OneShot.CanRun(OneShot.Init(), History(Init(), acts))
    ensures OneShot.Exec(OneShot.Init(), History(Init(), acts)) == Abs(Exec(Init(), acts))
  {
    RunRefines(Init(), acts);
  }

  /** What `poll` returns is what the atomic cell says. */
  lemma PollReturnsMatch(acts: seq<Action>)
    requires CanRun(Init(), acts)
    requires Enabled(Exec(Init(), acts), PollEnd)
    ensures var s := Exec(Init(), acts);
            var t := Apply(s, PollEnd);
            && Inv(s)
            && (t.delivered != s.delivered <==> s.delivered == [] && Abs(s).cell.Taken?)
            && (t.delivered != s.delivered ==> t.delivered == [Abs(s).cell.outcome])
            && (t.last.Some? ==> t.last == Some(s.handle.reg) && t.registered == t.last && Live(t))
            && (t.last.Some? || t.delivered != s.delivered || s.delivered != [])
  {
    Reachable(acts);
  }

  // ----- Safety ------------------------------------------------------------------------------

  /** No `unreachable!` arm and no "already detached" panic, on either side. */
  lemma UnreachableArms(acts: seq<Action>)
    requires CanRun(Init(), acts)
    ensures var s := Exec(Init(), acts);
            && !s.task.WakeBroken? && !s.handle.PollBroken? && !s.handle.PollPanickedDetached?
            && (s.task.WakeSwapped? || s.task.WakeStored? ==>
                  s.task.found.Empty? || s.task.found.Joining? || s.task.found.Detached?)
            && (s.handle.PollFastSwapped? ==> s.handle.found.Finished? || s.handle.found.Joined?)
            && (s.handle.PollSlowSwapped? ==> !s.handle.found.Detached?)
  {
    Reachable(acts);
  }

  /**
    A parked joiner's latest waker is in the slot, or in the hands of `wake`, or woken;
    and `wake` leaves early only when the handle's drop has begun.
  */
  lemma NoLostJoinWakeup(acts: seq<Action>)
    requires CanRun(Init(), acts)
    ensures var s := Exec(Init(), acts);
            && (s.last.Some? ==>
                  || s.result == Joining(s.last.value)
                  || ((s.task.WakeSwapped? || s.task.WakeStored?) && s.task.found == Joining(s.last.value))
                  || s.last.value in s.woken)
            && (s.task.WakeReturned? && s.last.Some? ==> s.last.value in s.woken)
            && (s.task.WakeSkipped? ==> s.handle.DropStored? || s.handle.HandleGone?)
            && |s.woken| <= 1
  {
    Reachable(acts);
  }

  /** Once both sides are through, the slot keeps neither an outcome nor a waker. */
  lemma DetachedInTheEnd(acts: seq<Action>)
    requires CanRun(Init(), acts)
    ensures var s := Exec(Init(), acts);
            s.handle.HandleGone? && (s.task.WakeReturned? || s.task.WakeSkipped?) ==> s.result.Detached?
  {
    Reachable(acts);
  }

  /** The places an outcome can be: task, slot, handle, joiner, destroyed. */
  function Places(s: State): seq<Outcome> {
    (if s.task.WakeEntered? || s.task.WakeChecked? then [s.task.outcome] else [])
    + Outcomes(s.result)
    + (if s.handle.PollFastSwapped? || s.handle.PollSlowSwapped? then Outcomes(s.handle.found) else [])
    + s.delivered
    + s.dropped
  }

  /** The outcome given to `wake` is always in exactly one place. */
  lemma OutcomeConserved(acts: seq<Action>)
    requires CanRun(Init(), acts)
    ensures var s := Exec(Init(), acts);
            Places(s) == if s.given.Some? then [s.given.value] else []
  {
    Reachable(acts);
  }

  /** `stage` never returns to Running. */
  lemma StageNeverReturnsToRunning(acts: seq<Action>, i: nat)
    requires CanRun(Init(), acts)
    requires 0 < i < |Exec(Init(), acts).stores|
    ensures Exec(Init(), acts).stores[i] != Stage.Running
  {
    Reachable(acts);
  }

  // ----- Delivery -------------------------------------------------------------------------------

  /** The outcome is in reach of the handle, and of no poll later than the first one since. */
  predicate Promised(s: State, polls: nat) {
    && Live(s) && Published(s)
    && (s.delivered == [] ==>
          || (s.handle.HandleIdle? && s.polls == polls)
          || s.handle.PollEntered? || s.handle.PollFast? || s.handle.PollSlow?
          || HasTaken(s))
  }

  lemma PromiseStep(s: State, polls: nat, a: Action)
    requires TaskOk(s) && HandleOk(s) && Promised(s, polls) && Enabled(s, a) && !a.DropStore?
    ensures Promised(Apply(s, a), polls) && Apply(s, a).given == s.given
  {
  }

  lemma {:induction false} PromiseKept(s: State, polls: nat, acts: seq<Action>)
    requires Inv(s) && Promised(s, polls) && CanRun(s, acts) && DropStore !in acts
    ensures Inv(Exec(s, acts)) && Promised(Exec(s, acts), polls)
    ensures Exec(s, acts).given == s.given
    decreases acts
  {
    if acts == [] {
    } else {
      InvPreserved(s, acts[0]);
      assert acts[0] in acts;
      PromiseStep(s, polls, acts[0]);
      PromiseKept(Apply(s, acts[0]), polls, acts[1..]);
    }
  }

  /**
    Whatever happens in between, the first poll to complete after the outcome was published
    returns it: the stage it reads may be stale, the answer may not.
  */
  lemma NextPollReturnsOutcome(before: seq<Action>, acts: seq<Action>, outcome: Outcome)
    requires CanRun(Init(), before) && CanRun(Exec(Init(), before), acts) && DropStore !in acts
    requires var s := Exec(Init(), before); s.handle.HandleIdle? && Published(s) && s.given == Some(outcome)
    ensures var s := Exec(Init(), before);
            var t := Exec(s, acts);
            t.handle.HandleIdle? && t.polls > s.polls ==> t.delivered == [outcome]
  {
    Reachable(before);
    PromiseKept(Exec(Init(), before), Exec(Init(), before).polls, acts);
  }

  /** The first poll after Ready panics with "already joined", fast path or slow. */
  lemma PollAfterReadyPanics(acts: seq<Action>)
    requires CanRun(Init(), acts)
    requires Enabled(Exec(Init(), acts), PollEnd) && Exec(Init(), acts).delivered != []
    ensures Apply(Exec(Init(), acts), PollEnd).handle.PollPanickedJoined?
  {
    Reachable(acts);
  }

  // ----- Stale loads do happen --------------------------------------------------------------------

  lemma TwoSteps(s: State, a: Action, b: Action)
    requires Enabled(s, a) && Enabled(Apply(s, a), b)
    ensures CanRun(s, [a, b]) && Exec(s, [a, b]) == Apply(Apply(s, a), b)
  {
    var t := Apply(s, a);
    RunInFront(t, [b], Apply(t, b), []);
    RunInFront(s, [a], t, [b] + []);
    assert [a, b] == [a] + ([b] + []);
  }

  /** An undisturbed call of `wake` that loads the store at `at`. */
  function WakeSteps(outcome: Outcome, at: nat): seq<Action> {
    [WakeCall(outcome), WakeLoad(at)] + [WakeSwap, WakeStore] + [WakeEnd]
  }

  function WokenUp(outcome: Outcome): State {
    Init().(stores := [Stage.Running, Stage.Finished], taskView := 1, task := WakeReturned,
            given := Some(outcome), result := JoinResult.Finished(outcome))
  }

  lemma WakeRuns(s: State, outcome: Outcome, at: nat)
    requires s.task.WakeIdle? && Loadable(s, s.taskView, at) && s.stores[at] == Stage.Running
    ensures CanRun(s, WakeSteps(outcome, at))
    ensures Exec(s, WakeSteps(outcome, at))
            == EndWake(s.(task := WakeStored(s.result), taskView := |s.stores|, given := Some(outcome),
                          stores := s.stores + [Stage.Finished], result := JoinResult.Finished(outcome)))
  {
    TwoSteps(s, WakeCall(outcome), WakeLoad(at));
    var t := Exec(s, [WakeCall(outcome), WakeLoad(at)]);
    TwoSteps(t, WakeSwap, WakeStore);
    var u := Exec(t, [WakeSwap, WakeStore]);
    RunInFront(u, [WakeEnd], Apply(u, WakeEnd), []);
    assert [WakeEnd] + [] == [WakeEnd];
    RunsJoin(t, [WakeSwap, WakeStore], [WakeEnd]);
    RunsJoin(s, [WakeCall(outcome), WakeLoad(at)], [WakeSwap, WakeStore] + [WakeEnd]);
    assert WakeSteps(outcome, at) == [WakeCall(outcome), WakeLoad(at)] + ([WakeSwap, WakeStore] + [WakeEnd]);
  }

  /**
    A poll that begins after Finished was stored may still load Running; it takes the slow
    path, and delivers the outcome.
  */
  lemma StalePollDelivers(outcome: Outcome, waker: Waker)
    ensures var s := WokenUp(outcome);
            && s.stores == [Stage.Running, Stage.Finished]
            && CanRun(s, [PollCall(waker), PollLoad(0)])
            && var t := Exec(s, [PollCall(waker), PollLoad(0)]);
               && t.handle.PollSlow? && CanRun(t, [PollSwap, PollEnd])
               && Exec(t, [PollSwap, PollEnd]).delivered == [outcome]
               && Exec(t, [PollSwap, PollEnd]).result == Joined
    ensures CanRun(Init(), WakeSteps(outcome, 0)) && Exec(Init(), WakeSteps(outcome, 0)) == WokenUp(outcome)
  {
    WakeRuns(Init(), outcome, 0);
    var s := WokenUp(outcome);
    TwoSteps(s, PollCall(waker), PollLoad(0));
    TwoSteps(Exec(s, [PollCall(waker), PollLoad(0)]), PollSwap, PollEnd);
  }

  /**
    And a `wake` that begins after the handle was dropped may still load Running; it stores
    Finished after Detached, and leaves the slot Detached and the outcome destroyed.
  */
  lemma StaleWakeCleansUp(outcome: Outcome)
    ensures CanRun(Init(), [DropStore, DropOverwrite])
    ensures var s := Exec(Init(), [DropStore, DropOverwrite]);
            && s.stores == [Stage.Running, Stage.Detached] && CanRun(s, WakeSteps(outcome, 0))
            && var t := Exec(s, WakeSteps(outcome, 0));
               && t.stores == [Stage.Running, Stage.Detached, Stage.Finished]
               && t.task.WakeReturned? && t.result.Detached? && t.dropped == [outcome]
  {
    TwoSteps(Init(), DropStore, DropOverwrite);
    WakeRuns(Exec(Init(), [DropStore, DropOverwrite]), outcome, 0);
  }
}
