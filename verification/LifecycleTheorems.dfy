/** End-to-end guarantees of one task, over every interleaving of all its users. */
module LifecycleTheorems {
  import opened Base
  import opened Lifecycle
  import J = JoinCell
  import JT = JoinTheorems
  import S = WakerSlot
  import ST = SlotTheorems
  import Heap
  import OneShot

  lemma Reachable(acts: seq<Action>)
    requires CanRun(Init(), acts)
    ensures Inv(Exec(Init(), acts))
  {
    InvAlong(Init(), acts);
  }

  // ----- No hang ---------------------------------------------------------------------------

  /** Nobody is inside a call on the task. */
  predicate Quiescent(s: State) {
    && (s.driver.Parked? || s.driver.Gone?)
    && s.join.handle.HandleIdle?
    && forall c <- s.slot.calls :: s.slot.calls[c].CancelIdle?
  }

  lemma {:induction false} SlotRunHas(acts: seq<Action>, a: S.Action)
    requires OnSlot(a) in acts
    ensures a in SlotRun(acts)
  {
    if acts[0] != OnSlot(a) {
      SlotRunHas(acts[1..], a);
    }
  }

  /** At rest after a call of `cancel`, the slot is CANCELLED. */
  lemma CancelCompleted(acts: seq<Action>, caller: S.Caller)
    requires CanRun(Init(), acts) && OnSlot(S.CancelLoad(caller)) in acts && Quiescent(Exec(Init(), acts))
    ensures Exec(Init(), acts).slot.slot.CANCELLED?
  {
    SlotProjection(Init(), acts);
    SlotRunHas(acts, S.CancelLoad(caller));
    ST.CancelReturnsCancelled(S.Init(), caller, SlotRun(acts));
  }

  /** The waker of the latest task poll has been woken by `cancel`. */
  predicate TaskWoken(s: State) {
    s.current.Some? && s.current.value in s.slot.woken
  }

  /**
    What rest means, whether or not anybody cancelled: a task that is over has woken a
    parked joiner. One that is not is parked; if it was ever polled, its latest waker has
    been woken when the slot is CANCELLED, and otherwise waits in the slot, nobody woken.
  */
  lemma AtRest(acts: seq<Action>)
    requires CanRun(Init(), acts) && Quiescent(Exec(Init(), acts))
    ensures var s := Exec(Init(), acts);
            if !s.future then s.join.last.Some? ==> s.join.last.value in s.join.woken
            else
              && s.driver.Parked?
              && (s.polls > 0 ==>
                    && s.current.Some?
                    && if s.slot.slot.CANCELLED? then s.slot.woken == [s.current.value]
                       else
                         && s.slot.slot.Pointer? && s.slot.woken == []
                         && Heap.Content(s.slot.memory, s.slot.slot.address) == s.current)
  {
    Reachable(acts);
  }

  /**
    Nobody hangs: if somebody called `cancel`, and the joiner is parked with the waker of
    its latest poll, then at rest either the task is over and that waker has been woken, or
    the task is parked and the waker of its latest poll has been woken, or it was never
    polled (and `PollAfterCancelFinishes` says what its first poll does).
  */
  lemma NoHang(acts: seq<Action>, caller: S.Caller)
    requires CanRun(Init(), acts) && OnSlot(S.CancelLoad(caller)) in acts
    requires Quiescent(Exec(Init(), acts)) && Exec(Init(), acts).join.last.Some?
    ensures var s := Exec(Init(), acts);
            if s.future then s.driver.Parked? && (s.polls == 0 || TaskWoken(s))
            else s.join.last.value in s.join.woken
  {
    AtRest(acts);
    CancelCompleted(acts, caller);
  }

  /** The same for the task alone: after a cancel, the latest poll's waker, and no older one. */
  lemma NoLostCancelWakeup(acts: seq<Action>)
    requires CanRun(Init(), acts)
    ensures var s := Exec(Init(), acts);
            s.slot.slot.CANCELLED? && s.driver.Parked? && s.future && s.polls > 0 ==>
              && s.current.Some? && s.current.value.poll == s.polls - 1
              && (s.slot.woken == [s.current.value]
                  || exists p <- S.InWinner(s.slot) :: Heap.Content(s.slot.memory, p) == s.current)
  {
    Reachable(acts);
    SlotProjection(Init(), acts);
    ST.LatestWakerReached(SlotRun(acts));
  }

  /** No poll can return Pending any more: an unfinished task is parked only as it was. */
  predicate Doomed(s: State, polls: int, pendings: nat) {
    && s.slot.slot.CANCELLED? && !s.slot.update.UpdateAccepted?
    && s.pendings == pendings
    && (s.driver.Parked? && s.future ==> s.polls == polls)
  }

  lemma DoomedStep(s: State, polls: int, pendings: nat, a: Action)
    requires Inv(s) && Doomed(s, polls, pendings) && Enabled(s, a)
    ensures Doomed(Apply(s, a), polls, pendings)
  {
    StepProjects(s, a);
  }

  lemma {:induction false} StaysDoomed(s: State, polls: int, pendings: nat, acts: seq<Action>)
    requires Inv(s) && Doomed(s, polls, pendings) && CanRun(s, acts)
    ensures Inv(Exec(s, acts)) && Doomed(Exec(s, acts), polls, pendings)
    decreases acts
  {
    if acts == [] {
    } else {
      InvPreserved(s, acts[0]);
      DoomedStep(s, polls, pendings, acts[0]);
      StaysDoomed(Apply(s, acts[0]), polls, pendings, acts[1..]);
    }
  }

  /**
    Once the slot is CANCELLED, a poll that has not passed its compare-exchange never
    returns Pending, and the first poll to complete leaves the task finished.
  */
  lemma PollAfterCancelFinishes(before: seq<Action>, acts: seq<Action>)
    requires CanRun(Init(), before) && CanRun(Exec(Init(), before), acts)
    requires var s := Exec(Init(), before); s.slot.slot.CANCELLED? && !s.slot.update.UpdateAccepted?
    ensures var s := Exec(Init(), before);
            var t := Exec(s, acts);
            && t.pendings == s.pendings
            && (t.driver.Parked? && (t.polls > s.polls || !s.driver.Parked?) ==> !t.future)
  {
    var s := Exec(Init(), before);
    Reachable(before);
    StaysDoomed(s, if s.driver.Parked? then s.polls else -1, s.pendings, acts);
  }

  /** A cancelled task that was between polls, and everything it can become. */
  predicate CancelledAtRest(s: State) {
    && s.slot.slot.CANCELLED? && s.produced.None? && !s.driver.Polling? && !s.driver.Registering?
    && !s.driver.Updating?
    && (s.driver.Finishing? ==> s.driver.outcome.Cancelled?)
    && (s.join.given.Some? ==> s.join.given.value.Cancelled?)
  }

  lemma CancelledAtRestStep(s: State, a: Action)
    requires Inv(s) && CancelledAtRest(s) && Enabled(s, a)
    ensures CancelledAtRest(Apply(s, a))
  {
    StepProjects(s, a);
    if a.OnJoin? {
      J.Frame(s.join, a.join);
    }
  }

  /**
    A cancel that lands between polls wins for good: the inner future is never polled
    again, and the only outcome the task can ever have is Cancelled.
  */
  lemma {:induction false} CancelBetweenPollsWins(s: State, acts: seq<Action>)
    requires Inv(s) && CancelledAtRest(s) && CanRun(s, acts)
    ensures CancelledAtRest(Exec(s, acts))
    decreases acts
  {
    if acts == [] {
    } else {
      CancelledAtRestStep(s, acts[0]);
      InvPreserved(s, acts[0]);
      CancelBetweenPollsWins(Apply(s, acts[0]), acts[1..]);
    }
  }

  /**
    A cancel reaches the joiner: if the task was unfinished and at rest after one, then at
    the next rest by which the executor has polled it once more, or begun to drop it, the
    task is over as Cancelled and a joiner parked then has been woken.
  */
  lemma CancelReachesJoiner(before: seq<Action>, caller: S.Caller, acts: seq<Action>)
    requires CanRun(Init(), before) && OnSlot(S.CancelLoad(caller)) in before
    requires CanRun(Exec(Init(), before), acts)
    requires Quiescent(Exec(Init(), before)) && Exec(Init(), before).future
    requires Quiescent(Exec(Exec(Init(), before), acts))
    requires var s := Exec(Init(), before); var t := Exec(s, acts); t.polls > s.polls || t.dropping
    ensures var t := Exec(Exec(Init(), before), acts);
            && !t.future && t.join.given == Some(Outcome.Cancelled)
            && (t.join.last.Some? ==> t.join.last.value in t.join.woken)
  {
    var s := Exec(Init(), before);
    Reachable(before);
    CancelCompleted(before, caller);
    PollAfterCancelFinishes(before, acts);
    CancelBetweenPollsWins(s, acts);
    InvAlong(s, acts);
  }

  // ----- Outcomes ---------------------------------------------------------------------------

  /**
    The joiner gets Ok or Panicked only from the inner future, and Cancelled only from a
    task that was cancelled or dropped before its inner future ended.
  */
  lemma OutcomeProvenance(acts: seq<Action>, outcome: Outcome)
    requires CanRun(Init(), acts) && outcome in Exec(Init(), acts).join.delivered
    ensures var s := Exec(Init(), acts);
            && (outcome.Cancelled? ==> s.produced.None? && (s.slot.slot.CANCELLED? || s.dropping))
            && (!outcome.Cancelled? ==> s.produced == Some(outcome))
  {
    Reachable(acts);
  }

  lemma {:induction false} JoinRunHas(s: State, acts: seq<Action>, a: J.Action)
    requires CanRun(s, acts) && a in JoinRun(s, acts) && !a.WakeCall?
    ensures OnJoin(a) in acts
    decreases acts
  {
    if a !in JoinPart(s, acts[0]) {
      JoinRunHas(Apply(s, acts[0]), acts[1..], a);
    }
  }

  /**
    A task that is over, finished or dropped, has left its live and unjoined handle an
    outcome, and the first poll to complete from then on returns it.
  */
  lemma FinishedTaskIsJoined(before: seq<Action>, acts: seq<Action>)
    requires CanRun(Init(), before) && CanRun(Exec(Init(), before), acts)
    requires var s := Exec(Init(), before);
             && !s.future && (s.driver.Parked? || s.driver.Releasing? || s.driver.Gone?)
             && s.join.handle.HandleIdle?
    requires OnJoin(J.DropStore) !in acts
    ensures var s := Exec(Init(), before);
            var t := Exec(s, acts);
            && s.join.given.Some?
            && (t.join.handle.HandleIdle? && t.join.polls > s.join.polls ==>
                  t.join.delivered == [s.join.given.value])
  {
    var s := Exec(Init(), before);
    Reachable(before);
    JoinProjection(s, acts);
    if J.DropStore in JoinRun(s, acts) {
      JoinRunHas(s, acts, J.DropStore);
    }
    JT.PromiseKept(s.join, s.join.polls, JoinRun(s, acts));
  }

  /**
    The inner future is gone before the joiner can see anything, and is never polled after
    it is gone or has ended.
  */
  lemma FutureDroppedFirst(acts: seq<Action>)
    requires CanRun(Init(), acts)
    ensures var s := Exec(Init(), acts);
            && (s.join.result.Finished? || s.join.delivered != [] || s.join.woken != [] ==> !s.future)
            && (s.driver.Polling? ==> s.future && s.produced.None?) && !s.misused
  {
    Reachable(acts);
  }

  function Finishes(acts: seq<Action>): nat {
    if acts == [] then 0 else (if acts[0].TaskFinish? then 1 else 0) + Finishes(acts[1..])
  }

  /** `finish` runs exactly once per task, over every sequence of polls and a drop. */
  lemma {:induction false} FinishCount(s: State, acts: seq<Action>)
    requires Inv(s) && CanRun(s, acts)
    ensures Finishes(acts) == if s.future && !Exec(s, acts).future then 1 else 0
    ensures Exec(s, acts).future ==> s.future
    ensures Exec(s, acts).driver.Gone? ==> !Exec(s, acts).future
    decreases acts
  {
    if acts == [] {
    } else {
      InvPreserved(s, acts[0]);
      FutureStep(s, acts[0]);
      FinishCount(Apply(s, acts[0]), acts[1..]);
    }
  }

  lemma FutureStep(s: State, a: Action)
    requires Inv(s) && Enabled(s, a)
    ensures Apply(s, a).future == (s.future && !a.TaskFinish?)
    ensures a.TaskFinish? ==> s.future
  {
  }

  lemma FinishedExactlyOnce(acts: seq<Action>)
    requires CanRun(Init(), acts)
    ensures Finishes(acts) <= 1
    ensures Exec(Init(), acts).driver.Gone? ==> Finishes(acts) == 1
  {
    FinishCount(Init(), acts);
  }

  // ----- The whole task -------------------------------------------------------------------------

  /** However the task is driven, its result cell behaves as the atomic one. */
  lemma TaskRefinesOneShot(acts: seq<Action>)
    requires CanRun(Init(), acts)
    ensures J.CanRun(J.Init(), JoinRun(Init(), acts))
    ensures var events := JT.History(J.Init(), JoinRun(Init(), acts));
            && J.Inv(Exec(Init(), acts).join)
            && OneShot.CanRun(OneShot.Init(), events)
            && OneShot.Exec(OneShot.Init(), events) == JT.Abs(Exec(Init(), acts).join)
  {
    JoinProjection(Init(), acts);
    JT.JointRefinesOneShot(JoinRun(Init(), acts));
  }

  /** When everybody has let go, every box is freed once and no outcome or waker remains. */
  lemma NothingLeft(acts: seq<Action>)
    requires CanRun(Init(), acts)
    requires var s := Exec(Init(), acts); s.join.handle.HandleGone? && s.driver.Gone? && s.slot.reclaimed
    ensures var s := Exec(Init(), acts);
            && s.join.result.Detached? && s.join.given.Some?
            && s.join.delivered + s.join.dropped == [s.join.given.value]
            && s.slot.memory.live == map[] && !s.slot.memory.fault && s.slot.memory.allocs <= 2
            && forall k: nat :: k < s.slot.memory.allocs <==> k in s.slot.memory.freed
  {
    Reachable(acts);
    JoinProjection(Init(), acts);
    SlotProjection(Init(), acts);
    JT.DetachedInTheEnd(JoinRun(Init(), acts));
    JT.OutcomeConserved(JoinRun(Init(), acts));
    ST.FreedExactlyOnce(SlotRun(acts));
  }
}
