/**
  Everything in flight on a task comes to rest: however the calls of the executor, the
  joiner and the cancellers interleave, without new calls they take a bounded number of
  steps, and then all of them have returned.
*/
module LifecycleProgress {
  import opened Base
  import opened Lifecycle
  import LT = LifecycleTheorems
  import J = JoinCell
  import S = WakerSlot
  import SP = SlotProgress
  import Heap

  /** The steps that carry on a call already begun. The inner future's poll is taken to return. */
  predicate CarriesOn(a: Action) {
    match a
    case TaskPoll(_) => false
    case TaskDrop => false
    case OnJoin(join) => !join.PollCall? && !join.DropStore?
    case OnSlot(slot) => SP.CarriesOn(slot) || slot.MakeBox? || slot.TaskRelease?
    case _ => true
  }

  function WakeRank(task: J.TaskPc): nat {
    match task
    case WakeEntered(_) => 4
    case WakeChecked(_) => 3
    case WakeSwapped(_) => 2
    case WakeStored(_) => 1
    case _ => 0
  }

  function HandleRank(handle: J.HandlePc): nat {
    match handle
    case PollEntered(_) => 3
    case PollFast(_) => 2
    case PollSlow(_) => 2
    case PollFastSwapped(_, _) => 1
    case PollSlowSwapped(_, _) => 1
    case DropStored => 1
    case _ => 0
  }

  /** A poll may yet enter `update`, whose work depends on how many callers there are. */
  function DriverRank(driver: Driver, callers: nat): nat {
    match driver
    case Checking(_) => callers + 17
    case Polling(_) => callers + 16
    case Registering(_) => callers + 15
    case Updating => 8
    case Finishing(_) => 7
    case Waking => 2
    case Releasing => 1
    case _ => 0
  }

  ghost function Rank(s: State): nat {
    SP.Work(s.slot) + DriverRank(s.driver, |s.slot.calls|) + WakeRank(s.join.task) + HandleRank(s.join.handle)
  }

  lemma CellStepPays(j: J.State, a: J.Action)
    requires J.Enabled(j, a) && !a.WakeCall? && !a.PollCall? && !a.DropStore?
    ensures var t := J.Apply(j, a);
            WakeRank(t.task) + HandleRank(t.handle) < WakeRank(j.task) + HandleRank(j.handle)
  {
  }

  lemma AfterJoinPays(s: State, join: J.State)
    requires WakeRank(join.task) + HandleRank(join.handle) < WakeRank(s.join.task) + HandleRank(s.join.handle)
    ensures Rank(AfterJoin(s.(join := join))) < Rank(s)
  {
  }

  lemma CancelStepPays(s: State, a: S.Action)
    requires Enabled(s, OnSlot(a)) && (a.CancelTry? || a.CancelEnd?)
    ensures Rank(Apply(s, OnSlot(a))) < Rank(s)
  {
    assert S.Apply(s.slot, a).calls.Keys == s.slot.calls.Keys;
    match a
    case CancelTry(caller) => SP.CancelTryPays(s.slot, caller);
    case CancelEnd(caller) => SP.CancelEndPays(s.slot, caller);
  }

  lemma UpdateStepDrives(s: State, a: S.Action)
    requires Enabled(s, OnSlot(a)) && OfUpdate(a)
    ensures var t := Apply(s, OnSlot(a));
            && t.slot == S.Apply(s.slot, a) && t.join == s.join
            && DriverRank(t.driver, |t.slot.calls|) <= DriverRank(s.driver, |s.slot.calls|)
  {
  }

  lemma UpdateStepPays(s: State, a: S.Action)
    requires Enabled(s, OnSlot(a)) && OfUpdate(a)
    ensures Rank(Apply(s, OnSlot(a))) < Rank(s)
  {
    UpdateStepDrives(s, a);
    SP.UpdateStepPays(s.slot, a);
  }

  lemma BoxStepPays(s: State, a: S.Action)
    requires Enabled(s, OnSlot(a)) && (a.MakeBox? || a.TaskRelease?)
    ensures Rank(Apply(s, OnSlot(a))) < Rank(s)
  {
  }

  lemma FinishPays(s: State)
    requires Enabled(s, TaskFinish)
    ensures Rank(Apply(s, TaskFinish)) < Rank(s)
  {
  }

  lemma OwnStepPays(s: State, a: Action)
    requires Enabled(s, a) && CarriesOn(a) && !a.OnJoin? && !a.OnSlot?
    ensures Rank(Apply(s, a)) < Rank(s)
  {
    if a.TaskFinish? {
      FinishPays(s);
    } else {
      assert Apply(s, a).slot == s.slot && Apply(s, a).join == s.join;
    }
  }

  lemma StepPays(s: State, a: Action)
    requires Enabled(s, a) && CarriesOn(a)
    ensures Rank(Apply(s, a)) < Rank(s)
  {
    match a
    case OnJoin(join) =>
      CellStepPays(s.join, join);
      AfterJoinPays(s, J.Apply(s.join, join));
    case OnSlot(slot) =>
      if slot.CancelTry? || slot.CancelEnd? {
        CancelStepPays(s, slot);
      } else if OfUpdate(slot) {
        UpdateStepPays(s, slot);
      } else {
        BoxStepPays(s, slot);
      }
    case _ => OwnStepPays(s, a);
  }

  /** No interleaving of everything in flight is longer than its rank. */
  lemma {:induction false} CallsEnd(s: State, acts: seq<Action>)
    requires CanRun(s, acts) && forall a <- acts :: CarriesOn(a)
    ensures |acts| + Rank(Exec(s, acts)) <= Rank(s)
    decreases acts
  {
    if acts == [] {
    } else {
      assert acts[0] in acts;
      StepPays(s, acts[0]);
      CallsEnd(Apply(s, acts[0]), acts[1..]);
    }
  }

  ghost predicate NothingToCarryOn(s: State) {
    forall a :: CarriesOn(a) ==> !Enabled(s, a)
  }

  /** Nobody is inside a call, whatever has become of the handle. */
  predicate AllReturned(s: State) {
    && (s.driver.Parked? || s.driver.Gone?)
    && HandleRank(s.join.handle) == 0
    && forall c <- s.slot.calls :: s.slot.calls[c].CancelIdle?
  }

  /** Whoever is inside a call can take its next step. */
  lemma DriverCanMove(s: State) returns (a: Action)
    requires Inv(s) && !s.driver.Parked? && !s.driver.Gone?
    ensures CarriesOn(a) && Enabled(s, a)
  {
    match s.driver
    case Checking(_) => a := TaskCheck;
    case Polling(_) => a := InnerReturn(InnerPoll.Pending);
    case Registering(reg) =>
      var bound := Heap.FreshAddress(s.slot.memory.live.Keys);
      assert bound !in s.slot.memory.live;
      a := OnSlot(S.MakeBox(reg, if s.slot.kept.Some? then s.slot.kept.value else bound));
    case Updating =>
      a := OnSlot(if s.slot.update.UpdateEntered? then S.UpdateLoad
                  else if s.slot.update.UpdateLoaded? then S.UpdateTry
                  else S.UpdateEnd);
    case Finishing(_) => a := TaskFinish;
    case Waking =>
      a := OnJoin(if s.join.task.WakeEntered? then J.WakeLoad(s.join.taskView)
                  else if s.join.task.WakeChecked? then J.WakeSwap
                  else if s.join.task.WakeSwapped? then J.WakeStore
                  else J.WakeEnd);
    case Releasing => a := OnSlot(S.TaskRelease);
  }

  lemma HandleCanMove(s: State) returns (a: Action)
    requires Inv(s) && HandleRank(s.join.handle) > 0
    ensures CarriesOn(a) && Enabled(s, a)
  {
    a := OnJoin(if s.join.handle.PollEntered? then J.PollLoad(s.join.handleView)
                else if s.join.handle.PollFast? || s.join.handle.PollSlow? then J.PollSwap
                else if s.join.handle.DropStored? then J.DropOverwrite
                else J.PollEnd);
  }

  lemma CallerCanMove(s: State, caller: S.Caller) returns (a: Action)
    requires caller in s.slot.calls && !s.slot.calls[caller].CancelIdle?
    ensures CarriesOn(a) && Enabled(s, a)
  {
    a := OnSlot(if s.slot.calls[caller].CancelLoaded? then S.CancelTry(caller) else S.CancelEnd(caller));
  }

  /** So when nothing can be carried on, everybody has returned; and conversely. */
  lemma RestIff(s: State)
    requires Inv(s)
    ensures NothingToCarryOn(s) <==> AllReturned(s)
  {
    if NothingToCarryOn(s) {
      if !s.driver.Parked? && !s.driver.Gone? {
        var a := DriverCanMove(s);
      }
      if HandleRank(s.join.handle) > 0 {
        var a := HandleCanMove(s);
      }
      forall c <- s.slot.calls ensures s.slot.calls[c].CancelIdle? {
        if !s.slot.calls[c].CancelIdle? {
          var a := CallerCanMove(s, c);
        }
      }
    } else {
      var a :| CarriesOn(a) && Enabled(s, a);
      AtRestNothingMoves(s, a);
    }
  }

  lemma AtRestNothingMoves(s: State, a: Action)
    requires Inv(s) && CarriesOn(a) && Enabled(s, a)
    ensures !AllReturned(s)
  {
  }

  /**
    From any reachable state, whatever is in flight comes to rest within its rank, when it
    is run, in any order, for as long as any of it can move.
  */
  lemma CallsReturn(before: seq<Action>, acts: seq<Action>)
    requires CanRun(Init(), before) && CanRun(Exec(Init(), before), acts)
    requires (forall a <- acts :: CarriesOn(a)) && NothingToCarryOn(Exec(Exec(Init(), before), acts))
    ensures |acts| <= Rank(Exec(Init(), before))
    ensures AllReturned(Exec(Exec(Init(), before), acts))
  {
    var s := Exec(Init(), before);
    LT.Reachable(before);
    InvAlong(s, acts);
    CallsEnd(s, acts);
    RestIff(Exec(s, acts));
  }

  /**
    Nobody hangs, without assuming rest: once a cancel has begun, everything in flight
    returns within a bounded number of steps, and a joiner that is parked then has been
    woken, unless the task is parked with its latest waker woken or was never polled.
  */
  lemma CancelSettles(before: seq<Action>, caller: S.Caller, acts: seq<Action>)
    requires CanRun(Init(), before) && CanRun(Exec(Init(), before), acts)
    requires OnSlot(S.CancelLoad(caller)) in before
    requires (forall a <- acts :: CarriesOn(a)) && NothingToCarryOn(Exec(Exec(Init(), before), acts))
    ensures |acts| <= Rank(Exec(Init(), before))
    ensures var t := Exec(Exec(Init(), before), acts);
            && AllReturned(t)
            && (t.join.last.Some? ==>
                  if t.future then t.driver.Parked? && (t.polls == 0 || LT.TaskWoken(t))
                  else t.join.last.value in t.join.woken)
  {
    var t := Exec(Exec(Init(), before), acts);
    CallsReturn(before, acts);
    RunsJoin(Init(), before, acts);
    if t.join.last.Some? {
      ParkedIsIdle(before + acts);
      LT.NoHang(before + acts, caller);
    }
  }

  lemma ParkedIsIdle(acts: seq<Action>)
    requires CanRun(Init(), acts) && Exec(Init(), acts).join.last.Some?
    ensures Exec(Init(), acts).join.handle.HandleIdle?
  {
    LT.Reachable(acts);
  }

  // ----- Everything can be let go --------------------------------------------------------------

  /** With the task and the handle gone and no call in flight, only references remain to be given back. */
  predicate Abandoned(s: State) {
    s.driver.Gone? && s.join.handle.HandleGone? && forall c <- s.slot.calls :: s.slot.calls[c].CancelIdle?
  }

  predicate GivesBack(a: Action) {
    a.OnSlot? && (a.slot.Release? || a.slot.Reclaim?)
  }

  lemma ReleaseStep(s: State, caller: S.Caller)
    requires Inv(s) && Abandoned(s) && caller in s.slot.calls
    ensures var a := OnSlot(S.Release(caller));
            && Enabled(s, a) && Inv(Apply(s, a)) && Abandoned(Apply(s, a))
            && Apply(s, a).slot.calls.Keys == s.slot.calls.Keys - {caller}
  {
    InvPreserved(s, OnSlot(S.Release(caller)));
  }

  lemma ReclaimStep(s: State)
    requires Inv(s) && Abandoned(s) && s.slot.calls == map[] && !s.slot.reclaimed
    ensures var a := OnSlot(S.Reclaim);
            Enabled(s, a) && Abandoned(Apply(s, a)) && Apply(s, a).slot.reclaimed
  {
  }

  lemma StepInFront(s: State, a: Action, rest: seq<Action>)
    requires Enabled(s, a) && CanRun(Apply(s, a), rest)
    ensures CanRun(s, [a] + rest) && Exec(s, [a] + rest) == Exec(Apply(s, a), rest)
  {
    assert ([a] + rest)[1..] == rest;
  }

  /** Giving them back, in some order, ends with the slot dropped. */
  lemma {:induction false} SlotCanBeReclaimed(s: State) returns (acts: seq<Action>)
    requires Inv(s) && Abandoned(s)
    ensures CanRun(s, acts) && (forall a <- acts :: GivesBack(a))
    ensures Abandoned(Exec(s, acts)) && Exec(s, acts).slot.reclaimed
    decreases |s.slot.calls.Keys|
  {
    if s.slot.reclaimed {
      acts := [];
    } else {
      var a, rest := OnSlot(S.Reclaim), [];
      if s.slot.calls == map[] {
        ReclaimStep(s);
      } else {
        var caller :| caller in s.slot.calls;
        a := OnSlot(S.Release(caller));
        ReleaseStep(s, caller);
        rest := SlotCanBeReclaimed(Apply(s, a));
      }
      StepInFront(s, a, rest);
      acts := [a] + rest;
    }
  }

  /** Whatever is in flight can be run to rest. */
  lemma {:induction false} CanComeToRest(s: State) returns (acts: seq<Action>)
    requires Inv(s)
    ensures CanRun(s, acts) && Inv(Exec(s, acts)) && AllReturned(Exec(s, acts))
    decreases Rank(s)
  {
    RestIff(s);
    if NothingToCarryOn(s) {
      acts := [];
    } else {
      var a :| CarriesOn(a) && Enabled(s, a);
      StepPays(s, a);
      InvPreserved(s, a);
      var rest := CanComeToRest(Apply(s, a));
      acts := [a] + rest;
    }
  }

  lemma {:induction false} DroppingStays(s: State, acts: seq<Action>)
    requires s.dropping && CanRun(s, acts)
    ensures Exec(s, acts).dropping
    decreases acts
  {
    if acts == [] {
    } else {
      DroppingStays(Apply(s, acts[0]), acts[1..]);
    }
  }

  /** The executor can drop the task... */
  lemma TaskCanGo(s: State) returns (acts: seq<Action>)
    requires Inv(s)
    ensures CanRun(s, acts) && Inv(Exec(s, acts)) && AllReturned(Exec(s, acts)) && Exec(s, acts).driver.Gone?
  {
    acts := CanComeToRest(s);
    var t := Exec(s, acts);
    if t.driver.Parked? {
      var u := Apply(t, TaskDrop);
      InvPreserved(t, TaskDrop);
      var rest := CanComeToRest(u);
      DroppingStays(u, rest);
      assert ([TaskDrop] + rest)[1..] == rest;
      RunsJoin(s, acts, [TaskDrop] + rest);
      acts := acts + ([TaskDrop] + rest);
    }
  }

  lemma TwoSteps(s: State, a: Action, b: Action)
    requires Enabled(s, a) && Enabled(Apply(s, a), b)
    ensures CanRun(s, [a, b]) && Exec(s, [a, b]) == Apply(Apply(s, a), b)
  {
    StepInFront(Apply(s, a), b, []);
    StepInFront(s, a, [b] + []);
    assert [a, b] == [a] + ([b] + []);
  }

  /** ... and then the owner of the handle can drop that. */
  lemma HandleCanGo(s: State) returns (acts: seq<Action>)
    requires Inv(s) && AllReturned(s) && s.driver.Gone?
    ensures CanRun(s, acts) && Inv(Exec(s, acts)) && Abandoned(Exec(s, acts))
  {
    if s.join.handle.HandleGone? {
      acts := [];
    } else {
      var store, overwrite := OnJoin(J.DropStore), OnJoin(J.DropOverwrite);
      acts := [store, overwrite];
      InvPreserved(s, store);
      InvPreserved(Apply(s, store), overwrite);
      TwoSteps(s, store, overwrite);
    }
  }

  /**
    From any reachable state the task can be wound up: by a drop of the task, one of the
    handle and the release of every other reference, after which every box is freed, and
    the outcome delivered or destroyed (`NothingLeft`).
  */
  lemma CanBeWoundUp(before: seq<Action>) returns (acts: seq<Action>)
    requires CanRun(Init(), before)
    ensures CanRun(Exec(Init(), before), acts)
    ensures var s := Exec(Exec(Init(), before), acts);
            && s.join.handle.HandleGone? && s.driver.Gone? && s.slot.reclaimed
            && s.slot.memory.live == map[] && s.join.result.Detached?
  {
    var s := Exec(Init(), before);
    LT.Reachable(before);
    var first := TaskCanGo(s);
    var second := HandleCanGo(Exec(s, first));
    var third := SlotCanBeReclaimed(Exec(Exec(s, first), second));
    RunsJoin(s, first, second);
    RunsJoin(s, first + second, third);
    acts := first + second + third;
    RunsJoin(Init(), before, acts);
    LT.NothingLeft(before + acts);
  }
}
