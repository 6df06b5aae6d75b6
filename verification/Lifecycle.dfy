/**
  One spawned task: `TaskFuture` driving the inner future, the result cell it shares with
  the `JoinHandle`, and the cancellation slot it shares with every handle.
*/
module Lifecycle {
  import opened Base
  import J = JoinCell
  import S = WakerSlot
  import Heap

  /** What one poll of the inner future comes to. */
  datatype InnerPoll = Pending | Ready(value: Value) | Panic(payload: Payload)

  /** Where the executor is inside `TaskFuture::{poll, finish, drop}`. */
  datatype Driver =
    | Parked                             // between polls
    | Checking(reg: Registration)        // about to call `is_cancelled`
    | Polling(reg: Registration)         // inside the inner future
    | Registering(reg: Registration)     // the inner future is pending, about to box the waker
    | Updating                           // inside `Cancellation::update`
    | Finishing(outcome: Outcome)        // about to drop the inner future
    | Waking                             // inside `Joint::wake`
    | Releasing                          // dropped, its fields still to go
    | Gone

  datatype State = State(
    join: J.State,
    slot: S.State,
    driver: Driver,
    future: bool,                   // `TaskFuture::future` is Some
    dropping: bool,                 // `TaskFuture::drop` has begun
    // history
    polls: nat,                     // calls of `TaskFuture::poll`
    current: Option<Registration>,  // of the latest one
    pendings: nat,                  // how many of them returned Pending
    produced: Option<Outcome>,      // what the inner future ended with
    misused: bool)                  // the inner future was polled when gone or ended

  datatype Action =
    | TaskPoll(waker: Waker)
    | TaskCheck
    | InnerReturn(result: InnerPoll)
    | TaskFinish
    | TaskDrop
    | OnJoin(join: J.Action)
    | OnSlot(slot: S.Action)

  function Init(): State {
    State(J.Init(), S.Init(), Parked, true, false, 0, None, 0, None, false)
  }

  predicate OfUpdate(a: S.Action) {
    a.UpdateLoad? || a.UpdateTry? || a.UpdateEnd?
  }

  predicate Enabled(s: State, a: Action) {
    match a
    case TaskPoll(_) => s.driver.Parked?
    case TaskCheck => s.driver.Checking?
    case InnerReturn(_) => s.driver.Polling?
    case TaskFinish => s.driver.Finishing? && J.Enabled(s.join, J.WakeCall(s.driver.outcome))
    case TaskDrop => s.driver.Parked?
    case OnJoin(join) =>
      && J.Enabled(s.join, join) && !join.WakeCall?
      && (J.ByHandle(join) || s.driver.Waking?)
    case OnSlot(slot) =>
      && S.Enabled(s.slot, slot)
      && (OfUpdate(slot) ==> s.driver.Updating?)
      && match slot
         case MakeBox(reg, _) => s.driver == Registering(reg)
         case TaskRelease => s.driver.Releasing?
         case Release(caller) => caller == S.JOINER ==> s.join.handle.HandleGone?
         case _ => true
  }

  function Apply(s: State, a: Action): State
    requires Enabled(s, a)
  {
    match a
    case TaskPoll(waker) =>
      var reg := Registration(waker, s.polls);
      s.(polls := s.polls + 1, current := Some(reg), driver := if s.future then Checking(reg) else Parked)
    case TaskCheck =>
      if s.slot.slot.CANCELLED? then s.(driver := Finishing(Outcome.Cancelled))
      else s.(driver := Polling(s.driver.reg), misused := s.misused || !s.future || s.produced.Some?)
    case InnerReturn(result) =>
      match result {
        case Pending => s.(driver := Registering(s.driver.reg))
        case Ready(value) => s.(driver := Finishing(Ok(value)), produced := Some(Ok(value)))
        case Panic(payload) => s.(driver := Finishing(Panicked(payload)), produced := Some(Panicked(payload)))
      }
    case TaskFinish =>
      s.(driver := Waking, future := false, join := J.Apply(s.join, J.WakeCall(s.driver.outcome)))
    case TaskDrop =>
      s.(dropping := true, driver := if s.future then Finishing(Outcome.Cancelled) else Releasing)
    case OnJoin(join) => AfterJoin(s.(join := J.Apply(s.join, join)))
    case OnSlot(slot) =>
      var t := s.(slot := S.Apply(s.slot, slot));
      match slot {
        case MakeBox(_, _) => t.(driver := Updating)
        case UpdateTry => if t.slot.update.UpdateRejected? then t.(driver := Finishing(Outcome.Cancelled)) else t
        case UpdateEnd => t.(driver := Parked, pendings := s.pendings + 1)
        case TaskRelease => t.(driver := Gone)
        case _ => t
      }
  }

  /** `finish` returns when `wake` does: to `poll`, or to `drop`. */
  function AfterJoin(s: State): State {
    if s.driver.Waking? && (s.join.task.WakeSkipped? || s.join.task.WakeReturned? || s.join.task.WakeBroken?)
    then s.(driver := if s.dropping then Releasing else Parked)
    else s
  }

  predicate CanRun(s: State, acts: seq<Action>)
    decreases acts
  {
    acts == [] || (Enabled(s, acts[0]) && CanRun(Apply(s, acts[0]), acts[1..]))
  }

  function Exec(s: State, acts: seq<Action>): State
    requires CanRun(s, acts)
    decreases acts
  {
    if acts == [] then s else Exec(Apply(s, acts[0]), acts[1..])
  }

  lemma {:induction false} RunsJoin(s: State, first: seq<Action>, second: seq<Action>)
    requires CanRun(s, first) && CanRun(Exec(s, first), second)
    ensures CanRun(s, first + second) && Exec(s, first + second) == Exec(Exec(s, first), second)
    decreases first
  {
    if first == [] {
      assert first + second == second;
    } else {
      assert (first + second)[1..] == first[1..] + second;
      RunsJoin(Apply(s, first[0]), first[1..], second);
    }
  }

  // ----- Projections -----------------------------------------------------------------------

  /** The step of the result cell that a step of the task contains, if any. */
  function JoinPart(s: State, a: Action): seq<J.Action>
    requires Enabled(s, a)
  {
    match a
    case TaskFinish => [J.WakeCall(s.driver.outcome)]
    case OnJoin(join) => [join]
    case _ => []
  }

  function SlotPart(a: Action): seq<S.Action> {
    if a.OnSlot? then [a.slot] else []
  }

  function JoinRun(s: State, acts: seq<Action>): seq<J.Action>
    requires CanRun(s, acts)
    decreases acts
  {
    if acts == [] then [] else JoinPart(s, acts[0]) + JoinRun(Apply(s, acts[0]), acts[1..])
  }

  function SlotRun(acts: seq<Action>): seq<S.Action> {
    if acts == [] then [] else SlotPart(acts[0]) + SlotRun(acts[1..])
  }

  lemma StepProjects(s: State, a: Action)
    requires Enabled(s, a)
    ensures var part := JoinPart(s, a);
            && |part| <= 1
            && if part == [] then Apply(s, a).join == s.join
               else J.Enabled(s.join, part[0]) && Apply(s, a).join == J.Apply(s.join, part[0])
    ensures var part := SlotPart(a);
            && |part| <= 1
            && if part == [] then Apply(s, a).slot == s.slot
               else S.Enabled(s.slot, part[0]) && Apply(s, a).slot == S.Apply(s.slot, part[0])
  {
  }

  /** A run of the task is a run of the result cell... */
  lemma {:induction false} JoinProjection(s: State, acts: seq<Action>)
    requires CanRun(s, acts)
    ensures J.CanRun(s.join, JoinRun(s, acts))
    ensures J.Exec(s.join, JoinRun(s, acts)) == Exec(s, acts).join
    decreases acts
  {
    if acts == [] {
    } else {
      var t := Apply(s, acts[0]);
      StepProjects(s, acts[0]);
      JoinProjection(t, acts[1..]);
      J.RunInFront(s.join, JoinPart(s, acts[0]), t.join, JoinRun(t, acts[1..]));
    }
  }

  /** ... and a run of the slot, so what holds of them alone holds of them here. */
  lemma {:induction false} SlotProjection(s: State, acts: seq<Action>)
    requires CanRun(s, acts)
    ensures S.CanRun(s.slot, SlotRun(acts))
    ensures S.Exec(s.slot, SlotRun(acts)) == Exec(s, acts).slot
    decreases acts
  {
    if acts == [] {
    } else {
      var t := Apply(s, acts[0]);
      StepProjects(s, acts[0]);
      SlotProjection(t, acts[1..]);
      S.RunInFront(s.slot, SlotPart(acts[0]), t.slot, SlotRun(acts[1..]));
    }
  }

  // ----- Invariant -------------------------------------------------------------------------

  predicate MidPoll(s: State) {
    s.driver.Checking? || s.driver.Polling? || s.driver.Registering? || s.driver.Updating?
  }

  /** The driver's position agrees with the machines it drives. */
  predicate DriverOk(s: State) {
    && (s.future <==> s.join.task.WakeIdle?)
    && (MidPoll(s) || s.driver.Finishing? ==> s.future)
    && (s.driver.Waking? || s.driver.Releasing? || s.driver.Gone? ==> !s.future)
    && (s.driver.Waking? <==>
          s.join.task.WakeEntered? || s.join.task.WakeChecked?
          || s.join.task.WakeSwapped? || s.join.task.WakeStored?)
    && (s.driver.Updating? <==>
          s.slot.update.UpdateEntered? || s.slot.update.UpdateLoaded? || s.slot.update.UpdateAccepted?)
    && (s.slot.update.UpdateRejected? && s.future ==> s.driver == Finishing(Outcome.Cancelled))
    && (s.slot.taskHolds <==> !s.driver.Gone?)
    && (s.dropping ==>
          s.driver == Finishing(Outcome.Cancelled) || s.driver.Waking? || s.driver.Releasing? || s.driver.Gone?)
    && (s.driver.Releasing? || s.driver.Gone? ==> s.dropping)
    && (S.JOINER in s.slot.calls || s.join.handle.HandleGone?)
  }

  /** The waker of the latest poll is the one registered, or on its way. */
  predicate RegistrationOk(s: State) {
    && (s.current.Some? <==> s.polls > 0)
    && (s.current.Some? ==> s.current.value.poll == s.polls - 1)
    && (s.driver.Checking? || s.driver.Polling? || s.driver.Registering? ==> s.current == Some(s.driver.reg))
    && (s.slot.update.UpdateEntered? || s.slot.update.UpdateLoaded? ==>
          s.current.Some? && Heap.Content(s.slot.memory, s.slot.update.mine) == s.current)
    && (s.slot.update.UpdateAccepted? ==> s.slot.stored == s.current)
    && (s.driver.Parked? && s.future ==> s.slot.stored == s.current)
  }

  /** Where an outcome may come from. */
  predicate Justified(s: State, outcome: Outcome) {
    match outcome
    case Cancelled => s.produced.None? && (s.slot.slot.CANCELLED? || s.dropping)
    case _ => s.produced == Some(outcome)
  }

  predicate OutcomeOk(s: State) {
    && (s.driver.Finishing? ==> Justified(s, s.driver.outcome))
    && (s.join.given.Some? ==> Justified(s, s.join.given.value))
    && (s.produced.Some? ==> s.driver.Finishing? || !s.future)
    && !s.misused
  }

  predicate Inv(s: State) {
    J.Inv(s.join) && S.Inv(s.slot) && DriverOk(s) && RegistrationOk(s) && OutcomeOk(s)
  }

  lemma PartsKeep(s: State, a: Action)
    requires J.Inv(s.join) && S.Inv(s.slot) && Enabled(s, a)
    ensures J.Inv(Apply(s, a).join) && S.Inv(Apply(s, a).slot)
  {
    StepProjects(s, a);
    if JoinPart(s, a) != [] {
      J.InvPreserved(s.join, JoinPart(s, a)[0]);
    }
    if SlotPart(a) != [] {
      S.InvPreserved(s.slot, SlotPart(a)[0]);
    }
  }

  lemma OwnStepKeeps(s: State, a: Action)
    requires Inv(s) && Enabled(s, a) && !a.OnJoin? && !a.OnSlot?
    ensures DriverOk(Apply(s, a)) && RegistrationOk(Apply(s, a)) && OutcomeOk(Apply(s, a))
  {
  }

  lemma JoinStepKeeps(s: State, a: J.Action)
    requires Inv(s) && Enabled(s, OnJoin(a))
    ensures var t := Apply(s, OnJoin(a)); DriverOk(t) && RegistrationOk(t) && OutcomeOk(t)
  {
    J.Frame(s.join, a);
    AfterJoinKeeps(s, J.Apply(s.join, a));
  }

  lemma AfterJoinKeeps(s: State, join: J.State)
    requires DriverOk(s) && RegistrationOk(s) && OutcomeOk(s)
    requires join.given == s.join.given && (s.join.handle.HandleGone? ==> join.handle.HandleGone?)
    requires join.task == s.join.task || (s.driver.Waking? && !join.task.WakeIdle?)
    ensures var t := AfterJoin(s.(join := join)); DriverOk(t) && RegistrationOk(t) && OutcomeOk(t)
  {
  }

  lemma TaskSlotStepKeeps(s: State, a: S.Action)
    requires Inv(s) && Enabled(s, OnSlot(a)) && (a.MakeBox? || OfUpdate(a) || a.TaskRelease?)
    ensures var t := Apply(s, OnSlot(a)); DriverOk(t) && RegistrationOk(t) && OutcomeOk(t)
  {
  }

  lemma HolderSlotStepKeeps(s: State, a: S.Action)
    requires Inv(s) && Enabled(s, OnSlot(a)) && !(a.MakeBox? || OfUpdate(a) || a.TaskRelease?)
    ensures var t := Apply(s, OnSlot(a)); DriverOk(t) && RegistrationOk(t) && OutcomeOk(t)
  {
    S.HolderFrame(s.slot, a);
    AfterHolderKeeps(s, S.Apply(s.slot, a));
  }

  lemma AfterHolderKeeps(s: State, slot: S.State)
    requires DriverOk(s) && RegistrationOk(s) && OutcomeOk(s)
    requires slot.update == s.slot.update && slot.taskHolds == s.slot.taskHolds && slot.stored == s.slot.stored
    requires s.slot.slot.CANCELLED? ==> slot.slot.CANCELLED?
    requires S.JOINER in s.slot.calls && !s.join.handle.HandleGone? ==> S.JOINER in slot.calls
    requires s.slot.update.UpdateEntered? || s.slot.update.UpdateLoaded? ==>
               Heap.Content(slot.memory, s.slot.update.mine) == Heap.Content(s.slot.memory, s.slot.update.mine)
    ensures var t := s.(slot := slot); DriverOk(t) && RegistrationOk(t) && OutcomeOk(t)
  {
  }

  lemma InvPreserved(s: State, a: Action)
    requires Inv(s) && Enabled(s, a)
    ensures Inv(Apply(s, a))
  {
    PartsKeep(s, a);
    match a
    case OnJoin(join) => JoinStepKeeps(s, join);
    case OnSlot(slot) =>
      if slot.MakeBox? || OfUpdate(slot) || slot.TaskRelease? {
        TaskSlotStepKeeps(s, slot);
      } else {
        HolderSlotStepKeeps(s, slot);
      }
    case _ => OwnStepKeeps(s, a);
  }

  lemma {:induction false} InvAlong(s: State, acts: seq<Action>)
    requires Inv(s) && CanRun(s, acts)
    ensures Inv(Exec(s, acts))
    decreases acts
  {
    if acts == [] {
    } else {
      InvPreserved(s, acts[0]);
      InvAlong(Apply(s, acts[0]), acts[1..]);
    }
  }
}
