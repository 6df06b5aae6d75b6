/**
  The methods of `task.rs` as they are written, each run to its end while every other user
  of the task interferes between its atomic steps. A call appends its own steps and the
  interfering ones to `trace`, which stays a run of the lifecycle machine: what holds of
  all runs holds here, and the program points of the machine are those of the methods.
*/
module TaskMethods {
  import opened Base
  import opened Lifecycle
  import opened Interference
  import J = JoinCell
  import JT = JoinTheorems
  import S = WakerSlot
  import ST = SlotTheorems
  import Heap

  /** `Poll<Result<T, JoinError>>`, or the panic on a handle that was already joined. */
  datatype JoinPoll = Pending | Ready(outcome: Outcome) | AlreadyJoined

  // ----- What the invariant says -------------------------------------------------------------

  /** What the invariant says at the program points of `cancel`. */
  lemma CancelFacts(acts: seq<Action>, caller: S.Caller)
    requires CanRun(Init(), acts) && caller in Exec(Init(), acts).slot.calls
    ensures var s := Exec(Init(), acts).slot;
            match s.calls[caller]
            case CancelIdle => true
            case CancelLoaded(current, failures, since) =>
              && since <= s.updates && failures <= s.updates - since + 1
              && (current == s.slot || s.slot.CANCELLED? || failures <= s.updates - since)
              && (current.CANCELLED? ==> s.slot.CANCELLED?)
            case CancelWon(_) => s.slot.CANCELLED?
  {
    InvAlong(Init(), acts);
  }

  lemma ReclaimFacts(acts: seq<Action>)
    requires CanRun(Init(), acts) && Exec(Init(), acts).slot.reclaimed
    ensures Exec(Init(), acts).slot.memory.live == map[]
  {
    InvAlong(Init(), acts);
    ST.ReclaimedEmpty(Exec(Init(), acts).slot);
  }

  /** What it says of a winner that has returned. */
  lemma WinnerFacts(acts: seq<Action>, caller: S.Caller)
    requires CanRun(Init(), acts)
    ensures var s := Exec(Init(), acts).slot;
            s.winners == [caller] && (caller in s.calls ==> s.calls[caller].CancelIdle?) ==>
              s.woken == if s.stored.Some? then [s.stored.value] else []
  {
    InvAlong(Init(), acts);
  }

  /** What the invariant says at the program points of `JoinHandle::poll`. */
  lemma HandleFacts(acts: seq<Action>)
    requires CanRun(Init(), acts)
    ensures var s := Exec(Init(), acts).join;
            && s.handleView < |s.stores|
            && (J.Published(s) ==> s.given.Some?)
            && match s.handle
               case HandleIdle => s.delivered != [] ==> J.Published(s) && s.delivered == [s.given.value]
               case PollPanickedJoined => J.Published(s)
               case PollEntered(_) => s.delivered != [] ==> J.Published(s)
               case PollFast(_) =>
                 && J.Published(s)
                 && s.result == if s.delivered == [] then J.JoinResult.Finished(s.given.value) else J.Joined
               case PollSlow(_) =>
                 if s.delivered != [] then s.result.Joined? && J.Published(s)
                 else if J.Published(s) then s.result == J.JoinResult.Finished(s.given.value)
                 else s.result.Empty? || s.result.Joining?
               case PollFastSwapped(_, found) =>
                 && J.Published(s)
                 && found == if s.delivered == [] then J.JoinResult.Finished(s.given.value) else J.Joined
               case PollSlowSwapped(_, found) =>
                 if s.delivered != [] then found.Joined?
                 else if found.Finished? then J.Published(s) && found.outcome == s.given.value
                 else found.Empty? || found.Joining?
               case _ => true
  {
    InvAlong(Init(), acts);
  }

  /** What it says once both sides are through. */
  lemma DropFacts(acts: seq<Action>)
    requires CanRun(Init(), acts)
    ensures var s := Exec(Init(), acts).join;
            s.handle.HandleGone? && (s.task.WakeReturned? || s.task.WakeSkipped?) ==> s.result.Detached?
  {
    JoinProjection(Init(), acts);
    JT.DetachedInTheEnd(JoinRun(Init(), acts));
  }

  /** What the invariant says at the program points of `wake`. */
  lemma WakeFacts(acts: seq<Action>)
    requires CanRun(Init(), acts)
    ensures var s := Exec(Init(), acts);
            && s.join.taskView < |s.join.stores|
            && (s.join.task.WakeSwapped? || s.join.task.WakeStored? ==>
                  !s.join.task.found.Finished? && !s.join.task.found.Joined?)
            && (s.join.task.WakeSkipped? ==> !J.Live(s.join))
            && (s.join.task.WakeSkipped? || s.join.task.WakeReturned? ==>
                  (s.join.last.Some? ==> s.join.last.value in s.join.woken))
  {
    JoinProjection(Init(), acts);
    JT.NoLostJoinWakeup(JoinRun(Init(), acts));
    JT.UnreachableArms(JoinRun(Init(), acts));
    JT.Reachable(JoinRun(Init(), acts));
  }

  /** A load of `stage` touches the task's own position and nothing else. */
  lemma WakeLoadGives(s: State, at: nat)
    requires s.driver.Waking? && Enabled(s, OnJoin(J.WakeLoad(at)))
    ensures var t := Apply(s, OnJoin(J.WakeLoad(at)));
            && t == s.(join := t.join, driver := t.driver)
            && t.join == s.join.(task := t.join.task, taskView := at, dropped := t.join.dropped)
            && if s.join.stores[at] == J.Stage.Running
               then t.driver.Waking? && t.join.task == J.WakeChecked(s.join.task.outcome)
               else t.driver == (if s.dropping then Releasing else Parked) && t.join.task.WakeSkipped?
  {
  }

  /** What it says at those of `finish`, and between polls. */
  lemma FinishFacts(acts: seq<Action>)
    requires CanRun(Init(), acts)
    ensures var s := Exec(Init(), acts);
            && (s.driver.Finishing? ==> s.future && s.join.task.WakeIdle?)
            && (s.driver.Parked? ==> !s.dropping)
  {
    InvAlong(Init(), acts);
  }

  /** What it says at those of `update`. */
  lemma UpdateFacts(acts: seq<Action>)
    requires CanRun(Init(), acts)
    ensures var s := Exec(Init(), acts);
            && (s.driver.Registering? ==> s.slot.taskHolds && s.slot.update.UpdateIdle?)
            && (s.driver.Parked? && s.future ==> s.slot.update.UpdateIdle?)
            && (s.slot.kept.Some? ==> s.slot.kept.value in s.slot.memory.live)
            && (s.slot.update.UpdateEntered? || s.slot.update.UpdateLoaded? ==> MyBox(s) == s.current)
            && (s.slot.update.UpdateLoaded? ==>
                  && s.slot.update.failures <= 1
                  && (s.slot.update.current.CANCELLED? ==> s.slot.slot.CANCELLED?)
                  && (s.slot.update.current == s.slot.slot || s.slot.slot.CANCELLED?)
                  && (s.slot.update.current.CANCELLED? || s.slot.update.failures == 0))
            && (s.slot.update.UpdateRejected? ==> s.slot.slot.CANCELLED?)
            && (s.driver.Releasing? ==>
                  s.slot.taskHolds && (s.slot.update.UpdateIdle? || s.slot.update.UpdateRejected?))
  {
    InvAlong(Init(), acts);
  }

  class Task {
    var state: State
    var environment: seq<seq<Action>>   // what the others will try, turn by turn
    ghost var trace: seq<Action>
    ghost var call: Call                // the one in progress
    ghost var turned: bool              // the others have had a turn since its last step

    ghost predicate Valid()
      reads this
    {
      && CanRun(Init(), trace) && state == Exec(Init(), trace)
      && Accounted(trace, call) && Remains(environment, call.environment)
    }

    constructor (environment: seq<seq<Action>>)
      ensures Valid() && trace == [] && state == Init() && this.environment == environment
    {
      state := Init();
      this.environment := environment;
      trace, turned := [], false;
      call := Call(Executor, {}, [], environment);
    }

    // ----- Calls and turns -----------------------------------------------------------------

    /** This is done inside a call of this actor that is made of such steps. */
    ghost predicate Doing(who: Actor, part: Part)
      reads this
    {
      call.who == who && part in call.parts
    }

    /**
      What was done since the state before is all of these kinds, except for what other
      actors had in store then.
    */
    twostate predicate Took(who: Actor, parts: set<Part>)
      reads this
    {
      Accounted(trace, Call(who, parts, old(trace), old(environment))) && Remains(environment, old(environment))
    }

    ghost method Begin(who: Actor, parts: set<Part>)
      requires Valid()
      modifies this`call
      ensures Valid() && call == Call(who, parts, trace, environment)
    {
      call := Call(who, parts, trace, environment);
    }

    /** Back from a call within a call. */
    ghost method End(outer: Call)
      requires Valid() && Accounted(call.before, outer) && Remains(call.environment, outer.environment)
      requires call.who == outer.who && call.parts <= outer.parts
      modifies this`call
      ensures Valid() && call == outer
    {
      AccountedWithin(trace, outer, call);
      RemainsTwice(environment, call.environment, outer.environment);
      call := outer;
    }

    method Advance(a: Action)
      requires Valid() && Enabled(state, a) && Permitted(a, call)
      modifies this`state, this`trace
      ensures Valid() && state == Apply(old(state), a) && trace == old(trace) + [a]
    {
      RunLonger(Init(), trace, a);
      AccountedLonger(trace, a, call);
      state := Apply(state, a);
      trace := trace + [a];
    }

    /** One atomic step, for which the others must have had a turn since the last one. */
    method Perform(a: Action)
      requires Valid() && turned && Enabled(state, a) && PartOf(a) in call.parts
      modifies this`state, this`trace, this`turned
      ensures Valid() && !turned && state == Apply(old(state), a) && trace == old(trace) + [a]
    {
      turned := false;
      Advance(a);
    }

    /** One step of somebody else, if it is possible. */
    method Intrude(a: Action, who: Actor)
      requires Valid() && who == call.who && Offered(a, call.environment)
      modifies this`state, this`trace
      ensures Valid() && Untouched(old(state), state, who)
      ensures if ActorOf(a) != who && Enabled(old(state), a)
              then state == Apply(old(state), a) && trace == old(trace) + [a]
              else state == old(state) && trace == old(trace)
    {
      if ActorOf(a) != who && Enabled(state, a) {
        InvAlong(Init(), trace);
        StepUntouched(state, a, who);
        Advance(a);
      }
    }

    /** All of a turn that can be done. */
    method TakeTurn(turn: seq<Action>, who: Actor)
      requires Valid() && who == call.who && forall a <- turn :: Offered(a, call.environment)
      modifies this`state, this`trace
      ensures Valid() && Untouched(old(state), state, who)
      ensures trace == old(trace) + Intrusions(old(state), turn, who)
      decreases turn
    {
      if turn != [] {
        Intrude(turn[0], who);
        ghost var between := state;
        TakeTurn(turn[1..], who);
        UntouchedTwice(old(state), between, state, who);
      }
    }

    /** The others' next turn. */
    method Interfere(who: Actor)
      requires Valid() && who == call.who
      modifies this`state, this`trace, this`turned, this`environment
      ensures Valid() && turned && Untouched(old(state), state, who)
      ensures if old(environment) == [] then environment == [] && trace == old(trace) && state == old(state)
              else
                && environment == old(environment)[1..]
                && trace == old(trace) + Intrusions(old(state), old(environment)[0], who)
    {
      turned := true;
      if environment != [] {
        var turn := environment[0];
        RemainsMeans(environment, call.environment);
        environment := environment[1..];
        TakeTurn(turn, who);
      }
    }

    // ----- Cancellation --------------------------------------------------------------------

    ghost predicate InCall(caller: S.Caller, pc: S.CancelPc)
      reads this
    {
      caller in state.slot.calls && state.slot.calls[caller] == pc
    }

    /** This caller made the slot CANCELLED, and has woken the waker that was in it. */
    ghost predicate WonBy(caller: S.Caller)
      reads this
    {
      && state.slot.slot.CANCELLED? && state.slot.winners == [caller]
      && state.slot.woken == if state.slot.stored.Some? then [state.slot.stored.value] else []
    }

    /** Of a call that left the slot CANCELLED, when it was not and nobody else could. */
    twostate lemma WinsAlone(caller: S.Caller)
      requires old(Valid()) && Valid() && Took(ActorFor(caller), {OfCancel(caller)})
      requires NobodyCancels(old(environment)) && !old(state.slot.slot.CANCELLED?)
      requires state.slot.slot.CANCELLED? && InCall(caller, S.CancelIdle)
      ensures WonBy(caller)
    {
      AccountedMeans(trace, Call(ActorFor(caller), {OfCancel(caller)}, old(trace), old(environment)));
      Causes(old(trace), trace);
      WinnerFacts(trace, caller);
    }

    /** The others' next turn, as seen from inside a call of `cancel`. */
    method InterfereInCancel(caller: S.Caller, ghost pc: S.CancelPc)
      requires Valid() && Doing(ActorFor(caller), OfCancel(caller)) && InCall(caller, pc)
      modifies this`state, this`trace, this`turned, this`environment
      ensures Valid() && turned && call == old(call) && InCall(caller, pc)
      ensures old(state.slot.updates) <= state.slot.updates
      ensures caller == S.JOINER ==> state.join.handle == old(state.join.handle)
      ensures if old(environment) == [] then state == old(state) && environment == []
              else environment == old(environment)[1..]
    {
      Interfere(ActorFor(caller));
    }

    /** `self.waker.load`, at the start of `cancel`. */
    method LoadInCancel(caller: S.Caller) returns (current: S.Slot)
      requires Valid() && turned && Doing(ActorFor(caller), OfCancel(caller)) && InCall(caller, S.CancelIdle)
      modifies this`state, this`trace, this`turned
      ensures Valid() && call == old(call) && state.join == old(state.join)
      ensures InCall(caller, S.CancelLoaded(current, 0, state.slot.updates)) && current == state.slot.slot
      ensures state.slot.updates == old(state.slot.updates)
    {
      current := state.slot.slot;
      Perform(OnSlot(S.CancelLoad(caller)));
    }

    /** `self.waker.compare_exchange(current, CANCELLED)`: it returns what it found. */
    method ExchangeInCancel(caller: S.Caller, current: S.Slot, failures: nat, ghost since: nat)
      returns (found: S.Slot)
      requires Valid() && turned && Doing(ActorFor(caller), OfCancel(caller)) && !current.CANCELLED?
      requires InCall(caller, S.CancelLoaded(current, failures, since))
      modifies this`state, this`trace, this`turned
      ensures Valid() && call == old(call) && state.join == old(state.join) && found == old(state.slot.slot)
      ensures state.slot.updates == old(state.slot.updates)
      ensures since <= state.slot.updates && failures <= state.slot.updates - since + 1
      ensures if found == current then state.slot.slot.CANCELLED? && InCall(caller, S.CancelWon(found))
              else state.slot.slot == found && InCall(caller, S.CancelLoaded(found, failures + 1, since))
    {
      CancelFacts(trace, caller);
      found := state.slot.slot;
      Perform(OnSlot(S.CancelTry(caller)));
    }

    /** `return`, having seen CANCELLED. */
    method ReturnFromCancel(caller: S.Caller, failures: nat, ghost since: nat)
      requires Valid() && turned && Doing(ActorFor(caller), OfCancel(caller))
      requires InCall(caller, S.CancelLoaded(S.CANCELLED, failures, since))
      modifies this`state, this`trace, this`turned
      ensures Valid() && call == old(call) && state.join == old(state.join) && InCall(caller, S.CancelIdle)
      ensures state.slot.slot.CANCELLED? && state.slot.updates == old(state.slot.updates)
      ensures failures <= state.slot.updates - since + 1
    {
      CancelFacts(trace, caller);
      Perform(OnSlot(S.CancelTry(caller)));
    }

    /** `waker.wake()`, if the compare-exchange took a box out of the slot. */
    method WakeInCancel(caller: S.Caller, found: S.Slot)
      requires Valid() && turned && Doing(ActorFor(caller), OfCancel(caller)) && InCall(caller, S.CancelWon(found))
      modifies this`state, this`trace, this`turned
      ensures Valid() && call == old(call) && state.join == old(state.join) && InCall(caller, S.CancelIdle)
      ensures state.slot.slot.CANCELLED? && state.slot.updates == old(state.slot.updates)
    {
      CancelFacts(trace, caller);
      Perform(OnSlot(S.CancelEnd(caller)));
    }

    /** The load and the loop of `cancel`. */
    method CancelLoop(caller: S.Caller) returns (failures: nat)
      requires Valid() && Doing(ActorFor(caller), OfCancel(caller)) && InCall(caller, S.CancelIdle)
      modifies this
      ensures Valid() && call == old(call) && InCall(caller, S.CancelIdle)
      ensures state.slot.slot.CANCELLED?
      ensures failures <= state.slot.updates - old(state.slot.updates) + 1
      ensures old(environment) == [] ==> failures == 0
      ensures caller == S.JOINER ==> state.join.handle == old(state.join.handle)
    {
      InterfereInCancel(caller, S.CancelIdle);
      var current := LoadInCancel(caller);
      ghost var since := state.slot.updates;
      failures := 0;
      while true
        invariant Valid() && call == old(call) && old(state.slot.updates) <= since
        invariant InCall(caller, S.CancelLoaded(current, failures, since))
        invariant old(environment) == [] ==> failures == 0 && current == state.slot.slot && environment == []
        invariant caller == S.JOINER ==> state.join.handle == old(state.join.handle)
        decreases |environment|, if current == state.slot.slot then 0 else 1
      {
        InterfereInCancel(caller, S.CancelLoaded(current, failures, since));
        if current.CANCELLED? {
          ReturnFromCancel(caller, failures, since);
          return;
        }
        var found := ExchangeInCancel(caller, current, failures, since);
        if found == current {
          InterfereInCancel(caller, S.CancelWon(current));
          WakeInCancel(caller, current);
          return;
        }
        current := found;
        failures := failures + 1;
      }
    }

    /**
      `Cancellation::cancel`. It loses at most one compare-exchange more than there were
      successful updates meanwhile, and none if left alone; so under any finite interference
      it ends, and leaves the slot CANCELLED. If nobody else can have done it, it did, and
      the waker stored has been woken.
    */
    method Cancel(caller: S.Caller) returns (failures: nat)
      requires Valid() && InCall(caller, S.CancelIdle)
      modifies this
      ensures Valid() && Took(ActorFor(caller), {OfCancel(caller)}) && InCall(caller, S.CancelIdle)
      ensures state.slot.slot.CANCELLED?
      ensures failures <= state.slot.updates - old(state.slot.updates) + 1
      ensures old(environment) == [] ==> failures == 0
      ensures NobodyCancels(old(environment)) && !old(state.slot.slot.CANCELLED?) ==> WonBy(caller)
      ensures caller == S.JOINER ==> state.join.handle == old(state.join.handle)
    {
      Begin(ActorFor(caller), {OfCancel(caller)});
      failures := CancelLoop(caller);
      if NobodyCancels(old(environment)) && !old(state.slot.slot.CANCELLED?) {
        WinsAlone(caller);
      }
    }

    // ----- CancelHandle --------------------------------------------------------------------

    /** `cancel_handle`, and `CancelHandle::clone`: one more holder, who can cancel from now on. */
    method CloneHandle(from: S.Caller) returns (caller: S.Caller)
      requires Valid() && from in state.slot.calls
      modifies this
      ensures Valid() && Took(ActorFor(from), {OfReference(from)})
      ensures caller != from && from in state.slot.calls && InCall(caller, S.CancelIdle)
    {
      Begin(ActorFor(from), {OfReference(from)});
      Interfere(ActorFor(from));
      ghost var bound := Heap.FreshAddress(state.slot.calls.Keys);
      assert bound !in state.slot.calls;
      caller :| caller !in state.slot.calls;
      Perform(OnSlot(S.Clone(from, caller)));
    }

    /** A reference to the slot goes. */
    method ReleaseReference(caller: S.Caller)
      requires Valid() && turned && Doing(ActorFor(caller), OfReference(caller)) && InCall(caller, S.CancelIdle)
      requires caller == S.JOINER ==> state.join.handle.HandleGone?
      modifies this`state, this`trace, this`turned
      ensures Valid() && call == old(call) && state.join == old(state.join)
      ensures caller !in state.slot.calls && state.slot.slot == old(state.slot.slot)
    {
      Perform(OnSlot(S.Release(caller)));
    }

    /** A `CancelHandle` goes, without cancelling. */
    method DropCancelHandle(caller: S.Caller)
      requires Valid() && caller != S.JOINER && InCall(caller, S.CancelIdle)
      modifies this
      ensures Valid() && Took(ActorFor(caller), {OfReference(caller)}) && caller !in state.slot.calls
      ensures NobodyCancels(old(environment)) && !old(state.slot.slot.CANCELLED?) ==> !state.slot.slot.CANCELLED?
    {
      Begin(ActorFor(caller), {OfReference(caller)});
      Interfere(ActorFor(caller));
      ReleaseReference(caller);
      if NobodyCancels(old(environment)) {
        StaysUncancelled(trace, call);
      }
    }

    /** `Cancellation::drop`, once nobody holds the slot: no box is left. */
    method DropSlot()
      requires Valid() && !state.slot.taskHolds && state.slot.calls == map[] && !state.slot.reclaimed
      modifies this
      ensures Valid() && Took(Reclaimer, {OfReclaim}) && state.slot.reclaimed && state.slot.memory.live == map[]
    {
      Begin(Reclaimer, {OfReclaim});
      Interfere(Reclaimer);
      Perform(OnSlot(S.Reclaim));
      ReclaimFacts(trace);
    }

    // ----- JoinHandle ----------------------------------------------------------------------

    /** What no step of the handle's owner changes. */
    twostate predicate JoinerStepped()
      reads this
    {
      && state.slot == old(state.slot)
      && state.join.given == old(state.join.given) && state.join.task == old(state.join.task)
    }

    /** `poll` is called. */
    method EnterPoll(waker: Waker) returns (reg: Registration)
      requires Valid() && turned && Doing(Joiner, OfHandle) && state.join.handle.HandleIdle?
      modifies this`state, this`trace, this`turned
      ensures Valid() && call == old(call) && JoinerStepped()
      ensures reg == Registration(waker, old(state.join.polls)) && state.join.polls == old(state.join.polls) + 1
      ensures state.join.handle == J.PollEntered(reg) && state.join.delivered == old(state.join.delivered)
    {
      reg := Registration(waker, state.join.polls);
      Perform(OnJoin(J.PollCall(waker)));
    }

    /** `self.joint.stage()`, which may be out of date: `at` says how far. */
    method LoadStageInPoll(reg: Registration, at: nat) returns (stage: J.Stage)
      requires Valid() && turned && Doing(Joiner, OfHandle) && state.join.handle == J.PollEntered(reg)
      modifies this`state, this`trace, this`turned
      ensures Valid() && call == old(call) && JoinerStepped()
      ensures state.join.polls == old(state.join.polls) && state.join.delivered == old(state.join.delivered)
      ensures state.join.handle == if stage == J.Stage.Finished then J.PollFast(reg) else J.PollSlow(reg)
      ensures old(state.join.handleView) <= at < |old(state.join.stores)| ==> stage == old(state.join.stores)[at]
    {
      HandleFacts(trace);
      var choice := if state.join.handleView <= at < |state.join.stores| then at else state.join.handleView;
      stage := state.join.stores[choice];
      Perform(OnJoin(J.PollLoad(choice)));
    }

    /** `mem::replace(&mut *lock, Joined)` on the fast path, `Joining(waker)` on the slow one. */
    method SwapInPoll(reg: Registration) returns (found: J.JoinResult)
      requires Valid() && turned && Doing(Joiner, OfHandle)
      requires state.join.handle == J.PollFast(reg) || state.join.handle == J.PollSlow(reg)
      modifies this`state, this`trace, this`turned
      ensures Valid() && call == old(call) && JoinerStepped() && found == old(state.join.result)
      ensures state.join.polls == old(state.join.polls) && state.join.delivered == old(state.join.delivered)
      ensures state.join.handle == if old(state.join.handle).PollFast? then J.PollFastSwapped(reg, found)
                                   else J.PollSlowSwapped(reg, found)
      ensures state.join.result == if old(state.join.handle).PollFast? then J.Joined else J.Joining(reg)
      ensures found.Finished? || found.Joined? || (old(state.join.handle).PollSlow? && !J.Published(state.join))
    {
      HandleFacts(trace);
      found := state.join.result;
      Perform(OnJoin(J.PollSwap));
    }

    /** The rest of `poll`, on what it found: no `unreachable!` arm is. */
    method ReturnFromPoll(reg: Registration, found: J.JoinResult) returns (r: JoinPoll)
      requires Valid() && turned && Doing(Joiner, OfHandle)
      requires state.join.handle == J.PollFastSwapped(reg, found) || state.join.handle == J.PollSlowSwapped(reg, found)
      modifies this`state, this`trace, this`turned
      ensures Valid() && call == old(call) && JoinerStepped() && state.join.polls == old(state.join.polls)
      ensures match r
              case Ready(outcome) =>
                && found == J.JoinResult.Finished(outcome) && state.join.handle.HandleIdle?
                && old(state.join.delivered) == [] && state.join.delivered == [outcome]
                && state.join.given == Some(outcome)
              case Pending =>
                && (found.Empty? || found.Joining?) && state.join.handle.HandleIdle?
                && state.join.last == Some(reg) && state.join.delivered == []
              case AlreadyJoined =>
                found.Joined? && state.join.handle.PollPanickedJoined? && old(state.join.delivered) != []
    {
      HandleFacts(trace);
      var fast := state.join.handle.PollFastSwapped?;
      Perform(OnJoin(J.PollEnd));
      r := JoinPoll.Pending;
      match found {
        case Finished(outcome) => r := JoinPoll.Ready(outcome);
        case Joined => r := AlreadyJoined;
        case Empty => if fast { assert false; }
        case Joining(_) => if fast { assert false; }
        case Detached => assert false;
      }
    }

    /**
      What a poll answers. Pending means that the waker of this very call is registered and
      no outcome was there when the call began; Ready returns the outcome of the task, once;
      a second Ready is a panic instead.
    */
    twostate predicate Answered(waker: Waker, r: JoinPoll)
      reads this
    {
      match r
      case Ready(outcome) =>
        && state.join.handle.HandleIdle? && old(state.join.delivered) == []
        && state.join.delivered == [outcome] && state.join.given == Some(outcome)
      case Pending =>
        && state.join.handle.HandleIdle? && state.join.delivered == [] && !old(J.Published(state.join))
        && state.join.last == Some(Registration(waker, old(state.join.polls)))
      case AlreadyJoined =>
        state.join.handle.PollPanickedJoined? && old(state.join.delivered) != []
    }

    method PollSteps(waker: Waker, at: nat) returns (r: JoinPoll)
      requires Valid() && Doing(Joiner, OfHandle) && state.join.handle.HandleIdle?
      modifies this
      ensures Valid() && call == old(call) && state.join.polls == old(state.join.polls) + 1 && Answered(waker, r)
    {
      Interfere(Joiner);
      var reg := EnterPoll(waker);
      Interfere(Joiner);
      var stage := LoadStageInPoll(reg, at);
      Interfere(Joiner);
      var found := SwapInPoll(reg);
      Interfere(Joiner);
      r := ReturnFromPoll(reg, found);
    }

    /**
      `JoinHandle::poll`, with whatever stale `stage` it may load. It is Pending if there was
      no outcome and nobody else can have published one, and it never cancels the task.
    */
    method PollHandle(waker: Waker, at: nat) returns (r: JoinPoll)
      requires Valid() && state.join.handle.HandleIdle?
      modifies this
      ensures Valid() && Took(Joiner, {OfHandle}) && state.join.polls == old(state.join.polls) + 1
      ensures Answered(waker, r)
      ensures NobodyPublishes(old(environment)) && !old(J.Published(state.join)) ==> r.Pending?
      ensures NobodyCancels(old(environment)) && !old(state.slot.slot.CANCELLED?) ==> !state.slot.slot.CANCELLED?
    {
      Begin(Joiner, {OfHandle});
      r := PollSteps(waker, at);
      if NobodyPublishes(old(environment)) {
        StaysUnpublished(trace, call);
        HandleFacts(trace);
      }
      if NobodyCancels(old(environment)) {
        StaysUncancelled(trace, call);
      }
    }

    /** `stage.store(Detached)`: from here on the cell is closed. */
    method StoreDetached()
      requires Valid() && turned && Doing(Joiner, OfHandle)
      requires state.join.handle.HandleIdle? || state.join.handle.PollPanickedJoined?
      modifies this`state, this`trace, this`turned
      ensures Valid() && call == old(call) && JoinerStepped() && state.join.handle.DropStored?
      ensures state.join.stores == old(state.join.stores) + [J.Stage.Detached]
    {
      Perform(OnJoin(J.DropStore));
    }

    /** `*result.lock() = Detached`. */
    method OverwriteResult()
      requires Valid() && turned && Doing(Joiner, OfHandle) && state.join.handle.DropStored?
      modifies this`state, this`trace, this`turned
      ensures Valid() && call == old(call) && JoinerStepped()
      ensures state.join.handle.HandleGone? && state.join.result.Detached?
    {
      Perform(OnJoin(J.DropOverwrite));
    }

    /** `JoinHandle::drop`, and the reference its `cancellation` field held. */
    method DropHandle()
      requires Valid() && (state.join.handle.HandleIdle? || state.join.handle.PollPanickedJoined?)
      requires InCall(S.JOINER, S.CancelIdle)
      modifies this
      ensures Valid() && Took(Joiner, {OfHandle, OfReference(S.JOINER)})
      ensures state.join.handle.HandleGone? && S.JOINER !in state.slot.calls
      ensures state.join.task.WakeReturned? || state.join.task.WakeSkipped? ==> state.join.result.Detached?
      ensures old(state.slot.slot.CANCELLED?) ==> state.slot.slot.CANCELLED?
      ensures NobodyCancels(old(environment)) && !old(state.slot.slot.CANCELLED?) ==> !state.slot.slot.CANCELLED?
    {
      Begin(Joiner, {OfHandle, OfReference(S.JOINER)});
      Interfere(Joiner);
      StoreDetached();
      Interfere(Joiner);
      OverwriteResult();
      Interfere(Joiner);
      DropFacts(trace);
      ReleaseReference(S.JOINER);
      if NobodyCancels(old(environment)) {
        StaysUncancelled(trace, call);
      }
    }

    /** `TaskHandle::drop` and then that of the handle inside it: the task is cancelled. */
    method DropTaskHandle()
      requires Valid() && (state.join.handle.HandleIdle? || state.join.handle.PollPanickedJoined?)
      requires InCall(S.JOINER, S.CancelIdle)
      modifies this
      ensures Valid() && Took(Joiner, {OfCancel(S.JOINER), OfHandle, OfReference(S.JOINER)})
      ensures state.slot.slot.CANCELLED? && state.join.handle.HandleGone? && S.JOINER !in state.slot.calls
      ensures NobodyCancels(old(environment)) && !old(state.slot.slot.CANCELLED?) ==> WonBy(S.JOINER)
    {
      var _ := Cancel(S.JOINER);
      ghost var between, left := trace, environment;
      DropHandle();
      AccountedTwice(trace, Call(Joiner, {OfCancel(S.JOINER)}, old(trace), old(environment)),
                     Call(Joiner, {OfHandle, OfReference(S.JOINER)}, between, left));
      RemainsTwice(environment, left, old(environment));
      AccountedMeans(trace, Call(Joiner, {OfHandle, OfReference(S.JOINER)}, between, left));
      Causes(between, trace);
      WinnerFacts(trace, S.JOINER);
      assert {OfCancel(S.JOINER)} + {OfHandle, OfReference(S.JOINER)}
             == {OfCancel(S.JOINER), OfHandle, OfReference(S.JOINER)};
    }

    // ----- Joint::wake and TaskFuture::finish ------------------------------------------------

    function AfterFinish(): Driver
      reads this
    {
      if state.dropping then Releasing else Parked
    }

    /** What no step of `wake` changes. */
    twostate predicate WakeStepped()
      reads this
    {
      && state.slot == old(state.slot) && state.join.given == old(state.join.given)
      && state.future == old(state.future) && state.dropping == old(state.dropping)
      && state.polls == old(state.polls) && state.current == old(state.current)
      && state.produced == old(state.produced) && state.pendings == old(state.pendings)
      && state.join.handle == old(state.join.handle)
    }

    /** `self.joint.stage()` in `wake`, which may be out of date as well. */
    method LoadStageInWake(outcome: Outcome, at: nat) returns (stage: J.Stage)
      requires Valid() && turned && Doing(Executor, OfTask)
      requires state.driver.Waking? && state.join.task == J.WakeEntered(outcome)
      modifies this`state, this`trace, this`turned
      ensures Valid() && call == old(call) && WakeStepped()
      ensures old(state.join.taskView) <= at < |old(state.join.stores)| ==> stage == old(state.join.stores)[at]
      ensures if stage == J.Stage.Running
              then state.driver.Waking? && state.join.task == J.WakeChecked(outcome)
              else state.driver == AfterFinish() && state.join.task.WakeSkipped?
    {
      WakeFacts(trace);
      var choice := if state.join.taskView <= at < |state.join.stores| then at else state.join.taskView;
      stage := state.join.stores[choice];
      WakeLoadGives(state, choice);
      Perform(OnJoin(J.WakeLoad(choice)));
    }

    /** `mem::replace(&mut *lock, Finished(value))` */
    method SwapInWake(outcome: Outcome) returns (found: J.JoinResult)
      requires Valid() && turned && Doing(Executor, OfTask)
      requires state.driver.Waking? && state.join.task == J.WakeChecked(outcome)
      modifies this`state, this`trace, this`turned
      ensures Valid() && call == old(call) && WakeStepped() && found == old(state.join.result)
      ensures state.driver.Waking? && state.join.task == J.WakeSwapped(found)
      ensures state.join.result == J.JoinResult.Finished(outcome)
    {
      found := state.join.result;
      Perform(OnJoin(J.WakeSwap));
    }

    method StoreFinished(found: J.JoinResult)
      requires Valid() && turned && Doing(Executor, OfTask)
      requires state.driver.Waking? && state.join.task == J.WakeSwapped(found)
      modifies this`state, this`trace, this`turned
      ensures Valid() && call == old(call) && WakeStepped()
      ensures state.driver.Waking? && state.join.task == J.WakeStored(found)
      ensures state.join.stores == old(state.join.stores) + [J.Stage.Finished]
    {
      Perform(OnJoin(J.WakeStore));
    }

    /** `match result`, none of whose `unreachable!` arms is taken. */
    method ReturnFromWake(found: J.JoinResult)
      requires Valid() && turned && Doing(Executor, OfTask)
      requires state.driver.Waking? && state.join.task == J.WakeStored(found)
      modifies this`state, this`trace, this`turned
      ensures Valid() && call == old(call) && WakeStepped()
      ensures state.driver == AfterFinish() && state.join.task.WakeReturned?
      ensures found.Joining? ==> found.reg in state.join.woken
      ensures found.Detached? ==> state.join.result.Detached?
    {
      WakeFacts(trace);
      Perform(OnJoin(J.WakeEnd));
    }

    /** The accesses of `wake`, in their order. */
    method WakeSteps(outcome: Outcome, at: nat)
      requires Valid() && Doing(Executor, OfTask)
      requires state.driver.Waking? && state.join.task == J.WakeEntered(outcome)
      modifies this
      ensures Valid() && call == old(call) && state.driver == AfterFinish()
      ensures state.future == old(state.future) && state.dropping == old(state.dropping)
      ensures state.polls == old(state.polls) && state.produced == old(state.produced)
      ensures state.join.given == old(state.join.given) && state.pendings == old(state.pendings)
      ensures state.join.task.WakeSkipped? || state.join.task.WakeReturned?
      ensures old(state.slot.slot.CANCELLED?) ==> state.slot.slot.CANCELLED?
    {
      Interfere(Executor);
      var stage := LoadStageInWake(outcome, at);
      if stage == J.Stage.Running {
        Interfere(Executor);
        var found := SwapInWake(outcome);
        Interfere(Executor);
        StoreFinished(found);
        Interfere(Executor);
        ReturnFromWake(found);
      }
    }

    /**
      `Joint::wake`. When it returns, a parked joiner has been woken; it leaves early only
      when the handle's drop has begun.
    */
    method Wake(outcome: Outcome, at: nat)
      requires Valid() && Doing(Executor, OfTask)
      requires state.driver.Waking? && state.join.task == J.WakeEntered(outcome)
      modifies this
      ensures Valid() && call == old(call) && Took(Executor, {OfTask})
      ensures state.driver == AfterFinish()
      ensures state.future == old(state.future) && state.dropping == old(state.dropping)
      ensures state.polls == old(state.polls) && state.produced == old(state.produced)
      ensures state.join.given == old(state.join.given) && state.pendings == old(state.pendings)
      ensures state.join.last.Some? ==> state.join.last.value in state.join.woken
      ensures state.join.task.WakeSkipped? || state.join.task.WakeReturned?
      ensures J.Live(state.join) ==> J.Published(state.join)
      ensures NobodyDrops(old(environment)) && old(J.Live(state.join)) ==> state.join.task.WakeReturned?
      ensures old(state.slot.slot.CANCELLED?) ==> state.slot.slot.CANCELLED?
    {
      ghost var outer := call;
      Begin(Executor, {OfTask});
      WakeSteps(outcome, at);
      WakeFacts(trace);
      if NobodyDrops(old(environment)) {
        StaysLive(trace, call);
      }
      End(outer);
    }

    /** `self.future = None`, and the call of `wake`. */
    method DropFuture(outcome: Outcome)
      requires Valid() && turned && Doing(Executor, OfTask) && state.driver == Finishing(outcome)
      modifies this`state, this`trace, this`turned
      ensures Valid() && call == old(call)
      ensures state == old(state).(future := false, driver := Waking, join := state.join)
      ensures state.join.task == J.WakeEntered(outcome) && state.join.given == Some(outcome)
    {
      FinishFacts(trace);
      Perform(TaskFinish);
    }

    /** `TaskFuture::finish`. */
    method Finish(outcome: Outcome, at: nat)
      requires Valid() && Doing(Executor, OfTask) && state.driver == Finishing(outcome)
      modifies this
      ensures Valid() && call == old(call) && Took(Executor, {OfTask})
      ensures !state.future && state.driver == AfterFinish() && state.dropping == old(state.dropping)
      ensures state.polls == old(state.polls) && state.produced == old(state.produced)
      ensures state.join.given == Some(outcome)
      ensures state.join.last.Some? ==> state.join.last.value in state.join.woken
      ensures state.join.task.WakeSkipped? || state.join.task.WakeReturned?
      ensures J.Live(state.join) ==> J.Published(state.join)
      ensures old(state.slot.slot.CANCELLED?) ==> state.slot.slot.CANCELLED?
      ensures state.pendings == old(state.pendings)
      ensures NobodyDrops(old(environment)) && old(J.Live(state.join)) ==> state.join.task.WakeReturned?
    {
      ghost var outer := call;
      Begin(Executor, {OfTask});
      Interfere(Executor);
      DropFuture(outcome);
      Wake(outcome, at);
      if NobodyDrops(old(environment)) {
        StaysLive(trace, call);
      }
      End(outer);
    }

    // ----- Cancellation::update ------------------------------------------------------------

    /** What no step of the task around `update` changes. */
    twostate predicate UpdateStepped()
      reads this
    {
      && state.join == old(state.join) && state.future == old(state.future)
      && state.dropping == old(state.dropping) && state.polls == old(state.polls)
      && state.current == old(state.current) && state.produced == old(state.produced)
    }

    /** `task.waker.take()`: a new box, at any free address, or the one kept. */
    method BoxWaker(reg: Registration) returns (mine: Heap.Address)
      requires Valid() && turned && Doing(Executor, OfTask) && state.driver == Registering(reg)
      modifies this`state, this`trace, this`turned
      ensures Valid() && call == old(call) && UpdateStepped()
      ensures state.driver.Updating? && state.slot.update == S.UpdateEntered(mine)
      ensures state.slot.slot == old(state.slot.slot) && state.pendings == old(state.pendings)
    {
      UpdateFacts(trace);
      ghost var bound := Heap.FreshAddress(state.slot.memory.live.Keys);
      assert bound !in state.slot.memory.live;
      mine :| if state.slot.kept.Some? then mine == state.slot.kept.value else mine !in state.slot.memory.live;
      Perform(OnSlot(S.MakeBox(reg, mine)));
    }

    method LoadInUpdate(mine: Heap.Address) returns (current: S.Slot)
      requires Valid() && turned && Doing(Executor, OfTask)
      requires state.driver.Updating? && state.slot.update == S.UpdateEntered(mine)
      modifies this`state, this`trace, this`turned
      ensures Valid() && call == old(call) && UpdateStepped()
      ensures state.driver.Updating? && state.slot.update == S.UpdateLoaded(mine, current, 0)
      ensures current == state.slot.slot == old(state.slot.slot) && state.pendings == old(state.pendings)
    {
      current := state.slot.slot;
      Perform(OnSlot(S.UpdateLoad));
    }

    /** `self.waker.compare_exchange(current, raw_waker)` */
    method ExchangeInUpdate(mine: Heap.Address, current: S.Slot, failures: nat) returns (found: S.Slot)
      requires Valid() && turned && Doing(Executor, OfTask)
      requires state.driver.Updating? && !current.CANCELLED?
      requires state.slot.update == S.UpdateLoaded(mine, current, failures)
      modifies this`state, this`trace, this`turned
      ensures Valid() && call == old(call) && UpdateStepped()
      ensures state.driver.Updating? && found == old(state.slot.slot) && state.pendings == old(state.pendings)
      ensures if found == current then
                && state.slot.slot == S.Pointer(mine) && state.slot.update == S.UpdateAccepted(current)
                && state.slot.stored == state.current
              else
                && found.CANCELLED? && state.slot.slot == found && failures == 0
                && state.slot.update == S.UpdateLoaded(mine, found, 1)
    {
      UpdateFacts(trace);
      found := state.slot.slot;
      Perform(OnSlot(S.UpdateTry));
    }

    /** `return Err(())`, which drops the box. */
    method RejectUpdate(mine: Heap.Address, failures: nat)
      requires Valid() && turned && Doing(Executor, OfTask) && state.driver.Updating?
      requires state.slot.update == S.UpdateLoaded(mine, S.CANCELLED, failures)
      modifies this`state, this`trace, this`turned
      ensures Valid() && call == old(call) && UpdateStepped()
      ensures state.driver == Finishing(Outcome.Cancelled) && state.slot.slot.CANCELLED? && failures <= 1
      ensures mine !in state.slot.memory.live && state.pendings == old(state.pendings)
    {
      UpdateFacts(trace);
      Perform(OnSlot(S.UpdateTry));
    }

    /** What a call of `update` leaves: this poll's box stored, or CANCELLED and the box gone. */
    twostate predicate Updated(mine: Heap.Address, accepted: bool, failures: nat)
      reads this
    {
      && state.future == old(state.future) && state.dropping == old(state.dropping)
      && state.polls == old(state.polls) && state.current == old(state.current)
      && state.produced == old(state.produced) && state.pendings == old(state.pendings)
      && failures <= (if accepted then 0 else 1) && (old(state.slot.slot.CANCELLED?) ==> !accepted)
      && if accepted then
           state.driver.Updating? && state.slot.update.UpdateAccepted? && state.slot.stored == state.current
         else
           && state.driver == Finishing(Outcome.Cancelled) && state.slot.slot.CANCELLED?
           && mine !in state.slot.memory.live
    }

    /** The load and the loop of `update`. */
    method UpdateLoop(mine: Heap.Address) returns (accepted: bool, failures: nat)
      requires Valid() && Doing(Executor, OfTask) && state.driver.Updating?
      requires state.slot.update == S.UpdateEntered(mine)
      modifies this
      ensures Valid() && call == old(call) && Updated(mine, accepted, failures)
    {
      Interfere(Executor);
      var current := LoadInUpdate(mine);
      failures := 0;
      while !current.CANCELLED?
        invariant Valid() && call == old(call) && state.driver.Updating?
        invariant state.slot.update == S.UpdateLoaded(mine, current, failures)
        invariant failures <= if current.CANCELLED? then 1 else 0
        invariant state.future == old(state.future) && state.dropping == old(state.dropping)
        invariant state.polls == old(state.polls) && state.current == old(state.current)
        invariant state.produced == old(state.produced) && state.pendings == old(state.pendings)
        invariant old(state.slot.slot.CANCELLED?) ==> current.CANCELLED?
        decreases 1 - failures
      {
        Interfere(Executor);
        var found := ExchangeInUpdate(mine, current, failures);
        if found == current {
          return true, failures;
        }
        current := found;
        failures := failures + 1;
      }
      Interfere(Executor);
      RejectUpdate(mine, failures);
      return false, failures;
    }

    /**
      `Cancellation::update`. It loses at most one compare-exchange; it stores the box of
      this very poll, as it must if nobody has cancelled or can, or it finds CANCELLED and
      frees the box.
    */
    method Update(mine: Heap.Address) returns (accepted: bool, failures: nat)
      requires Valid() && Doing(Executor, OfTask) && state.driver.Updating?
      requires state.slot.update == S.UpdateEntered(mine)
      modifies this
      ensures Valid() && call == old(call) && Took(Executor, {OfTask}) && Updated(mine, accepted, failures)
      ensures NobodyCancels(old(environment)) && !old(state.slot.slot.CANCELLED?) ==> accepted
    {
      ghost var outer := call;
      Begin(Executor, {OfTask});
      accepted, failures := UpdateLoop(mine);
      if NobodyCancels(old(environment)) {
        StaysUncancelled(trace, call);
      }
      End(outer);
    }

    // ----- TaskFuture::{poll, drop} ------------------------------------------------------------

    method EnterTaskPoll(waker: Waker) returns (reg: Registration)
      requires Valid() && turned && Doing(Executor, OfTask) && state.driver.Parked?
      modifies this`state, this`trace, this`turned
      ensures Valid() && call == old(call) && reg == Registration(waker, old(state.polls))
      ensures state == old(state).(polls := old(state.polls) + 1, current := Some(reg), driver := state.driver)
      ensures state.driver == if state.future then Checking(reg) else Parked
    {
      reg := Registration(waker, state.polls);
      Perform(TaskPoll(waker));
    }

    /** `task.cancellation.is_cancelled()` */
    method IsCancelled(reg: Registration) returns (cancelled: bool)
      requires Valid() && turned && Doing(Executor, OfTask) && state.driver == Checking(reg)
      modifies this`state, this`trace, this`turned
      ensures Valid() && call == old(call) && UpdateStepped() && state.slot == old(state.slot)
      ensures cancelled == state.slot.slot.CANCELLED? && state.pendings == old(state.pendings)
      ensures state.driver == if cancelled then Finishing(Outcome.Cancelled) else Polling(reg)
    {
      cancelled := state.slot.slot.CANCELLED?;
      Perform(TaskCheck);
    }

    /** `catch_unwind(|| future.poll(cx))` comes back. */
    method InnerReturns(reg: Registration, inner: InnerPoll)
      requires Valid() && turned && Doing(Executor, OfTask) && state.driver == Polling(reg)
      modifies this`state, this`trace, this`turned
      ensures Valid() && call == old(call) && state.slot == old(state.slot) && state.join == old(state.join)
      ensures state.future == old(state.future) && state.dropping == old(state.dropping)
      ensures state.polls == old(state.polls) && state.current == old(state.current)
      ensures state.pendings == old(state.pendings)
      ensures match inner
              case Pending => state.driver == Registering(reg) && state.produced == old(state.produced)
              case Ready(value) => state.driver == Finishing(Ok(value)) && state.produced == Some(Ok(value))
              case Panic(payload) =>
                state.driver == Finishing(Panicked(payload)) && state.produced == Some(Panicked(payload))
    {
      Perform(InnerReturn(inner));
    }

    /** `task.waker = waker; Poll::Pending` */
    method KeepBox()
      requires Valid() && turned && Doing(Executor, OfTask)
      requires state.driver.Updating? && state.slot.update.UpdateAccepted?
      modifies this`state, this`trace, this`turned
      ensures Valid() && call == old(call) && UpdateStepped()
      ensures state.driver.Parked? && state.slot.stored == old(state.slot.stored)
      ensures state.pendings == old(state.pendings) + 1
      ensures state.slot.kept == match old(state.slot.update.found)
                                 case Pointer(address) => Some(address)
                                 case _ => None
    {
      Perform(OnSlot(S.UpdateEnd));
    }

    /** The arm of `poll` for an inner future that is pending. */
    method RegisterWaker(reg: Registration, at: nat) returns (ready: bool)
      requires Valid() && Doing(Executor, OfTask)
      requires state.driver == Registering(reg) && !state.dropping && state.future
      requires state.current == Some(reg)
      modifies this
      ensures Valid() && call == old(call) && state.driver.Parked? && ready == !state.future
      ensures state.polls == old(state.polls) && state.produced == old(state.produced)
      ensures !ready ==> state.slot.stored == Some(reg)
      ensures ready ==> state.join.given == Some(Outcome.Cancelled) && state.slot.slot.CANCELLED?
      ensures ready && state.join.last.Some? ==> state.join.last.value in state.join.woken
      ensures ready && J.Live(state.join) ==> J.Published(state.join)
      ensures old(state.slot.slot.CANCELLED?) ==> ready
      ensures state.pendings == old(state.pendings) + if ready then 0 else 1
    {
      Interfere(Executor);
      var mine := BoxWaker(reg);
      var accepted, _ := Update(mine);
      if accepted {
        Interfere(Executor);
        KeepBox();
        ready := false;
      } else {
        Finish(Outcome.Cancelled, at);
        ready := true;
      }
    }

    /**
      What a poll of the task comes to, for any result of the inner future. Pending means
      that the inner future is, that the slot was not CANCELLED when the call began, and that
      the waker of this very call is the one registered. Ready means that the task is over,
      that its outcome is the inner future's or Cancelled, and that a parked joiner has been
      woken.
    */
    twostate predicate Polled(waker: Waker, inner: InnerPoll, ready: bool)
      reads this
    {
      && state.driver.Parked? && state.polls == old(state.polls) + 1
      && ready == !state.future && state.pendings == old(state.pendings) + (if ready then 0 else 1)
      && (!ready ==> inner.Pending? && state.slot.stored == Some(Registration(waker, old(state.polls))))
      && (old(state.slot.slot.CANCELLED?) || !old(state.future) ==> ready && state.produced == old(state.produced))
      && (old(state.slot.slot.CANCELLED?) && old(state.future) ==> state.join.given == Some(Outcome.Cancelled))
      && (ready && old(state.future) ==>
            && (state.join.last.Some? ==> state.join.last.value in state.join.woken)
            && (J.Live(state.join) ==> J.Published(state.join))
            && ((state.join.given == Some(Outcome.Cancelled) && state.slot.slot.CANCELLED?)
                || match inner
                   case Pending => false
                   case Ready(value) => state.join.given == Some(Ok(value))
                   case Panic(payload) => state.join.given == Some(Panicked(payload))))
    }

    /** The branches of `poll`, in the order of the source. */
    method PollTaskSteps(waker: Waker, inner: InnerPoll, at: nat) returns (ready: bool)
      requires Valid() && Doing(Executor, OfTask) && state.driver.Parked?
      modifies this
      ensures Valid() && call == old(call) && Polled(waker, inner, ready)
    {
      Interfere(Executor);
      FinishFacts(trace);
      var reg := EnterTaskPoll(waker);
      if !state.future {
        return true;
      }
      Interfere(Executor);
      var cancelled := IsCancelled(reg);
      if cancelled {
        Finish(Outcome.Cancelled, at);
        return true;
      }
      Interfere(Executor);
      InnerReturns(reg, inner);
      match inner {
        case Pending => ready := RegisterWaker(reg, at);
        case Ready(value) => Finish(Ok(value), at); ready := true;
        case Panic(payload) => Finish(Panicked(payload), at); ready := true;
      }
    }

    /**
      `TaskFuture::poll`. If nobody has cancelled, and nobody else can, the answer is the
      inner future's.
    */
    method PollTask(waker: Waker, inner: InnerPoll, at: nat) returns (ready: bool)
      requires Valid() && state.driver.Parked?
      modifies this
      ensures Valid() && Took(Executor, {OfTask}) && Polled(waker, inner, ready)
      ensures NobodyCancels(old(environment)) && !old(state.slot.slot.CANCELLED?) && old(state.future) ==>
                && !state.slot.slot.CANCELLED?
                && match inner
                   case Pending => !ready
                   case Ready(value) => state.join.given == Some(Ok(value))
                   case Panic(payload) => state.join.given == Some(Panicked(payload))
    {
      Begin(Executor, {OfTask});
      ready := PollTaskSteps(waker, inner, at);
      if NobodyCancels(old(environment)) {
        StaysUncancelled(trace, call);
      }
    }

    method EnterTaskDrop()
      requires Valid() && turned && Doing(Executor, OfTask) && state.driver.Parked?
      modifies this`state, this`trace, this`turned
      ensures Valid() && call == old(call) && state.dropping && state.future == old(state.future)
      ensures state.join == old(state.join)
      ensures state.driver == if state.future then Finishing(Outcome.Cancelled) else Releasing
    {
      Perform(TaskDrop);
    }

    /** The fields go: the kept box is freed, the references are given back. */
    method ReleaseFields()
      requires Valid() && turned && Doing(Executor, OfTask) && state.driver.Releasing?
      modifies this`state, this`trace, this`turned
      ensures Valid() && call == old(call) && state.driver.Gone? && state.future == old(state.future)
      ensures state.join == old(state.join) && !state.slot.taskHolds && state.slot.kept.None?
      ensures old(state.slot.kept.Some?) ==> old(state.slot.kept.value) !in state.slot.memory.live
    {
      UpdateFacts(trace);
      Perform(OnSlot(S.TaskRelease));
    }

    /** `TaskFuture::drop`: an unfinished task ends as Cancelled, and its joiner hears of it. */
    method DropTask(at: nat)
      requires Valid() && state.driver.Parked?
      modifies this
      ensures Valid() && Took(Executor, {OfTask}) && state.driver.Gone? && !state.future
      ensures old(state.future) ==>
                && state.join.given == Some(Outcome.Cancelled)
                && (state.join.last.Some? ==> state.join.last.value in state.join.woken)
                && (J.Live(state.join) ==> J.Published(state.join))
      ensures NobodyCancels(old(environment)) && !old(state.slot.slot.CANCELLED?) ==> !state.slot.slot.CANCELLED?
    {
      Begin(Executor, {OfTask});
      Interfere(Executor);
      EnterTaskDrop();
      if state.future {
        Finish(Outcome.Cancelled, at);
      }
      Interfere(Executor);
      WakeFacts(trace);
      ReleaseFields();
      if NobodyCancels(old(environment)) {
        StaysUncancelled(trace, call);
      }
    }
  }
}
