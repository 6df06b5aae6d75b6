/**
  Who else uses a task while one call on it is in progress: whose step each step is, what the
  steps of others leave alone, and how the steps of a call are told from theirs.
*/
module Interference {
  import opened Base
  import opened Lifecycle
  import J = JoinCell
  import S = WakerSlot
  import Heap

  /** The owner of the join handle is also the caller JOINER of `cancel`. */
  datatype Actor = Executor | Joiner | Canceller(caller: S.Caller) | Reclaimer

  function ActorFor(caller: S.Caller): Actor {
    if caller == S.JOINER then Joiner else Canceller(caller)
  }

  /** The kinds of calls, by the steps they are made of. */
  datatype Part = OfTask | OfHandle | OfCancel(caller: S.Caller) | OfReference(caller: S.Caller) | OfReclaim

  function PartOf(a: Action): Part {
    match a
    case OnJoin(join) => if J.ByHandle(join) then OfHandle else OfTask
    case OnSlot(slot) =>
      match slot {
        case CancelLoad(caller) => OfCancel(caller)
        case CancelTry(caller) => OfCancel(caller)
        case CancelEnd(caller) => OfCancel(caller)
        case Clone(from, _) => OfReference(from)
        case Release(caller) => OfReference(caller)
        case Reclaim => OfReclaim
        case _ => OfTask
      }
    case _ => OfTask
  }

  function ActorOf(a: Action): Actor {
    match PartOf(a)
    case OfTask => Executor
    case OfHandle => Joiner
    case OfCancel(caller) => ActorFor(caller)
    case OfReference(caller) => ActorFor(caller)
    case OfReclaim => Reclaimer
  }

  /** Somebody else will try this step in one of these turns. */
  ghost predicate Offered(a: Action, environment: seq<seq<Action>>) {
    exists turn <- environment :: a in turn
  }

  ghost predicate NobodyCancels(environment: seq<seq<Action>>) {
    forall c: S.Caller :: !Offered(OnSlot(S.CancelTry(c)), environment)
  }

  ghost predicate NobodyPublishes(environment: seq<seq<Action>>) {
    !Offered(OnJoin(J.WakeSwap), environment)
  }

  ghost predicate NobodyDrops(environment: seq<seq<Action>>) {
    !Offered(OnJoin(J.DropStore), environment)
  }

  function MyBox(s: State): Option<Registration> {
    if s.slot.update.UpdateEntered? || s.slot.update.UpdateLoaded?
    then Heap.Content(s.slot.memory, s.slot.update.mine) else None
  }

  predicate Moved(s: State, t: State) {
    && s.slot.updates <= t.slot.updates
    && (s.slot.slot.CANCELLED? ==> t.slot.slot.CANCELLED?)
    && (J.Published(s.join) ==> J.Published(t.join) && t.join.given == s.join.given)
    && |s.join.stores| <= |t.join.stores|
  }

  predicate ExecutorUntouched(s: State, t: State) {
    && t.driver == s.driver && t.future == s.future && t.dropping == s.dropping && t.polls == s.polls
    && t.current == s.current && t.produced == s.produced && t.pendings == s.pendings
    && t.slot.update == s.slot.update && t.slot.kept == s.slot.kept && t.slot.updates == s.slot.updates
    && t.slot.stored == s.slot.stored && MyBox(t) == MyBox(s)
    && t.join.task == s.join.task && t.join.given == s.join.given && t.join.taskView == s.join.taskView
  }

  predicate JoinerUntouched(s: State, t: State) {
    && t.join.handle == s.join.handle && t.join.handleView == s.join.handleView
    && t.join.polls == s.join.polls && t.join.last == s.join.last && t.join.delivered == s.join.delivered
    && CancellerUntouched(s, t, S.JOINER)
  }

  predicate CancellerUntouched(s: State, t: State, caller: S.Caller) {
    caller in s.slot.calls ==> caller in t.slot.calls && t.slot.calls[caller] == s.slot.calls[caller]
  }

  /** From `s` to `t` other actors have moved, but not this one. */
  predicate Untouched(s: State, t: State, who: Actor) {
    && Moved(s, t)
    && match who
       case Executor => ExecutorUntouched(s, t)
       case Joiner => JoinerUntouched(s, t)
       case Canceller(caller) => caller != S.JOINER ==> CancellerUntouched(s, t, caller)
       case Reclaimer => s.slot.calls == map[] && !s.slot.taskHolds ==> t.slot == s.slot
  }

  lemma UntouchedTwice(s: State, t: State, u: State, who: Actor)
    requires Untouched(s, t, who) && Untouched(t, u, who)
    ensures Untouched(s, u, who)
  {
  }

  lemma SlotStepMoves(s: State, a: S.Action)
    requires Inv(s) && Enabled(s, OnSlot(a))
    ensures Moved(s, Apply(s, OnSlot(a))) && Apply(s, OnSlot(a)).join == s.join
  {
  }

  lemma SlotStepSparesExecutor(s: State, a: S.Action)
    requires Inv(s) && Enabled(s, OnSlot(a)) && ActorOf(OnSlot(a)) != Executor
    ensures ExecutorUntouched(s, Apply(s, OnSlot(a)))
  {
    S.HolderFrame(s.slot, a);
  }

  lemma SlotStepSparesCanceller(s: State, a: S.Action, caller: S.Caller)
    requires Enabled(s, OnSlot(a)) && ActorOf(OnSlot(a)) != ActorFor(caller)
    ensures CancellerUntouched(s, Apply(s, OnSlot(a)), caller)
  {
  }

  lemma JoinStepUntouched(s: State, a: J.Action, who: Actor)
    requires Inv(s) && Enabled(s, OnJoin(a)) && ActorOf(OnJoin(a)) != who
    ensures Untouched(s, Apply(s, OnJoin(a)), who)
  {
    J.Frame(s.join, a);
    if J.Published(s.join) {
      J.PublishedStays(s.join, a);
    }
    AfterJoinSpares(s, J.Apply(s.join, a));
  }

  lemma AfterJoinSpares(s: State, join: J.State)
    ensures var t := AfterJoin(s.(join := join));
            && t.join == join && t.slot == s.slot
            && t == s.(join := join, driver := t.driver)
            && (DriverOk(s) && join.task == s.join.task ==> t.driver == s.driver)
  {
  }

  lemma OwnStepUntouched(s: State, a: Action, who: Actor)
    requires Inv(s) && Enabled(s, a) && who != Executor && !a.OnJoin? && !a.OnSlot?
    ensures Untouched(s, Apply(s, a), who)
  {
  }

  lemma StepUntouched(s: State, a: Action, who: Actor)
    requires Inv(s) && Enabled(s, a) && ActorOf(a) != who
    ensures Untouched(s, Apply(s, a), who)
  {
    match a
    case OnSlot(slot) =>
      SlotStepMoves(s, slot);
      match who {
        case Executor => SlotStepSparesExecutor(s, slot);
        case Canceller(caller) => if caller != S.JOINER { SlotStepSparesCanceller(s, slot, caller); }
        case Joiner => SlotStepSparesCanceller(s, slot, S.JOINER);
        case _ =>
      }
    case OnJoin(join) => JoinStepUntouched(s, join, who);
    case _ => OwnStepUntouched(s, a, who);
  }

  lemma {:induction false} RunLonger(s: State, acts: seq<Action>, a: Action)
    requires CanRun(s, acts) && Enabled(Exec(s, acts), a)
    ensures CanRun(s, acts + [a]) && Exec(s, acts + [a]) == Apply(Exec(s, acts), a)
    decreases acts
  {
    if acts == [] {
      assert acts + [a] == [a];
      assert [a][1..] == [];
    } else {
      RunLonger(Apply(s, acts[0]), acts[1..], a);
      assert (acts + [a])[1..] == acts[1..] + [a];
    }
  }

  lemma {:induction false} RunShorter(s: State, acts: seq<Action>)
    requires CanRun(s, acts) && acts != []
    ensures var n := |acts| - 1;
            && CanRun(s, acts[..n]) && Enabled(Exec(s, acts[..n]), acts[n])
            && Exec(s, acts) == Apply(Exec(s, acts[..n]), acts[n])
    decreases acts
  {
    var n := |acts| - 1;
    if n > 0 {
      RunShorter(Apply(s, acts[0]), acts[1..]);
      assert acts[..n][1..] == acts[1..][..n - 1];
    }
  }

  /** What brings about the changes that matter to other actors. */
  lemma StepCauses(s: State, a: Action)
    requires Enabled(s, a)
    ensures !s.slot.slot.CANCELLED? && Apply(s, a).slot.slot.CANCELLED? ==>
              exists caller: S.Caller ::
                a == OnSlot(S.CancelTry(caller)) && Apply(s, a).slot.winners == s.slot.winners + [caller]
    ensures !J.Published(s.join) && J.Published(Apply(s, a).join) ==> a == OnJoin(J.WakeSwap)
    ensures J.Live(s.join) && !J.Live(Apply(s, a).join) ==> a == OnJoin(J.DropStore)
  {
    StepProjects(s, a);
    if JoinPart(s, a) != [] {
      CellStepCauses(s.join, JoinPart(s, a)[0]);
    }
  }

  lemma CellStepCauses(s: J.State, a: J.Action)
    requires J.Enabled(s, a)
    ensures !J.Published(s) && J.Published(J.Apply(s, a)) ==> a == J.WakeSwap
    ensures J.Live(s) && !J.Live(J.Apply(s, a)) ==> a == J.DropStore
  {
  }

  /** So each of these changes over a stretch of a run has its cause in that stretch. */
  lemma {:induction false} Causes(before: seq<Action>, after: seq<Action>)
    requires before <= after && CanRun(Init(), after)
    ensures CanRun(Init(), before)
    ensures var s, t := Exec(Init(), before), Exec(Init(), after);
            && (!s.slot.slot.CANCELLED? && t.slot.slot.CANCELLED? ==>
                  exists i, caller: S.Caller | |before| <= i < |after| ::
                    after[i] == OnSlot(S.CancelTry(caller)) && t.slot.winners == [caller])
            && (!J.Published(s.join) && J.Published(t.join) ==>
                  exists i | |before| <= i < |after| :: after[i] == OnJoin(J.WakeSwap))
            && (J.Live(s.join) && !J.Live(t.join) ==>
                  exists i | |before| <= i < |after| :: after[i] == OnJoin(J.DropStore))
            && (s.slot.slot.CANCELLED? ==> t.slot.slot.CANCELLED? && t.slot.winners == s.slot.winners)
    decreases |after|
  {
    if before != after {
      var n := |after| - 1;
      RunShorter(Init(), after);
      Causes(before, after[..n]);
      StepCauses(Exec(Init(), after[..n]), after[n]);
      WinnerStays(after[..n], after[n]);
    }
  }

  lemma WinnerStays(acts: seq<Action>, a: Action)
    requires CanRun(Init(), acts) && Enabled(Exec(Init(), acts), a)
    ensures var s := Exec(Init(), acts);
            if s.slot.slot.CANCELLED? then
              Apply(s, a).slot.slot.CANCELLED? && Apply(s, a).slot.winners == s.slot.winners
            else s.slot.winners == []
  {
    var s := Exec(Init(), acts);
    InvAlong(Init(), acts);
    StepProjects(s, a);
    if SlotPart(a) != [] {
      SlotWinnerStays(s.slot, SlotPart(a)[0]);
    }
  }

  lemma SlotWinnerStays(s: S.State, a: S.Action)
    requires S.CallsOk(s) && S.TaskOk(s) && S.Enabled(s, a)
    ensures if s.slot.CANCELLED? then S.Apply(s, a).slot.CANCELLED? && S.Apply(s, a).winners == s.winners
            else s.winners == []
  {
  }

  // ----- Accounting --------------------------------------------------------------------------

  /** A call in progress: whose it is, what it may do, and the run and the turns to come when it began. */
  datatype Call = Call(who: Actor, parts: set<Part>, before: seq<Action>, environment: seq<seq<Action>>)

  ghost predicate Permitted(a: Action, call: Call) {
    || PartOf(a) in call.parts
    || (ActorOf(a) != call.who && Offered(a, call.environment))
  }

  /** Every step since the call began is one of its own, or another actor's and on offer. */
  ghost predicate Accounted(trace: seq<Action>, call: Call)
    decreases |trace|
  {
    || trace == call.before
    || (trace != [] && Permitted(trace[|trace| - 1], call) && Accounted(trace[..|trace| - 1], call))
  }

  lemma {:induction false} AccountedMeans(trace: seq<Action>, call: Call)
    ensures Accounted(trace, call) <==>
              call.before <= trace && forall i | |call.before| <= i < |trace| :: Permitted(trace[i], call)
    decreases |trace|
  {
    if trace != [] {
      var front := trace[..|trace| - 1];
      AccountedMeans(front, call);
      assert forall i | 0 <= i < |front| :: front[i] == trace[i];
    }
  }

  /** A call that is left alone does everything itself. */
  lemma LeftAlone(trace: seq<Action>, call: Call)
    requires Accounted(trace, call) && call.environment == []
    ensures forall i | |call.before| <= i < |trace| :: PartOf(trace[i]) in call.parts
  {
    AccountedMeans(trace, call);
  }

  lemma AccountedLonger(trace: seq<Action>, a: Action, call: Call)
    requires Accounted(trace, call) && Permitted(a, call)
    ensures Accounted(trace + [a], call)
  {
    assert (trace + [a])[..|trace|] == trace;
  }

  /** What is left of the turns. */
  predicate Remains(left: seq<seq<Action>>, turns: seq<seq<Action>>) {
    left == turns || (turns != [] && Remains(left, turns[1..]))
  }

  lemma {:induction false} RemainsMeans(left: seq<seq<Action>>, turns: seq<seq<Action>>)
    requires Remains(left, turns)
    ensures forall turn <- left :: turn in turns
    ensures left != [] ==> Remains(left[1..], turns)
  {
    if left != turns {
      RemainsMeans(left, turns[1..]);
    } else if left != [] {
      assert Remains(left[1..], turns[1..]);
    }
  }

  lemma {:induction false} RemainsTwice(left: seq<seq<Action>>, middle: seq<seq<Action>>, turns: seq<seq<Action>>)
    requires Remains(left, middle) && Remains(middle, turns)
    ensures Remains(left, turns)
    decreases turns
  {
    if middle != turns {
      RemainsTwice(left, middle, turns[1..]);
    }
  }

  /** A call within a call. */
  lemma AccountedWithin(trace: seq<Action>, outer: Call, inner: Call)
    requires Accounted(inner.before, outer) && Accounted(trace, inner)
    requires inner.who == outer.who && inner.parts <= outer.parts && Remains(inner.environment, outer.environment)
    ensures Accounted(trace, outer)
  {
    AccountedMeans(inner.before, outer);
    AccountedMeans(trace, inner);
    AccountedMeans(trace, outer);
    RemainsMeans(inner.environment, outer.environment);
    forall i | |outer.before| <= i < |trace| ensures Permitted(trace[i], outer) {
      if i < |inner.before| {
        assert trace[i] == inner.before[i];
      } else if Offered(trace[i], inner.environment) {
        var turn :| turn in inner.environment && trace[i] in turn;
      }
    }
  }

  /** `TaskHandle::drop` is two calls. */
  lemma AccountedTwice(trace: seq<Action>, first: Call, second: Call)
    requires Accounted(second.before, first) && Accounted(trace, second)
    requires first.who == second.who && Remains(second.environment, first.environment)
    ensures Accounted(trace, first.(parts := first.parts + second.parts))
  {
    var whole := first.(parts := first.parts + second.parts);
    AccountedMeans(second.before, first);
    AccountedMeans(second.before, whole);
    AccountedWithin(trace, whole, second);
  }

  /** What a call does not do, and the others have not in store, does not happen. */
  lemma StaysUncancelled(trace: seq<Action>, call: Call)
    requires CanRun(Init(), trace) && Accounted(trace, call) && NobodyCancels(call.environment)
    requires forall part <- call.parts :: !part.OfCancel?
    ensures CanRun(Init(), call.before)
    ensures Exec(Init(), trace).slot.slot.CANCELLED? ==> Exec(Init(), call.before).slot.slot.CANCELLED?
  {
    AccountedMeans(trace, call);
    Causes(call.before, trace);
  }

  lemma StaysUnpublished(trace: seq<Action>, call: Call)
    requires CanRun(Init(), trace) && Accounted(trace, call) && NobodyPublishes(call.environment)
    requires OfTask !in call.parts
    ensures CanRun(Init(), call.before)
    ensures J.Published(Exec(Init(), trace).join) ==> J.Published(Exec(Init(), call.before).join)
  {
    AccountedMeans(trace, call);
    Causes(call.before, trace);
  }

  lemma StaysLive(trace: seq<Action>, call: Call)
    requires CanRun(Init(), trace) && Accounted(trace, call) && NobodyDrops(call.environment)
    requires OfHandle !in call.parts
    ensures CanRun(Init(), call.before)
    ensures J.Live(Exec(Init(), call.before).join) ==> J.Live(Exec(Init(), trace).join)
  {
    AccountedMeans(trace, call);
    Causes(call.before, trace);
  }

  // ----- Other users -------------------------------------------------------------------------

  /** Of the steps in a turn, those that others can take, each when its time comes. */
  function Intrusions(s: State, turn: seq<Action>, who: Actor): seq<Action>
    decreases turn
  {
    if turn == [] then []
    else if ActorOf(turn[0]) != who && Enabled(s, turn[0]) then
      [turn[0]] + Intrusions(Apply(s, turn[0]), turn[1..], who)
    else Intrusions(s, turn[1..], who)
  }

  /** Whatever the others could do in between they do, if their turn says so. */
  lemma {:induction false} EveryTurnIsTaken(s: State, turn: seq<Action>, who: Actor)
    requires CanRun(s, turn) && forall a <- turn :: ActorOf(a) != who
    ensures Intrusions(s, turn, who) == turn
    decreases turn
  {
    if turn == [] {
    } else {
      assert ActorOf(turn[0]) != who;
      EveryTurnIsTaken(Apply(s, turn[0]), turn[1..], who);
    }
  }
}
