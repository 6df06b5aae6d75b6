/**
  `Joint<T>`: the one-shot result cell shared by a task and its join handle.
  One action is one atomic access (a load or store of `stage`, or one critical section of
  the `result` mutex) together with the local computation up to the next one.
*/
module JoinCell {
  import opened Base

  datatype Stage = Running | Finished | Detached

  datatype JoinResult =
    | Empty
    | Joining(reg: Registration)
    | Joined
    | Finished(outcome: Outcome)
    | Detached

  /** Where the task is inside `Joint::wake`. */
  datatype TaskPc =
    | WakeIdle                        // not called yet
    | WakeEntered(outcome: Outcome)   // about to load `stage`
    | WakeChecked(outcome: Outcome)   // loaded Running, about to swap `result`
    | WakeSwapped(found: JoinResult)    // swapped, about to store `stage`
    | WakeStored(found: JoinResult)     // about to act on what the swap returned
    | WakeSkipped                     // returned early: `stage` was not Running
    | WakeReturned
    | WakeBroken                      // reached `unreachable!`

  /** Where the owner of the handle is inside `JoinHandle::{poll, drop}`. */
  datatype HandlePc =
    | HandleIdle
    | PollEntered(reg: Registration)                       // about to load `stage`
    | PollFast(reg: Registration)                          // loaded Finished
    | PollFastSwapped(reg: Registration, found: JoinResult)
    | PollSlow(reg: Registration)                          // loaded something else
    | PollSlowSwapped(reg: Registration, found: JoinResult)
    | PollPanickedJoined
    | PollPanickedDetached
    | PollBroken                                           // reached `unreachable!`
    | DropStored                                           // stored `stage`, `result` still to come
    | HandleGone

  /**
    `stores` is the modification order of `stage`; a Relaxed load may return any entry
    that is not older than the last one its actor has read or written.
  */
  datatype State = State(
    stores: seq<Stage>,
    result: JoinResult,
    task: TaskPc,
    taskView: nat,
    handle: HandlePc,
    handleView: nat,
    // history
    given: Option<Outcome>,             // the argument of `wake`
    polls: nat,                         // calls of `JoinHandle::poll`
    registered: Option<Registration>,   // last waker a poll left behind when it found no result
    last: Option<Registration>,         // the latest poll's, once that poll has returned Pending
    delivered: seq<Outcome>,            // returned to the joiner as Ready
    dropped: seq<Outcome>,              // destroyed by `wake` or by the handle
    woken: seq<Registration>)           // wakers woken by `wake`

  datatype Action =
    | WakeCall(outcome: Outcome)
    | WakeLoad(at: nat)
    | WakeSwap
    | WakeStore
    | WakeEnd
    | PollCall(waker: Waker)
    | PollLoad(at: nat)
    | PollSwap
    | PollEnd
    | DropStore
    | DropOverwrite

  function Init(): State {
    State([Stage.Running], Empty, WakeIdle, 0, HandleIdle, 0, None, 0, None, None, [], [], [])
  }

  /** The outcome destroyed when a slot value is. */
  function Outcomes(r: JoinResult): seq<Outcome> {
    if r.Finished? then [r.outcome] else []
  }

  predicate Loadable(s: State, view: nat, at: nat) {
    view <= at < |s.stores|
  }

  /**
    What a single-handle client may do, and where each actor is in its program. A handle
    that returned Ready may be polled once more; one that panicked may only be dropped.
  */
  predicate Enabled(s: State, a: Action) {
    match a
    case WakeCall(_) => s.task.WakeIdle?
    case WakeLoad(at) => s.task.WakeEntered? && Loadable(s, s.taskView, at)
    case WakeSwap => s.task.WakeChecked?
    case WakeStore => s.task.WakeSwapped?
    case WakeEnd => s.task.WakeStored?
    case PollCall(_) => s.handle.HandleIdle?
    case PollLoad(at) => s.handle.PollEntered? && Loadable(s, s.handleView, at)
    case PollSwap => s.handle.PollFast? || s.handle.PollSlow?
    case PollEnd => s.handle.PollFastSwapped? || s.handle.PollSlowSwapped?
    case DropStore =>
      s.handle.HandleIdle? || s.handle.PollPanickedJoined?
      || s.handle.PollPanickedDetached? || s.handle.PollBroken?
    case DropOverwrite => s.handle.DropStored?
  }

  function Apply(s: State, a: Action): State
    requires Enabled(s, a)
  {
    match a
    case WakeCall(outcome) =>
      s.(task := WakeEntered(outcome), given := Some(outcome))
    case WakeLoad(at) =>
      if s.stores[at] == Stage.Running then
        s.(task := WakeChecked(s.task.outcome), taskView := at)
      else
        s.(task := WakeSkipped, taskView := at, dropped := s.dropped + [s.task.outcome])
    case WakeSwap =>
      s.(task := WakeSwapped(s.result), result := JoinResult.Finished(s.task.outcome))
    case WakeStore =>
      s.(task := WakeStored(s.task.found), taskView := |s.stores|, stores := s.stores + [Stage.Finished])
    case WakeEnd => EndWake(s)
    case PollCall(waker) =>
      s.(handle := PollEntered(Registration(waker, s.polls)), polls := s.polls + 1, last := None)
    case PollLoad(at) =>
      if s.stores[at] == Stage.Finished then
        s.(handle := PollFast(s.handle.reg), handleView := at)
      else
        s.(handle := PollSlow(s.handle.reg), handleView := at)
    case PollSwap =>
      if s.handle.PollFast? then
        s.(handle := PollFastSwapped(s.handle.reg, s.result), result := Joined)
      else
        s.(handle := PollSlowSwapped(s.handle.reg, s.result),
           result := Joining(s.handle.reg),
           registered := if s.result.Empty? || s.result.Joining? then Some(s.handle.reg) else s.registered)
    case PollEnd =>
      if s.handle.PollFastSwapped? then EndFastPoll(s) else EndSlowPoll(s)
    case DropStore =>
      s.(handle := DropStored, handleView := |s.stores|, stores := s.stores + [Stage.Detached], last := None)
    case DropOverwrite =>
      s.(handle := HandleGone, result := JoinResult.Detached, dropped := s.dropped + Outcomes(s.result))
  }

  /** `match result` at the end of `wake`. */
  function EndWake(s: State): State
    requires s.task.WakeStored?
  {
    match s.task.found
    case Empty => s.(task := WakeReturned)
    case Joining(reg) => s.(task := WakeReturned, woken := s.woken + [reg])
    case Finished(_) => s.(task := WakeBroken, dropped := s.dropped + Outcomes(s.task.found))
    case Joined => s.(task := WakeBroken)
    case Detached =>
      s.(task := WakeReturned, result := JoinResult.Detached, dropped := s.dropped + Outcomes(s.result))
  }

  function EndFastPoll(s: State): State
    requires s.handle.PollFastSwapped?
  {
    match s.handle.found
    case Finished(outcome) => s.(handle := HandleIdle, delivered := s.delivered + [outcome])
    case Joined => s.(handle := PollPanickedJoined)
    case Detached => s.(handle := PollPanickedDetached)
    case _ => s.(handle := PollBroken)
  }

  function EndSlowPoll(s: State): State
    requires s.handle.PollSlowSwapped?
  {
    match s.handle.found
    case Finished(outcome) =>
      s.(handle := HandleIdle, result := Joined, delivered := s.delivered + [outcome],
         dropped := s.dropped + Outcomes(s.result))
    case Empty => s.(handle := HandleIdle, last := Some(s.handle.reg))
    case Joining(_) => s.(handle := HandleIdle, last := Some(s.handle.reg))
    case Joined => s.(handle := PollPanickedJoined)
    case Detached => s.(handle := PollPanickedDetached)
  }

  predicate CanRun(s: State, acts: seq<Action>)
    decreases acts
  {
    acts == [] || (Enabled(s, acts[0]) && CanRun(Apply(s, acts[0]), acts[1..]))
  }

  function Exec(s: State, acts: seq<Action>): State
    requires CanRun(s, acts)
    decreases acts
  {
    if acts == [] then s else Exec(Apply(s, acts[0]), acts[1..])
  }

  lemma {:induction false} RunsJoin(s: State, first: seq<Action>, second: seq<Action>)
    requires CanRun(s, first) && CanRun(Exec(s, first), second)
    ensures CanRun(s, first + second) && Exec(s, first + second) == Exec(Exec(s, first), second)
    decreases first
  {
    if first == [] {
      assert first + second == second;
    } else {
      assert (first + second)[1..] == first[1..] + second;
      RunsJoin(Apply(s, first[0]), first[1..], second);
    }
  }

  /** A run with nothing, or one step, put in front. */
  lemma RunInFront(s: State, front: seq<Action>, t: State, rest: seq<Action>)
    requires |front| <= 1 && CanRun(t, rest)
    requires if front == [] then t == s else Enabled(s, front[0]) && t == Apply(s, front[0])
    ensures CanRun(s, front + rest) && Exec(s, front + rest) == Exec(t, rest)
  {
    if front == [] {
      assert front + rest == rest;
    } else {
      assert (front + rest)[1..] == rest;
    }
  }

  // ----- Invariant ---------------------------------------------------------------------

  /** The handle's drop has not begun: it has not stored `stage`. */
  predicate Live(s: State) {
    !s.handle.DropStored? && !s.handle.HandleGone?
  }

  /** `wake` has put its outcome in the slot. */
  predicate Published(s: State) {
    s.task.WakeSwapped? || s.task.WakeStored? || s.task.WakeReturned?
  }

  predicate StoredFinished(s: State) {
    s.task.WakeStored? || s.task.WakeReturned? || s.task.WakeBroken?
  }

  /** The three values of `stage` in every order in which they can have been stored. */
  predicate StoresOk(s: State) {
    && s.taskView < |s.stores| && s.handleView < |s.stores|
    && if StoredFinished(s) then
         if Live(s) then s.stores == [Stage.Running, Stage.Finished]
         else || s.stores == [Stage.Running, Stage.Finished, Stage.Detached]
              || s.stores == [Stage.Running, Stage.Detached, Stage.Finished]
       else if Live(s) then s.stores == [Stage.Running]
       else s.stores == [Stage.Running, Stage.Detached]
  }

  /** What the slot holds before `wake` touches it. */
  function Waiting(s: State): JoinResult {
    match s.registered
    case None => Empty
    case Some(reg) => Joining(reg)
  }

  predicate TaskOk(s: State) {
    && (s.given.None? <==> s.task.WakeIdle?)
    && match s.task
       case WakeIdle => s.woken == []
       case WakeEntered(outcome) => s.woken == [] && s.given == Some(outcome)
       case WakeChecked(outcome) => s.woken == [] && s.given == Some(outcome)
       case WakeSwapped(found) =>
         s.woken == [] && (found == Waiting(s) || (found.Detached? && s.handle.HandleGone?))
       case WakeStored(found) =>
         s.woken == [] && (found == Waiting(s) || (found.Detached? && s.handle.HandleGone?))
       case WakeSkipped => s.woken == [] && !Live(s)
       case WakeReturned =>
         || (s.registered.Some? && s.woken == [s.registered.value])
         || (s.woken == [] && (s.registered.None? || s.handle.HandleGone?))
       case WakeBroken => false
  }

  /** The slot of a handle that has not been given the outcome. */
  predicate Unjoined(s: State)
    requires s.given.None? ==> s.task.WakeIdle?
  {
    && s.delivered == []
    && s.result == if Published(s) then JoinResult.Finished(s.given.value) else Waiting(s)
  }

  predicate HandleOk(s: State)
    requires s.given.None? ==> s.task.WakeIdle?
  {
    && (s.last.Some? ==> s.handle.HandleIdle? && s.last == s.registered && s.delivered == [])
    && (s.delivered == [] || (Published(s) && s.delivered == [s.given.value]))
    && match s.handle
       case HandleIdle =>
         if s.delivered == [] then Unjoined(s) && s.last == s.registered else s.result.Joined?
       case PollEntered(_) => if s.delivered == [] then Unjoined(s) else s.result.Joined?
       case PollSlow(_) => if s.delivered == [] then Unjoined(s) else s.result.Joined?
       case PollFast(_) => Published(s) && if s.delivered == [] then Unjoined(s) else s.result.Joined?
       case PollFastSwapped(_, found) =>
         && Published(s) && s.result.Joined?
         && found == if s.delivered == [] then JoinResult.Finished(s.given.value) else Joined
       case PollSlowSwapped(reg, found) =>
         if s.delivered != [] then found.Joined? && s.result == Joining(reg)
         else if found.Finished? then
           Published(s) && found.outcome == s.given.value && s.result == Joining(reg)
         else (found.Empty? || found.Joining?) && s.registered == Some(reg) && Unjoined(s)
       case PollPanickedJoined => s.delivered != [] && (s.result.Joined? || s.result.Joining?)
       case PollPanickedDetached => false
       case PollBroken => false
       case DropStored =>
         if s.delivered == [] then Unjoined(s) else s.result.Joined? || s.result.Joining?
       case HandleGone =>
         if (s.task.WakeSwapped? || s.task.WakeStored?) && s.task.found.Detached?
         then s.result == JoinResult.Finished(s.given.value)
         else s.result.Detached?
  }

  /** How many copies of the outcome exist or have ever left the protocol. */
  function Copies(s: State): nat {
    (if s.task.WakeEntered? || s.task.WakeChecked? then 1 else 0)
    + (if s.task.WakeSwapped? || s.task.WakeStored? then |Outcomes(s.task.found)| else 0)
    + |Outcomes(s.result)|
    + (if s.handle.PollFastSwapped? || s.handle.PollSlowSwapped? then |Outcomes(s.handle.found)| else 0)
    + |s.delivered|
    + |s.dropped|
  }

  predicate Conserved(s: State) {
    && Copies(s) == (if s.given.Some? then 1 else 0)
    && (s.dropped != [] ==> s.given.Some? && s.dropped == [s.given.value])
  }

  predicate Inv(s: State) {
    StoresOk(s) && TaskOk(s) && HandleOk(s) && Conserved(s)
  }

  lemma StoresPreserved(s: State, a: Action)
    requires StoresOk(s) && Enabled(s, a)
    ensures StoresOk(Apply(s, a))
  {
  }

  predicate ByHandle(a: Action) {
    a.PollCall? || a.PollLoad? || a.PollSwap? || a.PollEnd? || a.DropStore? || a.DropOverwrite?
  }

  lemma TaskPreservedByTask(s: State, a: Action)
    requires StoresOk(s) && TaskOk(s) && HandleOk(s) && Enabled(s, a) && !ByHandle(a)
    ensures TaskOk(Apply(s, a))
  {
  }

  lemma TaskPreservedByHandle(s: State, a: Action)
    requires TaskOk(s) && HandleOk(s) && Enabled(s, a) && ByHandle(a)
    ensures TaskOk(Apply(s, a))
  {
  }

  lemma HandlePreservedByTask(s: State, a: Action)
    requires StoresOk(s) && TaskOk(s) && HandleOk(s) && Enabled(s, a) && !ByHandle(a)
    ensures (Apply(s, a).given.None? ==> Apply(s, a).task.WakeIdle?) && HandleOk(Apply(s, a))
  {
  }

  lemma HandlePreservedByHandle(s: State, a: Action)
    requires StoresOk(s) && TaskOk(s) && HandleOk(s) && Enabled(s, a) && ByHandle(a)
    ensures HandleOk(Apply(s, a))
  {
  }

  lemma ConservedByTask(s: State, a: Action)
    requires TaskOk(s) && HandleOk(s) && Conserved(s) && Enabled(s, a) && !ByHandle(a)
    ensures Conserved(Apply(s, a))
  {
  }

  lemma ConservedByHandle(s: State, a: Action)
    requires TaskOk(s) && HandleOk(s) && Conserved(s) && Enabled(s, a) && ByHandle(a)
    ensures Conserved(Apply(s, a))
  {
  }

  lemma InvPreserved(s: State, a: Action)
    requires Inv(s) && Enabled(s, a)
    ensures Inv(Apply(s, a))
  {
    StoresPreserved(s, a);
    if ByHandle(a) {
      ConservedByHandle(s, a);
      TaskPreservedByHandle(s, a);
      HandlePreservedByHandle(s, a);
    } else {
      ConservedByTask(s, a);
      TaskPreservedByTask(s, a);
      HandlePreservedByTask(s, a);
    }
  }

  lemma {:induction false} InvAlong(s: State, acts: seq<Action>)
    requires Inv(s) && CanRun(s, acts)
    ensures Inv(Exec(s, acts))
    decreases acts
  {
    if acts == [] {
    } else {
      InvPreserved(s, acts[0]);
      InvAlong(Apply(s, acts[0]), acts[1..]);
    }
  }

  /** What a step of one side leaves alone on the other. */
  lemma Frame(s: State, a: Action)
    requires Enabled(s, a) && !a.WakeCall?
    ensures var t := Apply(s, a);
            && t.given == s.given && |t.stores| >= |s.stores|
            && (if ByHandle(a) then t.task == s.task && t.taskView == s.taskView
                else !t.task.WakeIdle? && !s.task.WakeIdle?)
            && (!ByHandle(a) ==>
                  && t.handle == s.handle && t.handleView == s.handleView
                  && t.polls == s.polls && t.last == s.last && t.delivered == s.delivered)
            && (s.handle.HandleGone? ==> t.handle.HandleGone?)
  {
  }

  lemma PublishedStays(s: State, a: Action)
    requires TaskOk(s) && Published(s) && Enabled(s, a)
    ensures Published(Apply(s, a)) && Apply(s, a).given == s.given
  {
  }
}
