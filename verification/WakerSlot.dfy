/**
  `Cancellation`: a lock-free slot holding null, a pointer to a boxed waker, or CANCELLED.
  One action is one load or compare-exchange of the slot, or one local step that touches
  the heap. Accesses interleave; boxes live in a heap whose addresses may be reused.
*/
module WakerSlot {
  import opened Base
  import opened Heap

  type Caller = nat

  /** The caller that holds the slot through the `JoinHandle`; clones get other names. */
  const JOINER: Caller := 0

  datatype Slot = Null | Pointer(address: Address) | CANCELLED

  /** Where the task is in the second half of `TaskFuture::poll`, around `update`. */
  datatype UpdatePc =
    | UpdateIdle
    | UpdateEntered(mine: Address)
    | UpdateLoaded(mine: Address, current: Slot, failures: nat)
    | UpdateAccepted(found: Slot)   // its compare-exchange succeeded
    | UpdateRejected                // returned Err

  /** Where one holder of the slot is in `cancel`. */
  datatype CancelPc =
    | CancelIdle
    | CancelLoaded(current: Slot, failures: nat, since: nat)
    | CancelWon(found: Slot)        // its compare-exchange succeeded

  datatype State = State(
    slot: Slot,
    memory: Memory,
    kept: Option<Address>,          // `TaskFuture::waker`
    update: UpdatePc,
    calls: map<Caller, CancelPc>,   // every holder other than the task
    taskHolds: bool,
    reclaimed: bool,                // `Cancellation::drop` has run
    // history
    stored: Option<Registration>,   // content of the box last put into the slot
    updates: nat,                   // successful compare-exchanges of `update`
    winners: seq<Caller>,           // successful compare-exchanges of `cancel`
    woken: seq<Registration>)       // wakers woken by `cancel`

  datatype Action =
    | MakeBox(reg: Registration, address: Address)
    | UpdateLoad
    | UpdateTry
    | UpdateEnd
    | TaskRelease
    | CancelLoad(caller: Caller)
    | CancelTry(caller: Caller)
    | CancelEnd(caller: Caller)
    | Clone(from: Caller, caller: Caller)
    | Release(caller: Caller)
    | Reclaim

  function Init(): State {
    State(Null, EMPTY, None, UpdateIdle, map[JOINER := CancelIdle], true, false, None, 0, [], [])
  }

  predicate Enabled(s: State, a: Action) {
    match a
    case MakeBox(_, address) =>
      && s.taskHolds && s.update.UpdateIdle?
      && (if s.kept.Some? then address == s.kept.value else address !in s.memory.live)
    case UpdateLoad => s.update.UpdateEntered?
    case UpdateTry => s.update.UpdateLoaded?
    case UpdateEnd => s.update.UpdateAccepted?
    case TaskRelease => s.taskHolds && (s.update.UpdateIdle? || s.update.UpdateRejected?)
    case CancelLoad(caller) => caller in s.calls && s.calls[caller].CancelIdle?
    case CancelTry(caller) => caller in s.calls && s.calls[caller].CancelLoaded?
    case CancelEnd(caller) => caller in s.calls && s.calls[caller].CancelWon?
    case Clone(from, caller) => from in s.calls && caller !in s.calls
    case Release(caller) => caller in s.calls && s.calls[caller].CancelIdle?
    case Reclaim => !s.taskHolds && s.calls == map[] && !s.reclaimed
  }

  function Apply(s: State, a: Action): State
    requires Enabled(s, a)
  {
    match a
    case MakeBox(reg, address) => ApplyMakeBox(s, reg, address)
    case UpdateLoad => ApplyUpdateLoad(s)
    case UpdateTry => ApplyUpdateTry(s)
    case UpdateEnd => ApplyUpdateEnd(s)
    case TaskRelease => ApplyTaskRelease(s)
    case CancelLoad(caller) => ApplyCancelLoad(s, caller)
    case CancelTry(caller) => ApplyCancelTry(s, caller)
    case CancelEnd(caller) => ApplyCancelEnd(s, caller)
    case Clone(_, caller) => s.(calls := s.calls[caller := CancelIdle])
    case Release(caller) => s.(calls := s.calls - {caller})
    case Reclaim => ApplyReclaim(s)
  }

  /** `task.waker.take()`: allocate the first time, write into the kept box afterwards. */
  function ApplyMakeBox(s: State, reg: Registration, address: Address): State {
    match s.kept
    case None => s.(memory := Allocate(s.memory, address, reg), update := UpdateEntered(address))
    case Some(mine) => s.(memory := Write(s.memory, mine, reg), kept := None, update := UpdateEntered(mine))
  }

  function ApplyUpdateLoad(s: State): State
    requires s.update.UpdateEntered?
  {
    s.(update := UpdateLoaded(s.update.mine, s.slot, 0))
  }

  /** One turn of the loop in `update`. */
  function ApplyUpdateTry(s: State): State
    requires s.update.UpdateLoaded?
  {
    var UpdateLoaded(mine, current, failures) := s.update;
    if current.CANCELLED? then
      s.(update := UpdateRejected, memory := Free(s.memory, mine))
    else if s.slot == current then
      s.(slot := Pointer(mine), update := UpdateAccepted(current), updates := s.updates + 1,
         stored := Content(s.memory, mine))
    else
      s.(update := UpdateLoaded(mine, s.slot, failures + 1))
  }

  /** `task.waker = waker`, with the box the slot gave back. */
  function ApplyUpdateEnd(s: State): State
    requires s.update.UpdateAccepted?
  {
    s.(update := UpdateIdle,
       kept := if s.update.found.Pointer? then Some(s.update.found.address) else None)
  }

  /** The fields of a dropped `TaskFuture`. */
  function ApplyTaskRelease(s: State): State {
    s.(taskHolds := false, kept := None,
       memory := if s.kept.Some? then Free(s.memory, s.kept.value) else s.memory)
  }

  function ApplyCancelLoad(s: State, caller: Caller): State {
    s.(calls := s.calls[caller := CancelLoaded(s.slot, 0, s.updates)])
  }

  /** One turn of the loop in `cancel`. */
  function ApplyCancelTry(s: State, caller: Caller): State
    requires caller in s.calls && s.calls[caller].CancelLoaded?
  {
    var CancelLoaded(current, failures, since) := s.calls[caller];
    if current.CANCELLED? then
      s.(calls := s.calls[caller := CancelIdle])
    else if s.slot == current then
      s.(slot := CANCELLED, calls := s.calls[caller := CancelWon(current)], winners := s.winners + [caller])
    else
      s.(calls := s.calls[caller := CancelLoaded(s.slot, failures + 1, since)])
  }

  /** The winner wakes the waker it found, if any, which consumes the box. */
  function ApplyCancelEnd(s: State, caller: Caller): State
    requires caller in s.calls && s.calls[caller].CancelWon?
  {
    var calls := s.calls[caller := CancelIdle];
    match s.calls[caller].found
    case Pointer(address) =>
      s.(calls := calls, memory := Free(s.memory, address),
         woken := s.woken + match Content(s.memory, address) case Some(reg) => [reg] case None => [])
    case _ => s.(calls := calls)
  }

  /** `Cancellation::drop`. */
  function ApplyReclaim(s: State): State {
    s.(reclaimed := true, memory := if s.slot.Pointer? then Free(s.memory, s.slot.address) else s.memory)
  }

  predicate CanRun(s: State, acts: seq<Action>)
    decreases acts
  {
    acts == [] || (Enabled(s, acts[0]) && CanRun(Apply(s, acts[0]), acts[1..]))
  }

  function Exec(s: State, acts: seq<Action>): State
    requires CanRun(s, acts)
    decreases acts
  {
    if acts == [] then s else Exec(Apply(s, acts[0]), acts[1..])
  }

  lemma {:induction false} RunsJoin(s: State, first: seq<Action>, second: seq<Action>)
    requires CanRun(s, first) && CanRun(Exec(s, first), second)
    ensures CanRun(s, first + second) && Exec(s, first + second) == Exec(Exec(s, first), second)
    decreases first
  {
    if first == [] {
      assert first + second == second;
    } else {
      assert (first + second)[1..] == first[1..] + second;
      RunsJoin(Apply(s, first[0]), first[1..], second);
    }
  }

  /** A run with nothing, or one step, put in front. */
  lemma RunInFront(s: State, front: seq<Action>, t: State, rest: seq<Action>)
    requires |front| <= 1 && CanRun(t, rest)
    requires if front == [] then t == s else Enabled(s, front[0]) && t == Apply(s, front[0])
    ensures CanRun(s, front + rest) && Exec(s, front + rest) == Exec(t, rest)
  {
    if front == [] {
      assert front + rest == rest;
    } else {
      assert (front + rest)[1..] == rest;
    }
  }

  // ----- Ownership of boxes --------------------------------------------------------------

  function InTask(s: State): set<Address> {
    if s.kept.Some? then {s.kept.value} else {}
  }

  /** The box a call of `update` has in a local variable. */
  function InUpdate(s: State): set<Address> {
    match s.update
    case UpdateEntered(mine) => {mine}
    case UpdateLoaded(mine, _, _) => {mine}
    case UpdateAccepted(Pointer(address)) => {address}
    case _ => {}
  }

  function InSlot(s: State): set<Address> {
    if s.slot.Pointer? && !s.reclaimed then {s.slot.address} else {}
  }

  /** The box the winning canceller has taken and not yet freed. */
  function InWinner(s: State): set<Address> {
    if |s.winners| == 1 && s.winners[0] in s.calls
       && s.calls[s.winners[0]].CancelWon? && s.calls[s.winners[0]].found.Pointer?
    then {s.calls[s.winners[0]].found.address} else {}
  }

  predicate OwnedOnce(s: State) {
    && s.memory.live.Keys == InTask(s) + InUpdate(s) + InSlot(s) + InWinner(s)
    && InTask(s) !! InUpdate(s) !! InSlot(s) !! InWinner(s)
    && !s.memory.fault
  }

  predicate CallsOk(s: State) {
    && (if s.slot.CANCELLED? then |s.winners| == 1 else s.winners == [])
    && (forall c <- s.calls :: s.calls[c].CancelWon? ==> s.winners == [c] && !s.calls[c].found.CANCELLED?)
    && (forall c <- s.calls :: s.calls[c].CancelLoaded? ==> LoadedOk(s, s.calls[c]))
    && (s.reclaimed ==> s.calls == map[] && !s.taskHolds)
  }

  /** How many compare-exchanges a call of `cancel` can have lost. */
  predicate LoadedOk(s: State, pc: CancelPc)
    requires pc.CancelLoaded?
  {
    && pc.since <= s.updates
    && (pc.current.CANCELLED? ==> s.slot.CANCELLED?)
    && pc.failures + (if pc.current == s.slot then 0 else 1)
       <= s.updates - pc.since + (if s.slot.CANCELLED? then 1 else 0)
  }

  predicate TaskOk(s: State) {
    && s.memory.allocs <= 2
    && (s.slot.Pointer? <==> !s.slot.CANCELLED? && s.stored.Some?)
    && (!s.taskHolds ==> s.kept.None? && (s.update.UpdateIdle? || s.update.UpdateRejected?))
    && match s.update
       case UpdateIdle =>
         s.taskHolds ==>
           if s.slot.CANCELLED? then s.kept.None? ==> s.memory.allocs <= 1
           else s.memory.allocs == (if s.slot.Pointer? then 1 else 0) + (if s.kept.Some? then 1 else 0)
                && (s.slot.Null? ==> s.kept.None?)
       case UpdateEntered(_) =>
         s.kept.None? && (!s.slot.CANCELLED? ==> s.memory.allocs == if s.slot.Pointer? then 2 else 1)
       case UpdateLoaded(_, current, failures) =>
         && s.kept.None? && (!s.slot.CANCELLED? ==> s.memory.allocs == if s.slot.Pointer? then 2 else 1)
         && (current == s.slot || s.slot.CANCELLED?)
         && (current.CANCELLED? || failures == 0) && failures <= 1
       case UpdateAccepted(found) =>
         && s.kept.None? && !found.CANCELLED? && s.stored.Some? && (found.Null? ==> s.memory.allocs <= 1)
         && (!s.slot.CANCELLED? ==> s.memory.allocs == if found.Pointer? then 2 else 1)
       case UpdateRejected =>
         s.kept.None? && s.slot.CANCELLED?
  }

  /** The box in the slot, or the one taken from it, holds the latest registered waker. */
  predicate WakeOk(s: State) {
    match s.slot
    case Null => s.woken == [] && s.stored.None?
    case Pointer(address) =>
      s.woken == [] && (!s.reclaimed ==> s.stored.Some? && s.stored == Content(s.memory, address))
    case CANCELLED =>
      if |s.winners| == 1 && s.winners[0] in s.calls && s.calls[s.winners[0]].CancelWon? then
        && s.woken == []
        && match s.calls[s.winners[0]].found
           case Null => s.stored.None?
           case Pointer(address) => s.stored.Some? && s.stored == Content(s.memory, address)
           case CANCELLED => false
      else s.woken == if s.stored.Some? then [s.stored.value] else []
  }

  predicate Inv(s: State) {
    OwnedOnce(s) && CallsOk(s) && TaskOk(s) && WakeOk(s)
  }

  lemma MakeBoxKeeps(s: State, reg: Registration, address: Address)
    requires Inv(s) && s.taskHolds && s.update.UpdateIdle? && (s.kept.None? ==> address !in s.memory.live)
    ensures Inv(ApplyMakeBox(s, reg, address))
  {
  }

  lemma UpdateLoadKeeps(s: State)
    requires Inv(s) && s.update.UpdateEntered?
    ensures Inv(ApplyUpdateLoad(s))
  {
  }

  lemma UpdateTryKeeps(s: State)
    requires Inv(s) && s.update.UpdateLoaded?
    ensures Inv(ApplyUpdateTry(s))
  {
  }

  lemma UpdateEndKeeps(s: State)
    requires Inv(s) && s.update.UpdateAccepted?
    ensures Inv(ApplyUpdateEnd(s))
  {
  }

  lemma TaskReleaseKeeps(s: State)
    requires Inv(s) && s.taskHolds && (s.update.UpdateIdle? || s.update.UpdateRejected?)
    ensures Inv(ApplyTaskRelease(s))
  {
  }

  lemma CancelLoadKeeps(s: State, caller: Caller)
    requires Inv(s) && caller in s.calls && s.calls[caller].CancelIdle?
    ensures Inv(ApplyCancelLoad(s, caller))
  {
  }

  lemma CancelTryKeepsOwned(s: State, caller: Caller)
    requires OwnedOnce(s) && CallsOk(s)
    requires caller in s.calls && s.calls[caller].CancelLoaded?
    ensures OwnedOnce(ApplyCancelTry(s, caller))
  {
  }

  lemma CancelTryKeepsWake(s: State, caller: Caller)
    requires CallsOk(s) && WakeOk(s)
    requires caller in s.calls && s.calls[caller].CancelLoaded?
    ensures WakeOk(ApplyCancelTry(s, caller))
  {
  }

  lemma CancelTryKeepsCalls(s: State, caller: Caller)
    requires CallsOk(s) && TaskOk(s)
    requires caller in s.calls && s.calls[caller].CancelLoaded?
    ensures CallsOk(ApplyCancelTry(s, caller)) && TaskOk(ApplyCancelTry(s, caller))
  {
  }

  lemma CancelEndKeeps(s: State, caller: Caller)
    requires Inv(s) && caller in s.calls && s.calls[caller].CancelWon?
    ensures Inv(ApplyCancelEnd(s, caller))
  {
  }

  lemma ReclaimKeeps(s: State)
    requires Inv(s) && !s.taskHolds && s.calls == map[] && !s.reclaimed
    ensures Inv(ApplyReclaim(s))
  {
  }

  lemma CloneKeeps(s: State, caller: Caller)
    requires Inv(s) && s.calls != map[] && caller !in s.calls
    ensures Inv(s.(calls := s.calls[caller := CancelIdle]))
  {
  }

  lemma ReleaseKeeps(s: State, caller: Caller)
    requires Inv(s) && caller in s.calls && s.calls[caller].CancelIdle?
    ensures Inv(s.(calls := s.calls - {caller}))
  {
  }

  lemma InvPreserved(s: State, a: Action)
    requires Inv(s) && Enabled(s, a)
    ensures Inv(Apply(s, a))
  {
    match a
    case MakeBox(reg, address) => MakeBoxKeeps(s, reg, address);
    case UpdateLoad => UpdateLoadKeeps(s);
    case UpdateTry => UpdateTryKeeps(s);
    case UpdateEnd => UpdateEndKeeps(s);
    case TaskRelease => TaskReleaseKeeps(s);
    case CancelLoad(caller) => CancelLoadKeeps(s, caller);
    case CancelTry(caller) =>
      CancelTryKeepsOwned(s, caller);
      CancelTryKeepsWake(s, caller);
      CancelTryKeepsCalls(s, caller);
    case CancelEnd(caller) => CancelEndKeeps(s, caller);
    case Clone(_, caller) => CloneKeeps(s, caller);
    case Release(caller) => ReleaseKeeps(s, caller);
    case Reclaim => ReclaimKeeps(s);
  }

  lemma MakeBoxKeepsSerials(s: State, reg: Registration, address: Address)
    requires SerialsOk(s.memory) && (s.kept.None? ==> address !in s.memory.live)
    ensures SerialsOk(ApplyMakeBox(s, reg, address).memory)
  {
    match s.kept
    case None => AllocateKeepsSerials(s.memory, address, reg);
    case Some(mine) => WriteKeepsSerials(s.memory, mine, reg);
  }

  lemma UpdateTryKeepsSerials(s: State)
    requires SerialsOk(s.memory) && s.update.UpdateLoaded?
    ensures SerialsOk(ApplyUpdateTry(s).memory)
  {
    FreeKeepsSerials(s.memory, s.update.mine);
  }

  lemma TaskReleaseKeepsSerials(s: State)
    requires SerialsOk(s.memory)
    ensures SerialsOk(ApplyTaskRelease(s).memory)
  {
    match s.kept
    case None =>
    case Some(mine) => FreeKeepsSerials(s.memory, mine);
  }

  lemma CancelEndKeepsSerials(s: State, caller: Caller)
    requires SerialsOk(s.memory) && caller in s.calls && s.calls[caller].CancelWon?
    ensures SerialsOk(ApplyCancelEnd(s, caller).memory)
  {
    match s.calls[caller].found
    case Pointer(address) => FreeKeepsSerials(s.memory, address);
    case _ =>
  }

  lemma ReclaimKeepsSerials(s: State)
    requires SerialsOk(s.memory)
    ensures SerialsOk(ApplyReclaim(s).memory)
  {
    match s.slot
    case Pointer(address) => FreeKeepsSerials(s.memory, address);
    case _ =>
  }

  /** The holders of cancel handles do not reach into the task or its `update`. */
  lemma HolderFrame(s: State, a: Action)
    requires Inv(s) && Enabled(s, a)
    requires !a.MakeBox? && !a.UpdateLoad? && !a.UpdateTry? && !a.UpdateEnd? && !a.TaskRelease?
    ensures var t := Apply(s, a);
            && t.update == s.update && t.kept == s.kept && t.taskHolds == s.taskHolds
            && t.stored == s.stored && t.updates == s.updates
            && (s.slot.CANCELLED? ==> t.slot.CANCELLED?)
            && (JOINER in s.calls && a != Release(JOINER) ==> JOINER in t.calls)
            && (s.update.UpdateEntered? || s.update.UpdateLoaded? ==>
                  Content(t.memory, s.update.mine) == Content(s.memory, s.update.mine))
  {
  }

  predicate TouchesHeap(a: Action) {
    a.MakeBox? || a.UpdateTry? || a.TaskRelease? || a.CancelEnd? || a.Reclaim?
  }

  lemma HeapUntouched(s: State, a: Action)
    requires Enabled(s, a) && !TouchesHeap(a)
    ensures Apply(s, a).memory == s.memory
  {
  }

  lemma SerialsPreserved(s: State, a: Action)
    requires SerialsOk(s.memory) && Enabled(s, a)
    ensures SerialsOk(Apply(s, a).memory)
  {
    match a
    case MakeBox(reg, address) => MakeBoxKeepsSerials(s, reg, address);
    case UpdateTry => UpdateTryKeepsSerials(s);
    case TaskRelease => TaskReleaseKeepsSerials(s);
    case CancelEnd(caller) => CancelEndKeepsSerials(s, caller);
    case Reclaim => ReclaimKeepsSerials(s);
    case _ => HeapUntouched(s, a);
  }

  lemma {:induction false} InvAlong(s: State, acts: seq<Action>)
    requires Inv(s) && CanRun(s, acts)
    ensures Inv(Exec(s, acts))
    decreases acts
  {
    if acts == [] {
    } else {
      InvPreserved(s, acts[0]);
      InvAlong(Apply(s, acts[0]), acts[1..]);
    }
  }

  lemma {:induction false} SerialsAlong(s: State, acts: seq<Action>)
    requires SerialsOk(s.memory) && CanRun(s, acts)
    ensures SerialsOk(Exec(s, acts).memory)
    decreases acts
  {
    if acts == [] {
    } else {
      SerialsPreserved(s, acts[0]);
      SerialsAlong(Apply(s, acts[0]), acts[1..]);
    }
  }
}
