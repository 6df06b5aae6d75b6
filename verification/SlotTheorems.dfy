/** What the cancellation slot guarantees over every run, with any number of cancellers. */
module SlotTheorems {
  import opened Base
  import opened Heap
  import opened WakerSlot

  lemma Reachable(acts: seq<Action>)
    requires CanRun(Init(), acts)
    ensures Inv(Exec(Init(), acts))
  {
    InvAlong(Init(), acts);
  }

  /**
    Every live box has exactly one owner among the task, a local of `update`, the slot and
    the winning canceller, and no dead box is ever touched.
  */
  lemma BoxesOwnedOnce(acts: seq<Action>)
    requires CanRun(Init(), acts)
    ensures var s := Exec(Init(), acts);
            && !s.memory.fault
            && s.memory.live.Keys == InTask(s) + InUpdate(s) + InSlot(s) + InWinner(s)
            && InTask(s) !! InUpdate(s) !! InSlot(s) !! InWinner(s)
  {
    Reachable(acts);
  }

  /** However often the task is polled, it allocates at most two boxes. */
  lemma TwoBoxesAtMost(acts: seq<Action>)
    requires CanRun(Init(), acts)
    ensures Exec(Init(), acts).memory.allocs <= 2
  {
    Reachable(acts);
  }

  lemma ReclaimedEmpty(s: State)
    requires Inv(s) && s.reclaimed
    ensures s.memory.live == map[]
  {
    assert s.memory.live.Keys == {};
  }

  /** No box is freed twice, and once the slot itself is gone every box has been freed. */
  lemma FreedExactlyOnce(acts: seq<Action>)
    requires CanRun(Init(), acts)
    ensures var s := Exec(Init(), acts);
            && (forall i, j | 0 <= i < j < |s.memory.freed| :: s.memory.freed[i] != s.memory.freed[j])
            && (s.reclaimed ==>
                  s.memory.live == map[] && forall k: nat :: k < s.memory.allocs <==> k in s.memory.freed)
  {
    var s := Exec(Init(), acts);
    Reachable(acts);
    SerialsAlong(Init(), acts);
    if s.reclaimed {
      ReclaimedEmpty(s);
      AllFreed(s.memory);
    }
  }

  /**
    No lost cancel wakeup: the slot's box holds the latest waker registered, recycled or
    not; once CANCELLED, that waker has been woken, exactly once and no other with it, or
    is in the hands of the winner.
  */
  lemma LatestWakerReached(acts: seq<Action>)
    requires CanRun(Init(), acts)
    ensures var s := Exec(Init(), acts);
            && (s.slot.Pointer? && !s.reclaimed ==>
                  s.stored.Some? && Content(s.memory, s.slot.address) == s.stored)
            && (s.slot.CANCELLED? && s.stored.Some? ==>
                  || s.woken == [s.stored.value]
                  || (s.woken == [] && exists p <- InWinner(s) :: Content(s.memory, p) == s.stored))
            && (!s.slot.CANCELLED? || s.stored.None? ==> s.woken == [])
  {
    Reachable(acts);
    var s := Exec(Init(), acts);
    if s.slot.CANCELLED? && s.stored.Some? && s.woken == [] {
      var p := s.calls[s.winners[0]].found.address;
      assert p in InWinner(s);
    }
  }

  /** CANCELLED has one winner, whatever the number of callers. */
  lemma OneWinner(acts: seq<Action>)
    requires CanRun(Init(), acts)
    ensures var s := Exec(Init(), acts);
            && |s.winners| == (if s.slot.CANCELLED? then 1 else 0)
            && forall c, d | c in s.calls && d in s.calls && s.calls[c].CancelWon? && s.calls[d].CancelWon? :: c == d
  {
    Reachable(acts);
  }

  /** CANCELLED is absorbing: nobody wins again and no `update` succeeds again. */
  lemma {:induction false} CancelledIsAbsorbing(s: State, acts: seq<Action>)
    requires Inv(s) && s.slot.CANCELLED? && CanRun(s, acts)
    ensures var t := Exec(s, acts);
            t.slot.CANCELLED? && t.winners == s.winners && t.updates == s.updates && t.stored == s.stored
    decreases acts
  {
    if acts == [] {
    } else {
      InvPreserved(s, acts[0]);
      CancelledIsAbsorbing(Apply(s, acts[0]), acts[1..]);
    }
  }

  /** The slot is CANCELLED, or this caller is inside a call of `cancel`. */
  predicate Cancelling(s: State, caller: Caller) {
    s.slot.CANCELLED? || (caller in s.calls && !s.calls[caller].CancelIdle?)
  }

  /** A call of `cancel` is in flight from its first step until the slot is CANCELLED. */
  lemma CancellingStays(s: State, caller: Caller, a: Action)
    requires Inv(s) && Enabled(s, a)
    requires Cancelling(s, caller) || a == CancelLoad(caller)
    ensures Cancelling(Apply(s, a), caller)
  {
  }

  /** So when it returns, whoever won, the slot is CANCELLED. */
  lemma {:induction false} CancelReturnsCancelled(s: State, caller: Caller, acts: seq<Action>)
    requires Inv(s) && CanRun(s, acts)
    requires Cancelling(s, caller) || CancelLoad(caller) in acts
    ensures Cancelling(Exec(s, acts), caller)
    decreases acts
  {
    if acts == [] {
    } else {
      InvPreserved(s, acts[0]);
      if Cancelling(s, caller) || acts[0] == CancelLoad(caller) {
        CancellingStays(s, caller, acts[0]);
      }
      CancelReturnsCancelled(Apply(s, acts[0]), caller, acts[1..]);
    }
  }

  /**
    `update` loses at most one compare-exchange; a `cancel` loses at most one for each
    `update` that succeeded during the call, and one more to another canceller.
  */
  lemma FailuresBounded(acts: seq<Action>)
    requires CanRun(Init(), acts)
    ensures var s := Exec(Init(), acts);
            && (s.update.UpdateLoaded? ==> s.update.failures <= 1)
            && forall c <- s.calls :: s.calls[c].CancelLoaded? ==>
                 s.calls[c].failures <= s.updates - s.calls[c].since + 1
  {
    Reachable(acts);
  }

  // ----- Pointers do come back -------------------------------------------------------------

  /** A whole poll's worth of steps, undisturbed. */
  function Register(reg: Registration, address: Address): seq<Action> {
    [MakeBox(reg, address), UpdateLoad, UpdateTry, UpdateEnd]
  }

  lemma RegisterRuns(s: State, reg: Registration, address: Address)
    requires s.taskHolds && s.update.UpdateIdle? && !s.slot.CANCELLED?
    requires if s.kept.Some? then s.kept.value == address && address in s.memory.live
             else address !in s.memory.live
    ensures CanRun(s, Register(reg, address))
    ensures var t := Exec(s, Register(reg, address));
            && t.slot == Pointer(address) && t.stored == Some(reg) && t.calls == s.calls && t.woken == s.woken
            && t.kept == (if s.slot.Pointer? then Some(s.slot.address) else None)
            && t.taskHolds && t.update.UpdateIdle? && Content(t.memory, address) == Some(reg)
            && t.memory.live.Keys == s.memory.live.Keys + {address}
  {
    var acts := Register(reg, address);
    var s1 := ApplyMakeBox(s, reg, address);
    var s2 := ApplyUpdateLoad(s1);
    var s3 := ApplyUpdateTry(s2);
    var s4 := ApplyUpdateEnd(s3);
    RunInFront(s3, [UpdateEnd], s4, []);
    RunInFront(s2, [UpdateTry], s3, [UpdateEnd] + []);
    RunInFront(s1, [UpdateLoad], s2, [UpdateTry] + ([UpdateEnd] + []));
    RunInFront(s, [MakeBox(reg, address)], s1, [UpdateLoad] + ([UpdateTry] + ([UpdateEnd] + [])));
    assert acts == [MakeBox(reg, address)] + ([UpdateLoad] + ([UpdateTry] + ([UpdateEnd] + [])));
  }

  /**
    The slot is not free of ABA, and need not be. In this run from the start a canceller
    loads the pointer of the first registration, sees it leave the slot for the second and
    return with the third, and can then win on it without losing a compare-exchange. The
    box it takes is the one stored last.
  */
  lemma PointerReturns(first: Registration, second: Registration, third: Registration)
    ensures var before := Register(first, 0) + [CancelLoad(JOINER)];
            var acts := Register(second, 1) + Register(third, 0);
            && CanRun(Init(), before) && CanRun(Exec(Init(), before), acts)
            && var s := Exec(Init(), before);
               var t := Exec(s, acts);
               && s.stored == Some(first) && s.calls == map[JOINER := CancelLoaded(Pointer(0), 0, s.updates)]
               && t.stored == Some(third) && t.calls == s.calls
               && ApplyCancelTry(t, JOINER).calls[JOINER] == CancelWon(Pointer(0))
               && Content(t.memory, 0) == Some(third)
  {
    LoadedAfterFirst(first);
    RegisteredTwice(Exec(Init(), Register(first, 0) + [CancelLoad(JOINER)]), second, third);
  }

  lemma LoadedAfterFirst(first: Registration)
    ensures var before := Register(first, 0) + [CancelLoad(JOINER)];
            && CanRun(Init(), before)
            && var s := Exec(Init(), before);
               && s.stored == Some(first) && s.calls == map[JOINER := CancelLoaded(Pointer(0), 0, s.updates)]
               && s.slot == Pointer(0) && s.kept.None? && s.taskHolds && s.update.UpdateIdle?
               && s.memory.live.Keys == {0}
  {
    RegisterRuns(Init(), first, 0);
    var s := Exec(Init(), Register(first, 0));
    assert s.calls == map[JOINER := CancelIdle];
    var t := ApplyCancelLoad(s, JOINER);
    RunInFront(s, [CancelLoad(JOINER)], t, []);
    assert [CancelLoad(JOINER)] + [] == [CancelLoad(JOINER)];
    RunsJoin(Init(), Register(first, 0), [CancelLoad(JOINER)]);
  }

  lemma RegisteredTwice(s: State, second: Registration, third: Registration)
    requires s.taskHolds && s.update.UpdateIdle? && s.slot == Pointer(0) && s.kept.None?
    requires s.memory.live.Keys == {0}
    ensures var acts := Register(second, 1) + Register(third, 0);
            && CanRun(s, acts)
            && var t := Exec(s, acts);
               && t.slot == Pointer(0) && t.calls == s.calls && t.stored == Some(third)
               && Content(t.memory, 0) == Some(third)
  {
    RegisterRuns(s, second, 1);
    var t := Exec(s, Register(second, 1));
    RegisterRuns(t, third, 0);
    RunsJoin(s, Register(second, 1), Register(third, 0));
  }

  /**
    Where the box at p is, when the slot held it `updates - since` successful updates ago:
    in the slot at even counts; at odd ones with the task, as long as the task is there.
  */
  predicate Alternates(s: State, p: Address, since: nat) {
    && since <= s.updates
    && if (s.updates - since) % 2 == 0 then s.slot == Pointer(p)
       else s.slot != Pointer(p) && (s.taskHolds ==> p in InTask(s) + InUpdate(s))
  }

  lemma AlternatesStep(s: State, a: Action, p: Address, since: nat)
    requires Inv(s) && Enabled(s, a) && Alternates(s, p, since)
    ensures Apply(s, a).slot.CANCELLED? || Alternates(Apply(s, a), p, since)
  {
    match a
    case CancelTry(caller) =>
    case UpdateTry => UpdateTryAlternates(s, p, since);
    case _ => OtherStepAlternates(s, a, p, since);
  }

  lemma UpdateTryAlternates(s: State, p: Address, since: nat)
    requires OwnedOnce(s) && CallsOk(s) && TaskOk(s) && s.update.UpdateLoaded? && Alternates(s, p, since)
    ensures ApplyUpdateTry(s).slot.CANCELLED? || Alternates(ApplyUpdateTry(s), p, since)
  {
  }

  lemma OtherStepAlternates(s: State, a: Action, p: Address, since: nat)
    requires TaskOk(s) && Enabled(s, a) && !a.CancelTry? && !a.UpdateTry? && Alternates(s, p, since)
    ensures Alternates(Apply(s, a), p, since)
  {
  }

  predicate ReturnsOk(s: State) {
    forall c <- s.calls ::
      s.calls[c].CancelLoaded? && s.calls[c].current.Pointer? && s.calls[c].failures == 0 && !s.slot.CANCELLED? ==>
        Alternates(s, s.calls[c].current.address, s.calls[c].since)
  }

  /** A caller that is yet to lose or win had the same locals a step ago, or has just loaded. */
  lemma LoadedBefore(s: State, a: Action, caller: Caller)
    requires Enabled(s, a) && caller in Apply(s, a).calls
    requires Apply(s, a).calls[caller].CancelLoaded? && Apply(s, a).calls[caller].failures == 0
    ensures || (caller in s.calls && s.calls[caller] == Apply(s, a).calls[caller])
            || (a == CancelLoad(caller) && Apply(s, a).calls[caller] == CancelLoaded(s.slot, 0, s.updates))
  {
  }

  lemma ReturnsStep(s: State, a: Action)
    requires Inv(s) && ReturnsOk(s) && Enabled(s, a)
    ensures ReturnsOk(Apply(s, a))
  {
    var t := Apply(s, a);
    forall c <- t.calls |
      t.calls[c].CancelLoaded? && t.calls[c].current.Pointer? && t.calls[c].failures == 0 && !t.slot.CANCELLED?
      ensures Alternates(t, t.calls[c].current.address, t.calls[c].since)
    {
      LoadedBefore(s, a, c);
      if s.slot.CANCELLED? {
        CancelledStays(s, a);
      }
      if a != CancelLoad(c) {
        AlternatesStep(s, a, t.calls[c].current.address, t.calls[c].since);
      }
    }
  }

  lemma CancelledStays(s: State, a: Action)
    requires TaskOk(s) && s.slot.CANCELLED? && Enabled(s, a)
    ensures Apply(s, a).slot.CANCELLED?
  {
  }

  lemma {:induction false} ReturnsAlong(s: State, acts: seq<Action>)
    requires Inv(s) && ReturnsOk(s) && CanRun(s, acts)
    ensures ReturnsOk(Exec(s, acts))
    decreases acts
  {
    if acts == [] {
    } else {
      InvPreserved(s, acts[0]);
      ReturnsStep(s, acts[0]);
      ReturnsAlong(Apply(s, acts[0]), acts[1..]);
    }
  }

  /**
    Exactly when a pointer a canceller has loaded is back in the slot: when the number of
    successful updates since is even. So its first compare-exchange is won just then.
  */
  lemma PointerReturnsIff(acts: seq<Action>, caller: Caller, p: Address, since: nat)
    requires CanRun(Init(), acts)
    requires var s := Exec(Init(), acts);
             && !s.slot.CANCELLED? && caller in s.calls
             && s.calls[caller] == CancelLoaded(Pointer(p), 0, since)
    ensures var s := Exec(Init(), acts);
            && since <= s.updates
            && (s.slot == Pointer(p) <==> (s.updates - since) % 2 == 0)
            && (ApplyCancelTry(s, caller).calls[caller].CancelWon? <==> (s.updates - since) % 2 == 0)
  {
    ReturnsAlong(Init(), acts);
  }
}
