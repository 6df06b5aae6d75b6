/**
  Any number of holders of the cancellation slot: clones keep it alive, all of them can
  contend for one waker, and all but one lose exactly once.
*/
module Cancellers {
  import opened Base
  import opened WakerSlot
  import ST = SlotTheorems
  import SP = SlotProgress
  import Heap

  // ----- Holding the slot --------------------------------------------------------------------

  lemma {:induction false} HolderStays(s: State, caller: Caller, acts: seq<Action>)
    requires CanRun(s, acts) && caller in s.calls && Release(caller) !in acts
    ensures caller in Exec(s, acts).calls
    decreases acts
  {
    if acts == [] {
    } else {
      assert acts[0] in acts;
      HolderStays(Apply(s, acts[0]), caller, acts[1..]);
    }
  }

  /** While anybody holds the slot it is not dropped, and the box in it, if any, is alive. */
  lemma HeldIsAlive(acts: seq<Action>, caller: Caller)
    requires CanRun(Init(), acts) && caller in Exec(Init(), acts).calls
    ensures var s := Exec(Init(), acts);
            && !s.reclaimed && !Enabled(s, Reclaim)
            && (s.slot.Pointer? ==> s.slot.address in s.memory.live)
  {
    ST.Reachable(acts);
  }

  /**
    A clone can be made whenever there is something to clone; until it is released it holds
    the slot, and can cancel whenever it is not doing so.
  */
  lemma CloneHolds(before: seq<Action>, from: Caller, caller: Caller, acts: seq<Action>)
    requires CanRun(Init(), before)
    requires var s := Exec(Init(), before); from in s.calls && caller !in s.calls
    ensures Enabled(Exec(Init(), before), Clone(from, caller))
    ensures var t := Apply(Exec(Init(), before), Clone(from, caller));
            CanRun(t, acts) && Release(caller) !in acts ==>
              var u := Exec(t, acts);
              && caller in u.calls && !u.reclaimed && !Enabled(u, Reclaim)
              && (u.calls[caller].CancelIdle? ==> Enabled(u, CancelLoad(caller)))
  {
    var s := Exec(Init(), before);
    var t := Apply(s, Clone(from, caller));
    if CanRun(t, acts) && Release(caller) !in acts {
      HolderStays(t, caller, acts);
      RunInFront(s, [Clone(from, caller)], t, acts);
      RunsJoin(Init(), before, [Clone(from, caller)] + acts);
      HeldIsAlive(before + ([Clone(from, caller)] + acts), caller);
    }
  }

  // ----- Contention --------------------------------------------------------------------------

  /** Callers 0 to n - 1 hold the slot, and nobody else; the first k are at `pc`, the others idle. */
  ghost predicate Holding(calls: map<Caller, CancelPc>, n: nat, k: nat, pc: CancelPc) {
    && (forall c: Caller :: c in calls <==> c < n)
    && forall c <- calls :: calls[c] == if c < k then pc else CancelIdle
  }

  /** All of them have loaded the pointer that is in the slot. */
  ghost predicate Contending(s: State, n: nat, p: Heap.Address) {
    s.slot == Pointer(p) && Holding(s.calls, n, n, CancelLoaded(Pointer(p), 0, s.updates))
  }

  function Clones(n: nat): seq<Action> {
    if n <= 1 then [] else Clones(n - 1) + [Clone(JOINER, n - 1)]
  }

  function Loads(n: nat): seq<Action> {
    if n == 0 then [] else Loads(n - 1) + [CancelLoad(n - 1)]
  }

  lemma RunLonger(s: State, acts: seq<Action>, a: Action)
    requires CanRun(s, acts) && Enabled(Exec(s, acts), a)
    ensures CanRun(s, acts + [a]) && Exec(s, acts + [a]) == Apply(Exec(s, acts), a)
  {
    var t := Exec(s, acts);
    RunInFront(t, [a], Apply(t, a), []);
    assert [a] + [] == [a];
    RunsJoin(s, acts, [a]);
  }

  lemma {:induction false} ClonesRun(s: State, n: nat)
    requires n > 0 && s.calls == map[JOINER := CancelIdle]
    ensures CanRun(s, Clones(n))
    ensures var t := Exec(s, Clones(n));
            t == s.(calls := t.calls) && Holding(t.calls, n, 0, CancelIdle)
  {
    if n > 1 {
      ClonesRun(s, n - 1);
      RunLonger(s, Clones(n - 1), Clone(JOINER, n - 1));
    }
  }

  lemma {:induction false} LoadsRun(s: State, n: nat, k: nat)
    requires k <= n && Holding(s.calls, n, 0, CancelIdle)
    ensures CanRun(s, Loads(k))
    ensures var t := Exec(s, Loads(k));
            t == s.(calls := t.calls) && Holding(t.calls, n, k, CancelLoaded(s.slot, 0, s.updates))
  {
    if k > 0 {
      LoadsRun(s, n, k - 1);
      RunLonger(s, Loads(k - 1), CancelLoad(k - 1));
    }
  }

  /** Any number of holders can contend. */
  lemma AnyNumberContend(n: nat, reg: Registration)
    requires n > 0
    ensures var acts := ST.Register(reg, 0) + Clones(n) + Loads(n);
            && CanRun(Init(), acts) && Contending(Exec(Init(), acts), n, 0)
            && Exec(Init(), acts).stored == Some(reg)
  {
    ST.RegisterRuns(Init(), reg, 0);
    var s := Exec(Init(), ST.Register(reg, 0));
    ClonesRun(s, n);
    RunsJoin(Init(), ST.Register(reg, 0), Clones(n));
    var t := Exec(s, Clones(n));
    LoadsRun(t, n, n);
    RunsJoin(Init(), ST.Register(reg, 0) + Clones(n), Loads(n));
  }

  function Tries(acts: seq<Action>, caller: Caller): nat {
    if acts == [] then 0 else (if acts[0] == CancelTry(caller) then 1 else 0) + Tries(acts[1..], caller)
  }

  /** What is left for a caller to do once the slot is CANCELLED. */
  function TriesLeft(pc: CancelPc): nat {
    match pc
    case CancelLoaded(current, _, _) => if current.CANCELLED? then 1 else 2
    case _ => 0
  }

  /** A losing caller after some of its steps: it loses one exchange, and then returns. */
  function AfterTries(pc: CancelPc, tries: nat): CancelPc
    requires !pc.CancelWon? && tries <= TriesLeft(pc)
  {
    if tries == 0 then pc
    else if tries < TriesLeft(pc) then CancelLoaded(CANCELLED, pc.failures + 1, pc.since)
    else CancelIdle
  }

  /**
    Once the slot is CANCELLED, a caller that loaded a pointer loses exactly one
    compare-exchange and returns at the next turn of its loop, whatever happens in between.
  */
  lemma {:induction false} LosesOnce(s: State, caller: Caller, acts: seq<Action>)
    requires Inv(s) && s.slot.CANCELLED? && caller in s.calls && !s.calls[caller].CancelWon?
    requires CanRun(s, acts) && CancelLoad(caller) !in acts && Release(caller) !in acts
    ensures caller in Exec(s, acts).calls && Tries(acts, caller) <= TriesLeft(s.calls[caller])
    ensures Exec(s, acts).calls[caller] == AfterTries(s.calls[caller], Tries(acts, caller))
    decreases acts
  {
    if acts == [] {
    } else {
      assert acts[0] in acts;
      InvPreserved(s, acts[0]);
      ST.CancelledStays(s, acts[0]);
      TryStep(s, caller, acts[0]);
      LosesOnce(Apply(s, acts[0]), caller, acts[1..]);
    }
  }

  lemma TryStep(s: State, caller: Caller, a: Action)
    requires s.slot.CANCELLED? && caller in s.calls && !s.calls[caller].CancelWon?
    requires Enabled(s, a) && a != CancelLoad(caller) && a != Release(caller)
    ensures var t := Apply(s, a);
            && caller in t.calls && (a == CancelTry(caller) ==> TriesLeft(s.calls[caller]) > 0)
            && t.calls[caller] == AfterTries(s.calls[caller], if a == CancelTry(caller) then 1 else 0)
  {
  }

  lemma FirstWins(s: State, n: nat, p: Heap.Address, winner: Caller)
    requires Inv(s) && Contending(s, n, p) && winner < n
    ensures Enabled(s, CancelTry(winner))
    ensures var t := Apply(s, CancelTry(winner));
            && Inv(t) && t.slot.CANCELLED? && t.calls == s.calls[winner := CancelWon(Pointer(p))]
            && t.winners == [winner] && t.stored == s.stored && s.stored.Some?
  {
    InvPreserved(s, CancelTry(winner));
  }

  /** They have run until nothing can move. */
  ghost predicate RunsToRest(s: State, acts: seq<Action>) {
    CanRun(s, acts) && (forall a <- acts :: SP.CarriesOn(a)) && SP.NothingToCarryOn(Exec(s, acts))
  }

  lemma Settled(s: State, acts: seq<Action>)
    requires Inv(s) && s.slot.CANCELLED? && RunsToRest(s, acts)
    ensures var u := Exec(s, acts);
            && u.winners == s.winners && u.calls.Keys == s.calls.Keys
            && (forall c <- u.calls :: u.calls[c].CancelIdle?)
            && u.woken == if s.stored.Some? then [s.stored.value] else []
  {
    SP.AllCallsReturn(s, acts);
    ST.CancelledIsAbsorbing(s, acts);
    HoldersSame(s, acts);
    InvAlong(s, acts);
  }

  lemma LosersTriedTwice(s: State, acts: seq<Action>, caller: Caller)
    requires Inv(s) && s.slot.CANCELLED? && RunsToRest(s, acts)
    requires caller in s.calls && s.calls[caller].CancelLoaded? && !s.calls[caller].current.CANCELLED?
    ensures Tries(acts, caller) == 2
  {
    LosesOnce(s, caller, acts);
    SP.AllCallsReturn(s, acts);
  }

  /**
    When n holders contend, any one of them can be the first; and then, however the rest is
    scheduled until all have returned, it alone has won, each of the others has lost exactly
    one exchange and seen CANCELLED at its second turn, and the waker stored last has been
    woken, once.
  */
  lemma OneWinsOthersLoseOnce(s: State, n: nat, p: Heap.Address, winner: Caller, acts: seq<Action>)
    requires Inv(s) && Contending(s, n, p) && winner < n
    requires Enabled(s, CancelTry(winner)) && RunsToRest(Apply(s, CancelTry(winner)), acts)
    ensures var u := Exec(Apply(s, CancelTry(winner)), acts);
            && u.winners == [winner] && s.stored.Some? && u.woken == [s.stored.value]
            && (forall c: Caller :: c in u.calls <==> c < n)
            && (forall c <- u.calls :: u.calls[c].CancelIdle?)
            && (forall c <- u.calls :: c != winner ==> Tries(acts, c) == 2)
  {
    FirstWins(s, n, p, winner);
    var t := Apply(s, CancelTry(winner));
    Settled(t, acts);
    forall c: Caller | c < n && c != winner ensures Tries(acts, c) == 2 {
      LosersTriedTwice(t, acts, c);
    }
  }

  lemma {:induction false} HoldersSame(s: State, acts: seq<Action>)
    requires CanRun(s, acts) && forall a <- acts :: SP.CarriesOn(a)
    ensures Exec(s, acts).calls.Keys == s.calls.Keys
    decreases acts
  {
    if acts == [] {
    } else {
      assert SP.CarriesOn(acts[0]);
      HoldersSame(Apply(s, acts[0]), acts[1..]);
    }
  }
}
