/**
  The compare-exchange loops end: if no new call begins, the calls of `cancel` and `update`
  in flight take, together and however they interleave, a bounded number of steps.
*/
module SlotProgress {
  import opened WakerSlot
  import SlotTheorems

  /** The steps that carry on a call already begun. */
  predicate CarriesOn(a: Action) {
    a.UpdateLoad? || a.UpdateTry? || a.UpdateEnd? || a.CancelTry? || a.CancelEnd?
  }

  type Calls = map<Caller, CancelPc>

  ghost function Looping(calls: Calls): set<Caller> {
    set c | c in calls && calls[c].CancelLoaded?
  }

  /** The loops whose next compare-exchange is lost. */
  ghost function Stale(calls: Calls, slot: Slot): set<Caller> {
    set c | c in calls && calls[c].CancelLoaded? && calls[c].current != slot
  }

  ghost function Winning(calls: Calls): set<Caller> {
    set c | c in calls && calls[c].CancelWon?
  }

  ghost function CancelWork(calls: Calls, slot: Slot): nat {
    (if slot.CANCELLED? then 0 else |calls| + 2)
    + |Winning(calls)| + 2 * |Looping(calls)| + |Stale(calls, slot)|
  }

  function UpdateWork(s: State): nat {
    match s.update
    case UpdateEntered(_) => |s.calls| + 6
    case UpdateLoaded(_, current, _) => |s.calls| + (if current == s.slot then 4 else 5)
    case UpdateAccepted(_) => 1
    case _ => 0
  }

  /** A success makes every other loop stale, so it has to pay for all of them. */
  ghost function Work(s: State): nat {
    UpdateWork(s) + CancelWork(s.calls, s.slot)
  }

  lemma {:induction false} SubsetSize(a: set<Caller>, b: set<Caller>)
    requires a <= b
    ensures |a| <= |b|
  {
    if a == {} {
    } else {
      var x :| x in a;
      SubsetSize(a - {x}, b - {x});
    }
  }

  lemma UpdateStepPays(s: State, a: Action)
    requires Enabled(s, a) && (a.UpdateLoad? || a.UpdateTry? || a.UpdateEnd?)
    ensures Work(Apply(s, a)) < Work(s)
  {
    SubsetSize(Stale(s.calls, Apply(s, a).slot), s.calls.Keys);
  }

  /** Returning or retrying: the caller's own share of the work shrinks. */
  lemma RetryPays(calls: Calls, slot: Slot, caller: Caller, pc: CancelPc)
    requires caller in calls && calls[caller].CancelLoaded?
    requires pc.CancelIdle? || (calls[caller].current != slot && pc.CancelLoaded? && pc.current == slot)
    ensures var after := calls[caller := pc];
            |after| == |calls| && CancelWork(after, slot) < CancelWork(calls, slot)
  {
    var after := calls[caller := pc];
    assert after.Keys == calls.Keys;
    assert Winning(after) == Winning(calls);
    assert Looping(after) == if pc.CancelIdle? then Looping(calls) - {caller} else Looping(calls);
    assert Stale(after, slot) == Stale(calls, slot) - {caller};
  }

  /** Winning: every other loop may become stale, and the slot is never won again. */
  lemma WinPays(calls: Calls, slot: Slot, caller: Caller)
    requires caller in calls && calls[caller].CancelLoaded? && !slot.CANCELLED?
    ensures var after := calls[caller := CancelWon(slot)];
            |after| == |calls| && CancelWork(after, CANCELLED) + 2 < CancelWork(calls, slot)
  {
    var after := calls[caller := CancelWon(slot)];
    assert after.Keys == calls.Keys;
    assert Winning(after) == Winning(calls) + {caller};
    assert Looping(after) == Looping(calls) - {caller};
    SubsetSize(Stale(after, CANCELLED), calls.Keys - {caller});
  }

  lemma CancelTryPays(s: State, caller: Caller)
    requires caller in s.calls && s.calls[caller].CancelLoaded?
    ensures Work(ApplyCancelTry(s, caller)) < Work(s)
  {
    var CancelLoaded(current, failures, since) := s.calls[caller];
    if current.CANCELLED? {
      RetryPays(s.calls, s.slot, caller, CancelIdle);
    } else if s.slot == current {
      WinPays(s.calls, s.slot, caller);
    } else {
      RetryPays(s.calls, s.slot, caller, CancelLoaded(s.slot, failures + 1, since));
    }
  }

  lemma CancelEndPays(s: State, caller: Caller)
    requires caller in s.calls && s.calls[caller].CancelWon?
    ensures Work(ApplyCancelEnd(s, caller)) < Work(s)
  {
    var after := s.calls[caller := CancelIdle];
    assert after.Keys == s.calls.Keys;
    assert Winning(after) == Winning(s.calls) - {caller};
    assert Looping(after) == Looping(s.calls) && Stale(after, s.slot) == Stale(s.calls, s.slot);
  }

  /** No interleaving of the calls in flight is longer than the work there is. */
  lemma {:induction false} LoopsEnd(s: State, acts: seq<Action>)
    requires CanRun(s, acts) && forall a <- acts :: CarriesOn(a)
    ensures |acts| + Work(Exec(s, acts)) <= Work(s)
    decreases acts
  {
    if acts == [] {
    } else {
      var a := acts[0];
      assert a in acts;
      match a {
        case CancelTry(caller) => CancelTryPays(s, caller);
        case CancelEnd(caller) => CancelEndPays(s, caller);
        case _ => UpdateStepPays(s, a);
      }
      LoopsEnd(Apply(s, a), acts[1..]);
    }
  }

  ghost predicate NothingToCarryOn(s: State) {
    forall a :: CarriesOn(a) ==> !Enabled(s, a)
  }

  /**
    So if the calls in flight are run for as long as any of them can move, in any order,
    that ends within the work there was; all of them have then returned, and if one of them
    was a `cancel` the slot is CANCELLED.
  */
  lemma AllCallsReturn(s: State, acts: seq<Action>)
    requires Inv(s) && CanRun(s, acts) && forall a <- acts :: CarriesOn(a)
    requires NothingToCarryOn(Exec(s, acts))
    ensures var t := Exec(s, acts);
            && |acts| <= Work(s)
            && (forall c <- t.calls :: t.calls[c].CancelIdle?)
            && (t.update.UpdateIdle? || t.update.UpdateRejected?)
            && ((exists c <- s.calls :: !s.calls[c].CancelIdle?) ==> t.slot.CANCELLED?)
  {
    LoopsEnd(s, acts);
    var t := Exec(s, acts);
    forall c <- t.calls ensures t.calls[c].CancelIdle? {
      assert CarriesOn(CancelTry(c)) && CarriesOn(CancelEnd(c));
    }
    assert CarriesOn(UpdateLoad) && CarriesOn(UpdateTry) && CarriesOn(UpdateEnd);
    if c :| c in s.calls && !s.calls[c].CancelIdle? {
      SlotTheorems.CancelReturnsCancelled(s, c, acts);
    }
  }
}
