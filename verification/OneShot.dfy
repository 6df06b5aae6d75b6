/**
  The atomic one-shot cell that `Joint` implements: every event happens at one instant.
  A closed cell may still wake the waker that was waiting when it closed (a spurious wake).
*/
module OneShot {
  import opened Base

  datatype Cell =
    | Empty
    | Waiting(reg: Registration)
    | Done(outcome: Outcome)
    | Taken(outcome: Outcome)
    | Closed(residue: Option<Registration>)

  /** `owed` is a waker that completion has removed from the cell but not yet woken. */
  datatype State = State(
    cell: Cell,
    completed: bool,
    owed: Option<Registration>,
    woken: seq<Registration>)

  datatype Event =
    | Register(reg: Registration)
    | Complete(outcome: Outcome)
    | CompleteClosed(outcome: Outcome, wake: bool)
    | Fire
    | Take(outcome: Outcome)
    | Close

  function Init(): State {
    State(Empty, false, None, [])
  }

  predicate Enabled(s: State, e: Event) {
    match e
    case Register(_) => s.cell.Empty? || s.cell.Waiting?
    case Complete(_) => (s.cell.Empty? || s.cell.Waiting?) && !s.completed
    case CompleteClosed(_, wake) => s.cell.Closed? && !s.completed && (wake ==> s.cell.residue.Some?)
    case Fire => s.owed.Some?
    case Take(outcome) => s.cell == Done(outcome)
    case Close => !s.cell.Closed?
  }

  function Apply(s: State, e: Event): State
    requires Enabled(s, e)
  {
    match e
    case Register(reg) => s.(cell := Waiting(reg))
    case Complete(outcome) =>
      s.(cell := Done(outcome), completed := true, owed := if s.cell.Waiting? then Some(s.cell.reg) else None)
    case CompleteClosed(_, wake) =>
      s.(cell := Closed(None), completed := true, owed := if wake then s.cell.residue else None)
    case Fire => s.(owed := None, woken := s.woken + [s.owed.value])
    case Take(outcome) => s.(cell := Taken(outcome))
    case Close => s.(cell := Closed(if s.cell.Waiting? then Some(s.cell.reg) else None))
  }

  predicate CanRun(s: State, events: seq<Event>)
    decreases events
  {
    events == [] || (Enabled(s, events[0]) && CanRun(Apply(s, events[0]), events[1..]))
  }

  function Exec(s: State, events: seq<Event>): State
    requires CanRun(s, events)
    decreases events
  {
    if events == [] then s else Exec(Apply(s, events[0]), events[1..])
  }

  function Completions(events: seq<Event>): nat {
    if events == [] then 0
    else (if events[0].Complete? || events[0].CompleteClosed? then 1 else 0) + Completions(events[1..])
  }

  function Takes(events: seq<Event>): nat {
    if events == [] then 0 else (if events[0].Take? then 1 else 0) + Takes(events[1..])
  }

  predicate Takeable(s: State) {
    !s.completed || s.cell.Done?
  }

  lemma {:induction false} AtMostOnce(s: State, events: seq<Event>)
    requires CanRun(s, events) && (s.cell.Done? ==> s.completed)
    requires s.cell.Taken? ==> s.completed
    ensures Completions(events) <= if s.completed then 0 else 1
    ensures Takes(events) <= if Takeable(s) then 1 else 0
    decreases events
  {
    if events == [] {
    } else {
      AtMostOnce(Apply(s, events[0]), events[1..]);
    }
  }

  lemma {:induction false} TakenWasCompleted(s: State, events: seq<Event>, at: nat)
    requires CanRun(s, events) && at < |events| && events[at].Take?
    ensures || s.cell == Done(events[at].outcome)
            || exists i | 0 <= i < at :: events[i] == Complete(events[at].outcome)
    decreases events
  {
    if at > 0 {
      var t := Apply(s, events[0]);
      TakenWasCompleted(t, events[1..], at - 1);
      if t.cell == Done(events[at].outcome) {
        assert s.cell == t.cell || events[0] == Complete(events[at].outcome);
      } else {
        var i :| 0 <= i < at - 1 && events[1..][i] == Complete(events[at].outcome);
        assert events[i + 1] == Complete(events[at].outcome);
      }
    }
  }

  /**
    The cell is one-shot: one completion, one taking, and what is taken is what completed it
    before.
  */
  lemma IsOneShot(events: seq<Event>)
    requires CanRun(Init(), events)
    ensures Completions(events) <= 1 && Takes(events) <= 1
    ensures forall j | 0 <= j < |events| && events[j].Take? ::
              exists i | 0 <= i < j :: events[i] == Complete(events[j].outcome)
  {
    AtMostOnce(Init(), events);
    forall j | 0 <= j < |events| && events[j].Take?
      ensures exists i | 0 <= i < j :: events[i] == Complete(events[j].outcome)
    {
      TakenWasCompleted(Init(), events, j);
    }
  }
}
