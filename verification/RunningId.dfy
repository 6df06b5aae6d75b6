/**
  Task ids: the counter they come from, and the thread-local `RUNNING_ID` that nested polls
  save and restore, whether they return or unwind.
*/
module RunningId {
  import opened Base

  /** `RawId`; 0 stands for no task. */
  type RawId = nat

  const WORD: nat := 0x1_0000_0000_0000_0000

  // ----- Where ids come from -----------------------------------------------------------------

  /** The id of the n-th task spawned in a process, counting from 0. */
  function IdOf(n: nat): RawId {
    (1 + n) % WORD
  }

  class IdCounter {
    var next: RawId
    ghost var issued: nat

    ghost predicate Valid()
      reads this
    {
      next == IdOf(issued)
    }

    constructor ()
      ensures Valid() && issued == 0
    {
      next, issued := 1, 0;
    }

    /** `RawId::next`: `fetch_add` wraps around. */
    method Next() returns (id: RawId)
      requires Valid()
      modifies this
      ensures Valid() && issued == old(issued) + 1 && id == IdOf(old(issued))
    {
      id := next;
      next := if next == WORD - 1 then 0 else next + 1;
      issued := issued + 1;
    }
  }

  /** The ids are 1, 2, 3 and so on, up to the largest word; the one after that is 0. */
  lemma IdsCountUp(n: nat)
    ensures n < 0xFFFF_FFFF_FFFF_FFFF ==> IdOf(n) == n + 1
    ensures IdOf(0xFFFF_FFFF_FFFF_FFFF) == 0
    ensures IdOf(n + 0x1_0000_0000_0000_0000) == IdOf(n)
  {
    assert (1 + n + WORD) % WORD == (1 + n) % WORD;
  }

  predicate UsableIds(n: nat) {
    && (forall i: nat | i < n :: IdOf(i) != 0)
    && (forall i: nat, j: nat | i < j < n :: IdOf(i) != IdOf(j))
  }

  /** Ids are nonzero and distinct for exactly the first 2^64 - 1 tasks. */
  lemma IdsUsableIff(n: nat)
    ensures UsableIds(n) <==> n <= WORD - 1
  {
    if n <= WORD - 1 {
      forall i: nat | i < n ensures IdOf(i) == 1 + i {}
    } else {
      assert IdOf(WORD - 1) == 0;
    }
  }

  /**
    So which tasks share an id, and which has none: two tasks can be confused only if at
    least 2^64 - 1 others were spawned between them.
  */
  lemma SameIdIff(i: nat, j: nat)
    requires i <= j
    ensures IdOf(i) == IdOf(j) <==> (j - i) % WORD == 0
    ensures IdOf(i) == 0 <==> (i + 1) % WORD == 0
    ensures i < j && IdOf(i) == IdOf(j) ==> j - i >= WORD
  {
  }

  // ----- Nested polls ------------------------------------------------------------------------

  /**
    What a poll does, as far as ids are concerned: it looks at the current id, polls other
    futures that carry an id (through `TaskFuture`, which catches panics, or bare), or
    panics.
  */
  datatype Step =
    | Observe
    | Panic
    | Poll(id: RawId, catches: bool, body: seq<Step>)

  function Reported(id: RawId): Option<RawId> {
    if id == 0 then None else Some(id)
  }

  /** Whether the steps end in a panic that nothing among them catches. */
  predicate Panics(body: seq<Step>)
    decreases body
  {
    body != [] && (StepPanics(body[0]) || Panics(body[1..]))
  }

  predicate StepPanics(step: Step)
    decreases step
  {
    match step
    case Observe => false
    case Panic => true
    case Poll(_, catches, body) => !catches && Panics(body)
  }

  /** What each observation made must report: the innermost poll around it. */
  function Lexical(body: seq<Step>, enclosing: RawId): seq<Option<RawId>>
    decreases body
  {
    if body == [] then []
    else LexicalStep(body[0], enclosing)
         + (if StepPanics(body[0]) then [] else Lexical(body[1..], enclosing))
  }

  function LexicalStep(step: Step, enclosing: RawId): seq<Option<RawId>>
    decreases step
  {
    match step
    case Observe => [Reported(enclosing)]
    case Panic => []
    case Poll(id, _, body) => Lexical(body, id)
  }

  class ThreadLocals {
    var running: RawId
    var reports: seq<Option<RawId>>   // what `try_id` has returned

    constructor ()
      ensures running == 0 && reports == []
    {
      running, reports := 0, [];
    }

    /** `RawId::run` */
    method Run(id: RawId) returns (previous: RawId)
      modifies this`running
      ensures running == id && previous == old(running)
    {
      previous := running;
      running := id;
    }

    /** `try_id` */
    method TryId()
      modifies this`reports
      ensures reports == old(reports) + [Reported(running)]
    {
      reports := reports + [if running == 0 then None else Some(running)];
    }

    /** `IdFuture::poll`: the scope is left on return and on unwinding alike. */
    method PollFuture(id: RawId, body: seq<Step>) returns (panicked: bool)
      modifies this
      ensures running == old(running) && panicked == Panics(body)
      ensures reports == old(reports) + Lexical(body, id)
      ensures ReportsOf(body, Observations(body, 0), id, reports[|old(reports)|..])
      decreases body, 1
    {
      ReportsMean(body, id);
      var previous := Run(id);
      panicked := Execute(body);
      var _ := Run(previous);
    }

    method ExecuteStep(step: Step) returns (panicked: bool)
      modifies this
      ensures running == old(running) && panicked == StepPanics(step)
      ensures reports == old(reports) + LexicalStep(step, running)
      decreases step, 0
    {
      panicked := false;
      match step {
        case Observe => TryId();
        case Panic => panicked := true;
        case Poll(id, catches, body) =>
          var unwinding := PollFuture(id, body);
          panicked := unwinding && !catches;
      }
    }

    /** The future's own code, up to its end or a panic. */
    method Execute(body: seq<Step>) returns (panicked: bool)
      modifies this
      ensures running == old(running) && panicked == Panics(body)
      ensures reports == old(reports) + Lexical(body, running)
      decreases body, 0
    {
      if body == [] {
        return false;
      }
      panicked := ExecuteStep(body[0]);
      if !panicked {
        panicked := Execute(body[1..]);
      }
    }
  }

  // ----- Positions in the code ---------------------------------------------------------------

  /** A position: which step of the body, which step of that poll's body, and so on down. */
  type Position = seq<nat>

  function StepAt(body: seq<Step>, p: Position): Option<Step>
    decreases p
  {
    if p == [] || p[0] >= |body| then None
    else if |p| == 1 then Some(body[p[0]])
    else if body[p[0]].Poll? then StepAt(body[p[0]].body, p[1..])
    else None
  }

  predicate CatchesAt(body: seq<Step>, p: Position) {
    match StepAt(body, p)
    case Some(Poll(_, catches, _)) => catches
    case _ => false
  }

  /** At `q` is a panic that no poll around it catches, further in than depth `d`. */
  predicate Escapes(body: seq<Step>, q: Position, d: nat) {
    && StepAt(body, q) == Some(Panic)
    && forall e | d < e < |q| :: !CatchesAt(body, q[..e])
  }

  /** The panic at `q` gets out into the body, at depth `d`, that both are in, before `p`. */
  predicate Preempts(body: seq<Step>, q: Position, d: nat, p: Position) {
    d < |q| && d < |p| && q[..d] == p[..d] && q[d] < p[d] && Escapes(body, q, d)
  }

  ghost predicate Reached(body: seq<Step>, p: Position) {
    forall q: Position, d: nat :: !Preempts(body, q, d, p)
  }

  /** The id of the last poll on the way to `p`. */
  function IdAround(body: seq<Step>, p: Position, enclosing: RawId): RawId {
    if |p| <= 1 then enclosing
    else
      match StepAt(body, p[..|p| - 1])
      case Some(Poll(id, _, _)) => id
      case _ => enclosing
  }

  /** In the order of execution: `p` comes before `q`. */
  predicate Before(p: Position, q: Position) {
    p != [] && q != [] && (p[0] < q[0] || (p[0] == q[0] && Before(p[1..], q[1..])))
  }

  // ----- What is reached, and what it reports ------------------------------------------------

  lemma LookUnder(body: seq<Step>, k: nat, p: Position)
    requires k < |body| && p != []
    ensures StepAt(body, [k] + p) == if body[k].Poll? then StepAt(body[k].body, p) else None
  {
    assert ([k] + p)[1..] == p;
  }

  lemma EscapesUnder(body: seq<Step>, k: nat, q: Position, d: nat)
    requires k < |body| && body[k].Poll? && q != []
    ensures Escapes(body, [k] + q, d + 1) <==> Escapes(body[k].body, q, d)
    ensures Escapes(body, [k] + q, 0) <==> !body[k].catches && Escapes(body[k].body, q, 0)
  {
    var under := [k] + q;
    LookUnder(body, k, q);
    forall e: nat | 1 < e < |under| ensures CatchesAt(body, under[..e]) == CatchesAt(body[k].body, q[..e - 1]) {
      assert under[..e] == [k] + q[..e - 1];
      LookUnder(body, k, q[..e - 1]);
    }
    assert forall e | 0 < e < |q| :: CatchesAt(body[k].body, q[..e]) == CatchesAt(body, under[..e + 1]);
    assert under[..1] == [k];
  }

  /** A body panics exactly when it contains a panic that no poll in it catches. */
  lemma {:induction false} PanicsMeans(body: seq<Step>)
    ensures Panics(body) <==> exists q: Position :: q != [] && Escapes(body, q, 0)
    decreases body, 1
  {
    SomeStepPanics(body);
    if Panics(body) {
      var k :| 0 <= k < |body| && StepPanics(body[k]);
      StepPanicsMeans(body, k);
    }
    if q: Position :| q != [] && Escapes(body, q, 0) {
      StepPanicsMeans(body, q[0]);
    }
  }

  lemma {:induction false} SomeStepPanics(body: seq<Step>)
    ensures Panics(body) <==> exists k | 0 <= k < |body| :: StepPanics(body[k])
    decreases body
  {
    if body == [] {
    } else {
      SomeStepPanics(body[1..]);
      if k :| 0 <= k < |body[1..]| && StepPanics(body[1..][k]) {
        assert body[k + 1] == body[1..][k];
      }
      if k :| 0 <= k < |body| && StepPanics(body[k]) && k > 0 {
        assert body[k] == body[1..][k - 1];
      }
    }
  }

  lemma {:induction false} StepPanicsMeans(body: seq<Step>, k: nat)
    requires k < |body|
    ensures StepPanics(body[k]) <==> exists q: Position :: q != [] && q[0] == k && Escapes(body, q, 0)
    decreases body, 0
  {
    match body[k]
    case Observe =>
    case Panic => assert StepAt(body, [k]) == Some(Panic);
    case Poll(_, catches, inner) =>
      PanicsMeans(inner);
      if q: Position :| q != [] && Escapes(inner, q, 0) {
        EscapesUnder(body, k, q, 0);
        assert !catches ==> ([k] + q)[0] == k && Escapes(body, [k] + q, 0);
      }
      if q: Position :| q != [] && q[0] == k && Escapes(body, q, 0) {
        assert q == [k] + q[1..];
        EscapesUnder(body, k, q[1..], 0);
      }
  }

  function Under(k: nat, ps: seq<Position>): seq<Position> {
    seq(|ps|, i requires 0 <= i < |ps| => [k] + ps[i])
  }

  /** Where the observations that are reached stand, from the k-th step on. */
  function Observations(body: seq<Step>, k: nat): (ps: seq<Position>)
    requires k <= |body|
    ensures forall p <- ps :: p != [] && k <= p[0] < |body|
    decreases body, |body| - k
  {
    if k == |body| then []
    else Under(k, StepObservations(body[k])) + (if StepPanics(body[k]) then [] else Observations(body, k + 1))
  }

  function StepObservations(step: Step): seq<Position>
    decreases step
  {
    match step
    case Observe => [[]]
    case Panic => []
    case Poll(_, _, body) => Observations(body, 0)
  }

  predicate Ascending(ps: seq<Position>) {
    forall i, j | 0 <= i < j < |ps| :: Before(ps[i], ps[j])
  }

  lemma UnderAscends(k: nat, ps: seq<Position>)
    requires Ascending(ps)
    ensures Ascending(Under(k, ps))
  {
    forall i, j | 0 <= i < j < |ps| ensures Before(Under(k, ps)[i], Under(k, ps)[j]) {
      assert Before(ps[i], ps[j]);
      assert ([k] + ps[i])[1..] == ps[i] && ([k] + ps[j])[1..] == ps[j];
    }
  }

  lemma LaterAscends(k: nat, ps: seq<Position>, rest: seq<Position>)
    requires Ascending(ps) && Ascending(rest) && forall p <- rest :: p != [] && k < p[0]
    requires forall i | 0 <= i < |ps| :: ps[i] != [] && ps[i][0] == k
    ensures Ascending(ps + rest)
  {
    forall i, j | 0 <= i < j < |ps + rest| ensures Before((ps + rest)[i], (ps + rest)[j]) {
      if i >= |ps| {
        assert Before(rest[i - |ps|], rest[j - |ps|]);
      } else if j < |ps| {
        assert Before(ps[i], ps[j]);
      } else {
        assert rest[j - |ps|] in rest;
      }
    }
  }

  lemma {:induction false} ObservationsAscend(body: seq<Step>, k: nat)
    requires k <= |body|
    ensures Ascending(Observations(body, k))
    decreases body, |body| - k
  {
    if k < |body| {
      var inner := StepObservations(body[k]);
      if body[k].Poll? {
        ObservationsAscend(body[k].body, 0);
      }
      UnderAscends(k, inner);
      ObservationsAscend(body, k + 1);
      LaterAscends(k, Under(k, inner), if StepPanics(body[k]) then [] else Observations(body, k + 1));
    }
  }

  lemma PreemptsUnder(body: seq<Step>, k: nat, q: Position, d: nat, p: Position)
    requires k < |body| && body[k].Poll?
    ensures Preempts(body, [k] + q, d + 1, [k] + p) <==> Preempts(body[k].body, q, d, p)
  {
    if d < |q| && d < |p| {
      assert ([k] + q)[..d + 1] == [k] + q[..d] && ([k] + p)[..d + 1] == [k] + p[..d];
      assert ([k] + q[..d])[1..] == q[..d] && ([k] + p[..d])[1..] == p[..d];
      EscapesUnder(body, k, q, d);
    }
  }

  /** What preempts a position is in a step before it, or further in. */
  lemma PreemptsWhere(body: seq<Step>, q: Position, d: nat, p: Position)
    requires StepAt(body, p).Some? && Preempts(body, q, d, p)
    ensures if d == 0 then q[0] < p[0] && Escapes(body, q, 0)
            else |p| > 1 && Preempts(body[p[0]].body, q[1..], d - 1, p[1..])
  {
    if d > 0 {
      assert q[0] == q[..d][0] && p[0] == p[..d][0];
      assert q == [p[0]] + q[1..] && p == [p[0]] + p[1..];
      PreemptsUnder(body, p[0], q[1..], d - 1, p[1..]);
    }
  }

  /** Going one poll further in: nothing before it may panic, nor anything before in its body. */
  ghost predicate ReachedBelow(body: seq<Step>, p: Position)
    requires StepAt(body, p).Some?
  {
    && (forall j | 0 <= j < p[0] :: !StepPanics(body[j]))
    && (|p| > 1 ==> Reached(body[p[0]].body, p[1..]))
  }

  lemma NotReached(body: seq<Step>, p: Position, q: Position, d: nat)
    requires StepAt(body, p).Some? && Preempts(body, q, d, p)
    ensures !ReachedBelow(body, p)
  {
    PreemptsWhere(body, q, d, p);
    StepPanicsMeans(body, q[0]);
  }

  lemma EarlierPanic(body: seq<Step>, p: Position, j: nat)
    requires StepAt(body, p).Some? && j < p[0] && StepPanics(body[j])
    ensures !Reached(body, p)
  {
    StepPanicsMeans(body, j);
    var q: Position :| q != [] && q[0] == j && Escapes(body, q, 0);
    assert Preempts(body, q, 0, p);
  }

  lemma NotReachedInside(body: seq<Step>, p: Position)
    requires StepAt(body, p).Some? && |p| > 1 && !Reached(body[p[0]].body, p[1..])
    ensures !Reached(body, p)
  {
    var q: Position, d: nat :| Preempts(body[p[0]].body, q, d, p[1..]);
    PreemptsUnder(body, p[0], q, d, p[1..]);
    assert p == [p[0]] + p[1..];
    assert Preempts(body, [p[0]] + q, d + 1, p);
  }

  lemma ReachedUnder(body: seq<Step>, p: Position)
    requires StepAt(body, p).Some?
    ensures Reached(body, p) <==> ReachedBelow(body, p)
  {
    if !Reached(body, p) {
      var q: Position, d: nat :| Preempts(body, q, d, p);
      NotReached(body, p, q, d);
    } else if !ReachedBelow(body, p) {
      if |p| > 1 && !Reached(body[p[0]].body, p[1..]) {
        NotReachedInside(body, p);
      } else {
        var j :| 0 <= j < p[0] && StepPanics(body[j]);
        EarlierPanic(body, p, j);
      }
    }
  }

  lemma InUnder(k: nat, ps: seq<Position>, p: Position)
    ensures p in Under(k, ps) <==> p != [] && p[0] == k && p[1..] in ps
  {
    forall i | 0 <= i < |ps| ensures Under(k, ps)[i][0] == k && Under(k, ps)[i][1..] == ps[i] {
      assert Under(k, ps)[i] == [k] + ps[i];
    }
    if p != [] && p[0] == k && p[1..] in ps {
      var i :| 0 <= i < |ps| && ps[i] == p[1..];
      assert p == [k] + ps[i] == Under(k, ps)[i];
    }
  }

  lemma {:induction false} StepObservationsMean(body: seq<Step>, k: nat, p: Position)
    requires k < |body|
    ensures p in StepObservations(body[k]) <==>
              && StepAt(body, [k] + p) == Some(Observe)
              && (p != [] ==> Reached(body[k].body, p))
    decreases body, 0
  {
    assert ([k] + p)[1..] == p;
    if body[k].Poll? {
      ObservationsMean(body[k].body, 0, p);
      if StepAt(body[k].body, p).Some? {
        ReachedUnder(body[k].body, p);
      }
    }
  }

  /** At `p`, in the k-th step or after it, an observation is made. */
  ghost predicate Observed(body: seq<Step>, k: nat, p: Position) {
    && StepAt(body, p) == Some(Observe) && k <= p[0]
    && (forall j | k <= j < p[0] :: !StepPanics(body[j]))
    && (|p| > 1 ==> Reached(body[p[0]].body, p[1..]))
  }

  lemma ObservedStep(body: seq<Step>, k: nat, p: Position)
    requires k < |body|
    ensures Observed(body, k, p) <==>
              if p != [] && p[0] == k
              then StepAt(body, p) == Some(Observe) && (|p| > 1 ==> Reached(body[k].body, p[1..]))
              else !StepPanics(body[k]) && Observed(body, k + 1, p)
  {
  }

  lemma {:induction false} ObservationsMean(body: seq<Step>, k: nat, p: Position)
    requires k <= |body|
    ensures p in Observations(body, k) <==> Observed(body, k, p)
    decreases body, 1, |body| - k
  {
    if k < |body| {
      ObservationsMean(body, k + 1, p);
      ObservedStep(body, k, p);
      InUnder(k, StepObservations(body[k]), p);
      if p != [] && p[0] == k {
        StepObservationsMean(body, k, p[1..]);
        assert p == [k] + p[1..];
      }
    }
  }

  lemma IdUnder(body: seq<Step>, k: nat, p: Position, enclosing: RawId)
    requires k < |body| && body[k].Poll? && StepAt(body[k].body, p).Some?
    ensures IdAround(body, [k] + p, enclosing) == IdAround(body[k].body, p, body[k].id)
  {
    var n := |p| - 1;
    assert ([k] + p)[..n + 1] == [k] + p[..n];
    if n > 0 {
      LookUnder(body, k, p[..n]);
      PollsOnTheWay(body[k].body, p);
    }
  }

  lemma {:induction false} PollsOnTheWay(body: seq<Step>, p: Position)
    requires StepAt(body, p).Some? && |p| > 1
    ensures StepAt(body, p[..|p| - 1]).Some? && StepAt(body, p[..|p| - 1]).value.Poll?
    decreases p
  {
    if |p| > 2 {
      PollsOnTheWay(body[p[0]].body, p[1..]);
      assert p[..|p| - 1][1..] == p[1..][..|p| - 2];
    }
  }

  /** What the observations at `ps` report: the id of the last poll around each, or none for 0. */
  predicate ReportsOf(body: seq<Step>, ps: seq<Position>, enclosing: RawId, reports: seq<Option<RawId>>) {
    && |reports| == |ps|
    && forall i | 0 <= i < |ps| ::
         && (reports[i].None? <==> IdAround(body, ps[i], enclosing) == 0)
         && (reports[i].Some? ==> reports[i].value == IdAround(body, ps[i], enclosing))
  }

  lemma {:induction false} StepReports(body: seq<Step>, k: nat, enclosing: RawId)
    requires k < |body|
    ensures ReportsOf(body, Under(k, StepObservations(body[k])), enclosing, LexicalStep(body[k], enclosing))
    decreases body, 0
  {
    match body[k]
    case Observe => assert Under(k, [[]])[0] == [k];
    case Panic =>
    case Poll(id, _, inner) =>
      var ps := Observations(inner, 0);
      ReportsFrom(inner, 0, id);
      assert inner[0..] == inner;
      forall i | 0 <= i < |ps| ensures IdAround(body, Under(k, ps)[i], enclosing) == IdAround(inner, ps[i], id) {
        ObservationsMean(inner, 0, ps[i]);
        IdUnder(body, k, ps[i], enclosing);
      }
  }

  lemma {:induction false} ReportsFrom(body: seq<Step>, k: nat, enclosing: RawId)
    requires k <= |body|
    ensures ReportsOf(body, Observations(body, k), enclosing, Lexical(body[k..], enclosing))
    decreases body, 1, |body| - k
  {
    if k < |body| {
      StepReports(body, k, enclosing);
      ReportsFrom(body, k + 1, enclosing);
      assert body[k..][1..] == body[k + 1..];
    }
  }

  /**
    What `try_id` has to report, without following the execution: there is one report for
    each observation before which no panic gets out, in the order in which they stand in the
    code, and it is the id of the last poll on the way to the observation, or none if that
    is 0.
  */
  lemma ReportsMean(body: seq<Step>, enclosing: RawId)
    ensures var ps := Observations(body, 0);
            && Ascending(ps) && ReportsOf(body, ps, enclosing, Lexical(body, enclosing))
            && forall p: Position :: p in ps <==> StepAt(body, p) == Some(Observe) && Reached(body, p)
  {
    ObservationsAscend(body, 0);
    ReportsFrom(body, 0, enclosing);
    assert body[0..] == body;
    forall p: Position
      ensures p in Observations(body, 0) <==> StepAt(body, p) == Some(Observe) && Reached(body, p)
    {
      ObservationsMean(body, 0, p);
      if StepAt(body, p).Some? {
        ReachedUnder(body, p);
      }
    }
  }

  // ----- What lexical scoping amounts to -----------------------------------------------------

  /** Every id polled anywhere in the code is a real one. */
  predicate NonzeroIds(body: seq<Step>)
    decreases body
  {
    body == [] || (NonzeroStep(body[0]) && NonzeroIds(body[1..]))
  }

  predicate NonzeroStep(step: Step)
    decreases step
  {
    step.Poll? ==> step.id != 0 && NonzeroIds(step.body)
  }

  /** Inside a task with a real id, every observation reports some task. */
  lemma {:induction false} AlwaysInsideATask(body: seq<Step>, enclosing: RawId)
    requires enclosing != 0 && NonzeroIds(body)
    ensures None !in Lexical(body, enclosing)
    decreases body
  {
    if body == [] {
    } else {
      if body[0].Poll? {
        AlwaysInsideATask(body[0].body, body[0].id);
      }
      AlwaysInsideATask(body[1..], enclosing);
    }
  }
}
