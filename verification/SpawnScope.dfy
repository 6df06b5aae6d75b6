/**
  `enter`, `SpawnScope::drop` and `spawn_with_name`: a stack of spawners threaded through
  the `previous` fields of the scopes, with only its top in the thread-local `SPAWNER`, and
  the choice each spawn makes between that top and what `find_spawn` finds.
*/
module SpawnScope {
  import opened Base
  import C = Compat

  // A `&dyn Spawn`, as an identity.
  type Spawner(==, !new)

  /** `previous` is taken by the drop that closes the scope. */
  datatype Scope = Scope(spawner: Spawner, previous: Option<Spawner>, isOpen: bool)

  /** Where a spawned task goes, or which panic it comes to. */
  datatype Target = Scoped(spawner: Spawner) | Compatible(spawn: C.SpawnFn) | PanicNoSpawner | PanicMultipleGlobals

  /** Scopes are named by the order in which they were entered; a spawn has something to fall back on. */
  datatype Op = Enter(spawner: Spawner) | Drop(scope: nat) | Spawn(fallback: C.Selection)

  datatype State = State(
    current: Option<Spawner>,   // `SPAWNER`
    scopes: seq<Scope>,
    targets: seq<Target>)       // where each spawn went

  datatype DropResult = Fine | NoSpawner | AssertionFailed

  function Start(initial: Option<Spawner>): State {
    State(initial, [], [])
  }

  function TargetOf(current: Option<Spawner>, fallback: C.Selection): Target {
    match current
    case Some(spawner) => Scoped(spawner)
    case None =>
      match fallback
      case Found(spawn) => Compatible(spawn)
      case NoSpawner => PanicNoSpawner
      case PanicMultipleGlobals => PanicMultipleGlobals
  }

  predicate Possible(s: State, op: Op) {
    op.Drop? ==> op.scope < |s.scopes| && s.scopes[op.scope].isOpen
  }

  function Apply(s: State, op: Op): State
    requires Possible(s, op)
  {
    match op
    case Enter(spawner) =>
      s.(current := Some(spawner), scopes := s.scopes + [Scope(spawner, s.current, true)])
    case Drop(k) =>
      s.(current := s.scopes[k].previous, scopes := s.scopes[k := Scope(s.scopes[k].spawner, None, false)])
    case Spawn(fallback) => s.(targets := s.targets + [TargetOf(s.current, fallback)])
  }

  /** How a drop ends: it checks that the spawner it takes down is its own. */
  function Ending(s: State, op: Op): DropResult
    requires Possible(s, op)
  {
    match op
    case Drop(k) =>
      if s.current.None? then NoSpawner
      else if s.current.value == s.scopes[k].spawner then Fine
      else AssertionFailed
    case _ => Fine
  }

  // ----- Runs ------------------------------------------------------------------------------

  /** Every drop is of a scope that is open. */
  predicate CanRun(s: State, ops: seq<Op>)
    decreases ops
  {
    ops == [] || (Possible(s, ops[0]) && CanRun(Apply(s, ops[0]), ops[1..]))
  }

  function Exec(s: State, ops: seq<Op>): State
    requires CanRun(s, ops)
    decreases ops
  {
    if ops == [] then s else Exec(Apply(s, ops[0]), ops[1..])
  }

  /** No drop panics. */
  predicate Succeeds(s: State, ops: seq<Op>)
    requires CanRun(s, ops)
    decreases ops
  {
    ops == [] || (Ending(s, ops[0]).Fine? && Succeeds(Apply(s, ops[0]), ops[1..]))
  }

  lemma {:induction false} RunLonger(s: State, ops: seq<Op>, op: Op)
    requires CanRun(s, ops) && Possible(Exec(s, ops), op)
    ensures CanRun(s, ops + [op]) && Exec(s, ops + [op]) == Apply(Exec(s, ops), op)
    decreases ops
  {
    if ops == [] {
      assert ops + [op] == [op] && [op][1..] == [];
    } else {
      RunLonger(Apply(s, ops[0]), ops[1..], op);
      assert (ops + [op])[1..] == ops[1..] + [op];
    }
  }

  /** The stack the scopes are meant to encode: which are open, innermost first. */
  function Stack(stack: seq<nat>, entered: nat, op: Op): seq<nat> {
    match op
    case Enter(_) => [entered] + stack
    case Drop(k) => if stack != [] && stack[0] == k then stack[1..] else stack
    case Spawn(_) => stack
  }

  function Entered(entered: nat, op: Op): nat {
    if op.Enter? then entered + 1 else entered
  }

  function StackAfter(stack: seq<nat>, entered: nat, ops: seq<Op>): seq<nat>
    decreases ops
  {
    if ops == [] then stack
    else StackAfter(Stack(stack, entered, ops[0]), Entered(entered, ops[0]), ops[1..])
  }

  predicate InOrder(stack: seq<nat>, op: Op) {
    op.Drop? ==> stack != [] && stack[0] == op.scope
  }

  /** Every drop is of the innermost open scope. */
  predicate LastInFirstOut(stack: seq<nat>, entered: nat, ops: seq<Op>)
    decreases ops
  {
    ops == [] ||
    (InOrder(stack, ops[0])
     && LastInFirstOut(Stack(stack, entered, ops[0]), Entered(entered, ops[0]), ops[1..]))
  }

  /** Starting from `current`, the `previous` fields lead down the stack to `initial`. */
  predicate Linked(scopes: seq<Scope>, current: Option<Spawner>, initial: Option<Spawner>, stack: seq<nat>)
    decreases stack
  {
    if stack == [] then current == initial
    else
      && stack[0] < |scopes| && stack[0] !in stack[1..]
      && current == Some(scopes[stack[0]].spawner)
      && Linked(scopes, scopes[stack[0]].previous, initial, stack[1..])
  }

  ghost predicate Encodes(s: State, initial: Option<Spawner>, stack: seq<nat>) {
    && Linked(s.scopes, s.current, initial, stack)
    && forall k: nat :: k in stack <==> k < |s.scopes| && s.scopes[k].isOpen
  }

  lemma {:induction false} LinkedElsewhere(
      scopes: seq<Scope>, after: seq<Scope>, current: Option<Spawner>, initial: Option<Spawner>, stack: seq<nat>)
    requires Linked(scopes, current, initial, stack)
    requires forall k <- stack :: k < |scopes| ==> k < |after| && after[k] == scopes[k]
    ensures Linked(after, current, initial, stack)
    decreases stack
  {
    if stack == [] {
    } else {
      assert stack[0] in stack;
      assert forall k <- stack[1..] :: k in stack;
      LinkedElsewhere(scopes, after, scopes[stack[0]].previous, initial, stack[1..]);
    }
  }

  lemma EnterEncodes(s: State, initial: Option<Spawner>, stack: seq<nat>, spawner: Spawner)
    requires Encodes(s, initial, stack)
    ensures Encodes(Apply(s, Enter(spawner)), initial, [|s.scopes|] + stack)
  {
    var t := Apply(s, Enter(spawner));
    var after := [|s.scopes|] + stack;
    assert after[1..] == stack;
    LinkedElsewhere(s.scopes, t.scopes, s.current, initial, stack);
  }

  lemma DropEncodes(s: State, initial: Option<Spawner>, stack: seq<nat>, k: nat)
    requires Encodes(s, initial, stack) && stack != [] && stack[0] == k
    ensures Ending(s, Drop(k)).Fine?
    ensures Encodes(Apply(s, Drop(k)), initial, stack[1..])
  {
    var t := Apply(s, Drop(k));
    assert forall j <- stack[1..] :: j in stack && j != k;
    LinkedElsewhere(s.scopes, t.scopes, t.current, initial, stack[1..]);
    assert forall j <- stack :: j == k || j in stack[1..];
  }

  lemma EncodesStep(s: State, initial: Option<Spawner>, stack: seq<nat>, op: Op)
    requires Encodes(s, initial, stack) && Possible(s, op)
    requires InOrder(stack, op)
    ensures Ending(s, op).Fine? && Encodes(Apply(s, op), initial, Stack(stack, |s.scopes|, op))
  {
    match op
    case Enter(spawner) => EnterEncodes(s, initial, stack, spawner);
    case Drop(k) => DropEncodes(s, initial, stack, k);
    case Spawn(_) =>
  }

  lemma {:induction false} EncodesAlong(s: State, initial: Option<Spawner>, stack: seq<nat>, ops: seq<Op>)
    requires Encodes(s, initial, stack) && CanRun(s, ops) && LastInFirstOut(stack, |s.scopes|, ops)
    ensures Succeeds(s, ops) && Encodes(Exec(s, ops), initial, StackAfter(stack, |s.scopes|, ops))
    decreases ops
  {
    if ops == [] {
    } else {
      EncodesStep(s, initial, stack, ops[0]);
      EncodesAlong(Apply(s, ops[0]), initial, Stack(stack, |s.scopes|, ops[0]), ops[1..]);
    }
  }

  // ----- What the assertion catches ----------------------------------------------------------

  /**
    Exactly when a drop is caught: when the innermost open scope has another spawner. The
    panic "no spawner" cannot happen.
  */
  lemma CaughtIff(s: State, initial: Option<Spawner>, stack: seq<nat>, k: nat)
    requires Encodes(s, initial, stack) && Possible(s, Drop(k))
    ensures stack != [] && stack[0] < |s.scopes| && !Ending(s, Drop(k)).NoSpawner?
    ensures Ending(s, Drop(k)).AssertionFailed? <==> s.scopes[stack[0]].spawner != s.scopes[k].spawner
  {
    assert k in stack;
  }

  /**
    So every disorder is caught, now, exactly when no other open scope shares the spawner of
    the innermost one.
  */
  lemma AllCaughtIff(s: State, initial: Option<Spawner>, stack: seq<nat>)
    requires Encodes(s, initial, stack) && stack != []
    ensures stack[0] < |s.scopes|
    ensures (forall k: nat :: Possible(s, Drop(k)) && Ending(s, Drop(k)).Fine? ==> k == stack[0])
            <==> (forall k <- stack :: k < |s.scopes| && s.scopes[k].spawner == s.scopes[stack[0]].spawner ==>
                    k == stack[0])
  {
    forall k: nat | Possible(s, Drop(k)) ensures k in stack {
      CaughtIff(s, initial, stack, k);
    }
    forall k: nat | k in stack ensures Possible(s, Drop(k)) {
    }
  }

  /** This drop is out of order and goes unnoticed. */
  predicate SharesInnermost(s: State, stack: seq<nat>, op: Op) {
    && !InOrder(stack, op) && stack != [] && stack[0] < |s.scopes| && op.scope < |s.scopes|
    && s.scopes[stack[0]].spawner == s.scopes[op.scope].spawner
  }

  /** No drop, made when all before it were in order, is of another scope with the innermost's spawner. */
  predicate NoSharedDisorder(s: State, stack: seq<nat>, ops: seq<Op>)
    requires CanRun(s, ops)
    decreases ops
  {
    ops == [] ||
    (&& !SharesInnermost(s, stack, ops[0])
     && (InOrder(stack, ops[0]) ==>
           NoSharedDisorder(Apply(s, ops[0]), Stack(stack, |s.scopes|, ops[0]), ops[1..])))
  }

  ghost predicate Agrees(s: State, stack: seq<nat>, ops: seq<Op>) {
    CanRun(s, ops) && (Succeeds(s, ops) <==> LastInFirstOut(stack, |s.scopes|, ops))
  }

  /** However far the run has come, it is free of panics just if it was in order. */
  ghost predicate OrderIsEnforced(s: State, stack: seq<nat>, ops: seq<Op>) {
    forall n | 0 <= n <= |ops| :: Agrees(s, stack, ops[..n])
  }

  lemma {:induction false} RunPrefix(s: State, ops: seq<Op>, n: nat)
    requires CanRun(s, ops) && n <= |ops|
    ensures CanRun(s, ops[..n])
    decreases ops
  {
    if n > 0 {
      RunPrefix(Apply(s, ops[0]), ops[1..], n - 1);
      assert ops[..n][1..] == ops[1..][..n - 1];
    }
  }

  lemma AgreesStep(s: State, initial: Option<Spawner>, stack: seq<nat>, ops: seq<Op>)
    requires ops != [] && CanRun(s, ops) && Encodes(s, initial, stack) && InOrder(stack, ops[0])
    ensures Agrees(s, stack, ops)
            <==> Agrees(Apply(s, ops[0]), Stack(stack, |s.scopes|, ops[0]), ops[1..])
  {
    EncodesStep(s, initial, stack, ops[0]);
  }

  lemma InOrderStep(s: State, initial: Option<Spawner>, stack: seq<nat>, ops: seq<Op>)
    requires ops != [] && CanRun(s, ops) && Encodes(s, initial, stack) && InOrder(stack, ops[0])
    ensures OrderIsEnforced(s, stack, ops)
            <==> OrderIsEnforced(Apply(s, ops[0]), Stack(stack, |s.scopes|, ops[0]), ops[1..])
  {
    var t := Apply(s, ops[0]);
    var after := Stack(stack, |s.scopes|, ops[0]);
    forall n: nat | 0 < n <= |ops|
      ensures Agrees(s, stack, ops[..n]) <==> Agrees(t, after, ops[1..][..n - 1])
    {
      RunPrefix(s, ops, n);
      assert ops[..n][1..] == ops[1..][..n - 1];
      AgreesStep(s, initial, stack, ops[..n]);
    }
    assert Agrees(s, stack, ops[..0]);
    if OrderIsEnforced(s, stack, ops) {
      forall n | 0 <= n <= |ops[1..]| ensures Agrees(t, after, ops[1..][..n]) {
        assert Agrees(s, stack, ops[..n + 1]);
      }
    }
  }

  lemma OutOfOrderStep(s: State, initial: Option<Spawner>, stack: seq<nat>, ops: seq<Op>)
    requires ops != [] && CanRun(s, ops) && Encodes(s, initial, stack) && !InOrder(stack, ops[0])
    ensures OrderIsEnforced(s, stack, ops) <==> !SharesInnermost(s, stack, ops[0])
  {
    CaughtIff(s, initial, stack, ops[0].scope);
    if SharesInnermost(s, stack, ops[0]) {
      RunPrefix(s, ops, 1);
      assert ops[..1][0] == ops[0] && ops[..1][1..] == [];
      assert Succeeds(s, ops[..1]) && !LastInFirstOut(stack, |s.scopes|, ops[..1]);
      assert !Agrees(s, stack, ops[..1]);
    } else {
      forall n | 0 <= n <= |ops| ensures Agrees(s, stack, ops[..n]) {
        RunPrefix(s, ops, n);
        assert n > 0 ==> ops[..n][0] == ops[0];
      }
    }
  }

  lemma {:induction false} EnforcedIff(s: State, initial: Option<Spawner>, stack: seq<nat>, ops: seq<Op>)
    requires Encodes(s, initial, stack) && CanRun(s, ops)
    ensures OrderIsEnforced(s, stack, ops) <==> NoSharedDisorder(s, stack, ops)
    decreases ops
  {
    if ops == [] {
    } else if InOrder(stack, ops[0]) {
      EncodesStep(s, initial, stack, ops[0]);
      InOrderStep(s, initial, stack, ops);
      EnforcedIff(Apply(s, ops[0]), initial, Stack(stack, |s.scopes|, ops[0]), ops[1..]);
    } else {
      OutOfOrderStep(s, initial, stack, ops);
    }
  }

  /**
    Exactly when the assertion enforces the order of drops over a run: when no drop, the
    first out of order, is of a scope sharing its spawner with the innermost one.
  */
  lemma DropOrderIff(initial: Option<Spawner>, ops: seq<Op>)
    requires CanRun(Start(initial), ops)
    ensures OrderIsEnforced(Start(initial), [], ops) <==> NoSharedDisorder(Start(initial), [], ops)
  {
    EnforcedIff(Start(initial), initial, [], ops);
  }

  /** No spawner is used for two scopes. */
  predicate Distinct(s: State, ops: seq<Op>)
    decreases ops
  {
    ops == [] || (
      && (ops[0].Enter? ==> forall k | 0 <= k < |s.scopes| :: s.scopes[k].spawner != ops[0].spawner)
      && (Possible(s, ops[0]) ==> Distinct(Apply(s, ops[0]), ops[1..])))
  }

  predicate DistinctScopes(s: State) {
    forall i, j | 0 <= i < j < |s.scopes| :: s.scopes[i].spawner != s.scopes[j].spawner
  }

  lemma {:induction false} DistinctSharesNothing(s: State, stack: seq<nat>, ops: seq<Op>)
    requires CanRun(s, ops) && DistinctScopes(s) && Distinct(s, ops)
    ensures NoSharedDisorder(s, stack, ops)
    decreases ops
  {
    if ops == [] {
    } else if InOrder(stack, ops[0]) {
      DistinctSharesNothing(Apply(s, ops[0]), Stack(stack, |s.scopes|, ops[0]), ops[1..]);
    }
  }

  /** In particular with pairwise distinct spawners: no panic if and only if last-in-first-out. */
  lemma DropOrder(initial: Option<Spawner>, ops: seq<Op>)
    requires CanRun(Start(initial), ops) && Distinct(Start(initial), ops)
    ensures Succeeds(Start(initial), ops) <==> LastInFirstOut([], 0, ops)
  {
    DistinctSharesNothing(Start(initial), [], ops);
    DropOrderIff(initial, ops);
    assert ops[..|ops|] == ops;
  }

  /** A spawner entered twice: the outer scope is dropped first, and nothing notices. */
  lemma SharedSpawnerHidesDisorder(initial: Option<Spawner>, spawner: Spawner)
    ensures var ops := [Enter(spawner), Enter(spawner), Drop(0)];
            CanRun(Start(initial), ops) && Succeeds(Start(initial), ops) && !LastInFirstOut([], 0, ops)
            && Exec(Start(initial), ops)
               == State(initial, [Scope(spawner, None, false), Scope(spawner, Some(spawner), true)], [])
  {
    var s := Start(initial);
    var ops := [Enter(spawner), Enter(spawner), Drop(0)];
    var s1 := Apply(s, ops[0]);
    var s2 := Apply(s1, ops[1]);
    var s3 := Apply(s2, ops[2]);
    assert ops[1..] == [Enter(spawner), Drop(0)];
    assert ops[1..][1..] == [Drop(0)];
    assert ops[1..][1..][1..] == [];
    assert CanRun(s3, []) && CanRun(s2, [Drop(0)]) && CanRun(s1, ops[1..]);
    assert Exec(s2, [Drop(0)]) == s3 && Exec(s1, ops[1..]) == s3;
    assert Succeeds(s2, [Drop(0)]) && Succeeds(s1, ops[1..]);
    assert !LastInFirstOut([1, 0], 2, [Drop(0)]);
    assert Stack([], 0, ops[0]) == [0] && Stack([0], 1, ops[1]) == [1, 0];
    assert !LastInFirstOut([0], 1, ops[1..]);
  }

  // ----- What panic-free runs restore --------------------------------------------------------

  predicate AllClosed(scopes: seq<Scope>) {
    forall k | 0 <= k < |scopes| :: !scopes[k].isOpen
  }

  function Indicator(p: bool): int {
    if p then 1 else 0
  }

  /** What one open scope adds to the balance of a value of `SPAWNER`. */
  function Share(scope: Scope, x: Option<Spawner>): int {
    if scope.isOpen then Indicator(Some(scope.spawner) == x) - Indicator(scope.previous == x) else 0
  }

  function Balance(scopes: seq<Scope>, x: Option<Spawner>): int {
    if scopes == [] then 0
    else Balance(scopes[..|scopes| - 1], x) + Share(scopes[|scopes| - 1], x)
  }

  lemma {:induction false} BalanceUpdate(scopes: seq<Scope>, k: nat, scope: Scope, x: Option<Spawner>)
    requires k < |scopes|
    ensures Balance(scopes[k := scope], x) == Balance(scopes, x) - Share(scopes[k], x) + Share(scope, x)
  {
    var n := |scopes| - 1;
    if k < n {
      BalanceUpdate(scopes[..n], k, scope, x);
      assert scopes[k := scope][..n] == scopes[..n][k := scope];
    } else {
      assert scopes[k := scope][..n] == scopes[..n];
    }
  }

  lemma {:induction false} BalanceOfClosed(scopes: seq<Scope>, x: Option<Spawner>)
    requires AllClosed(scopes)
    ensures Balance(scopes, x) == 0
  {
    if scopes == [] {
    } else {
      BalanceOfClosed(scopes[..|scopes| - 1], x);
    }
  }

  /** `current` has left `initial` by exactly what the open scopes account for. */
  predicate Balanced(s: State, initial: Option<Spawner>, x: Option<Spawner>) {
    Indicator(s.current == x) - Indicator(initial == x) == Balance(s.scopes, x)
  }

  lemma BalancedStep(s: State, initial: Option<Spawner>, x: Option<Spawner>, op: Op)
    requires Balanced(s, initial, x) && Possible(s, op) && Ending(s, op).Fine?
    ensures Balanced(Apply(s, op), initial, x)
  {
    match op
    case Enter(spawner) =>
      var after := Apply(s, op).scopes;
      assert after[..|after| - 1] == s.scopes;
    case Drop(k) => BalanceUpdate(s.scopes, k, Scope(s.scopes[k].spawner, None, false), x);
    case Spawn(_) =>
  }

  lemma {:induction false} BalancedAlong(s: State, initial: Option<Spawner>, x: Option<Spawner>, ops: seq<Op>)
    requires Balanced(s, initial, x) && CanRun(s, ops) && Succeeds(s, ops)
    ensures Balanced(Exec(s, ops), initial, x)
    decreases ops
  {
    if ops == [] {
    } else {
      BalancedStep(s, initial, x, ops[0]);
      BalancedAlong(Apply(s, ops[0]), initial, x, ops[1..]);
    }
  }

  /**
    What the assertion buys: in whatever order scopes are dropped, and however spawners are
    shared, a run without a panic that has closed every scope is back at the initial spawner.
  */
  lemma PanicFreeRestores(initial: Option<Spawner>, ops: seq<Op>)
    requires CanRun(Start(initial), ops) && Succeeds(Start(initial), ops)
    requires AllClosed(Exec(Start(initial), ops).scopes)
    ensures Exec(Start(initial), ops).current == initial
  {
    var t := Exec(Start(initial), ops);
    BalancedAlong(Start(initial), initial, initial, ops);
    BalanceOfClosed(t.scopes, initial);
  }

  /** Nothing open has this spawner. */
  predicate Unused(scopes: seq<Scope>, x: Spawner) {
    forall k | 0 <= k < |scopes| :: scopes[k].isOpen ==> scopes[k].spawner != x
  }

  lemma {:induction false} BalanceOfUnused(scopes: seq<Scope>, x: Spawner)
    requires Unused(scopes, x)
    ensures Balance(scopes, Some(x)) <= 0
    ensures Balance(scopes, Some(x)) == 0 ==>
              forall k | 0 <= k < |scopes| :: scopes[k].isOpen ==> scopes[k].previous != Some(x)
  {
    if scopes == [] {
    } else {
      var front := scopes[..|scopes| - 1];
      BalanceOfUnused(front, x);
      forall k | 0 <= k < |scopes| && scopes[k].isOpen && Balance(scopes, Some(x)) == 0
        ensures scopes[k].previous != Some(x)
      {
        assert k < |front| ==> scopes[k] == front[k];
      }
    }
  }

  /**
    And nothing dangles: in a panic-free run, a spawner that no open scope uses is neither in
    effect nor remembered by an open scope, unless the thread began with it.
  */
  lemma NothingDangles(initial: Option<Spawner>, ops: seq<Op>, x: Spawner)
    requires CanRun(Start(initial), ops) && Succeeds(Start(initial), ops)
    requires initial != Some(x) && Unused(Exec(Start(initial), ops).scopes, x)
    ensures var t := Exec(Start(initial), ops);
            && t.current != Some(x)
            && forall k | 0 <= k < |t.scopes| :: t.scopes[k].isOpen ==> t.scopes[k].previous != Some(x)
  {
    BalancedAlong(Start(initial), initial, Some(x), ops);
    BalanceOfUnused(Exec(Start(initial), ops).scopes, x);
  }

  /**
    After a panic something may: of two nested scopes the outer is dropped first, which is
    caught, then the inner, which panics for want of a spawner. Both are closed, and the
    spawner of the outer one is in effect.
  */
  lemma PanicLeavesDangling(a: Spawner, b: Spawner)
    requires a != b
    ensures var s := Apply(Apply(Start(None), Enter(a)), Enter(b));
            var t := Apply(s, Drop(0));
            var u := Apply(t, Drop(1));
            && Ending(s, Drop(0)).AssertionFailed? && Ending(t, Drop(1)).NoSpawner?
            && AllClosed(u.scopes) && u.current == Some(a)
  {
  }

  // ----- Where spawned tasks go --------------------------------------------------------------

  /** The spawners of the open scopes, innermost first. */
  function Open(scopes: seq<Scope>, stack: seq<nat>): seq<Spawner>
    requires forall k <- stack :: k < |scopes|
  {
    if stack == [] then []
    else
      assert stack[0] in stack && forall k <- stack[1..] :: k in stack;
      [scopes[stack[0]].spawner] + Open(scopes, stack[1..])
  }

  lemma {:induction false} OpenElsewhere(scopes: seq<Scope>, after: seq<Scope>, stack: seq<nat>)
    requires forall k <- stack :: k < |scopes| && k < |after| && after[k].spawner == scopes[k].spawner
    ensures Open(after, stack) == Open(scopes, stack)
  {
    if stack == [] {
    } else {
      assert stack[0] in stack;
      assert forall k <- stack[1..] :: k in stack;
      OpenElsewhere(scopes, after, stack[1..]);
    }
  }

  /** The spawners of the open scopes after a well-nested step, innermost first. */
  function OpenAfter(open: seq<Spawner>, op: Op): seq<Spawner> {
    match op
    case Enter(spawner) => [spawner] + open
    case Drop(_) => if open == [] then [] else open[1..]
    case Spawn(_) => open
  }

  /** Where each spawn should go: to the innermost scope around it, or without one to its fallback. */
  function Reference(open: seq<Spawner>, initial: Option<Spawner>, ops: seq<Op>): seq<Target>
    decreases ops
  {
    if ops == [] then []
    else
      match ops[0]
      case Spawn(fallback) =>
        [if open != [] then Scoped(open[0]) else TargetOf(initial, fallback)]
        + Reference(open, initial, ops[1..])
      case _ => Reference(OpenAfter(open, ops[0]), initial, ops[1..])
  }

  lemma OpenStep(s: State, initial: Option<Spawner>, stack: seq<nat>, op: Op)
    requires Encodes(s, initial, stack) && Possible(s, op) && InOrder(stack, op)
    ensures Encodes(Apply(s, op), initial, Stack(stack, |s.scopes|, op))
    ensures (forall k <- stack :: k < |s.scopes|)
    ensures forall k <- Stack(stack, |s.scopes|, op) :: k < |Apply(s, op).scopes|
    ensures Open(Apply(s, op).scopes, Stack(stack, |s.scopes|, op))
            == OpenAfter(Open(s.scopes, stack), op)
  {
    EncodesStep(s, initial, stack, op);
    match op
    case Enter(spawner) =>
      assert ([|s.scopes|] + stack)[1..] == stack;
      OpenElsewhere(s.scopes, Apply(s, op).scopes, stack);
    case Drop(k) =>
      assert forall j <- stack[1..] :: j in stack;
      OpenElsewhere(s.scopes, Apply(s, op).scopes, stack[1..]);
    case Spawn(_) =>
  }

  /** The spawner in effect is that of the innermost open scope. */
  lemma CurrentIsInnermost(s: State, initial: Option<Spawner>, stack: seq<nat>)
    requires Encodes(s, initial, stack) && forall k <- stack :: k < |s.scopes|
    ensures var open := Open(s.scopes, stack);
            s.current == if open == [] then initial else Some(open[0])
  {
  }

  lemma SpawnReference(open: seq<Spawner>, initial: Option<Spawner>, current: Option<Spawner>, ops: seq<Op>)
    requires ops != [] && ops[0].Spawn?
    requires current == if open == [] then initial else Some(open[0])
    ensures Reference(open, initial, ops)
            == [TargetOf(current, ops[0].fallback)] + Reference(open, initial, ops[1..])
  {
  }

  lemma ScopeReference(open: seq<Spawner>, initial: Option<Spawner>, ops: seq<Op>)
    requires ops != [] && !ops[0].Spawn?
    ensures Reference(open, initial, ops) == Reference(OpenAfter(open, ops[0]), initial, ops[1..])
  {
  }

  lemma PutBehind(front: seq<Target>, target: Target, rest: seq<Target>)
    ensures (front + [target]) + rest == front + ([target] + rest)
  {
  }

  lemma TargetsStep(s: State, initial: Option<Spawner>, stack: seq<nat>, ops: seq<Op>)
    requires ops != [] && Encodes(s, initial, stack) && Possible(s, ops[0]) && InOrder(stack, ops[0])
    requires forall k <- stack :: k < |s.scopes|
    requires forall k <- Stack(stack, |s.scopes|, ops[0]) :: k < |Apply(s, ops[0]).scopes|
    ensures var t := Apply(s, ops[0]);
            s.targets + Reference(Open(s.scopes, stack), initial, ops)
            == t.targets + Reference(Open(t.scopes, Stack(stack, |s.scopes|, ops[0])), initial, ops[1..])
  {
    var open := Open(s.scopes, stack);
    OpenStep(s, initial, stack, ops[0]);
    if ops[0].Spawn? {
      CurrentIsInnermost(s, initial, stack);
      SpawnReference(open, initial, s.current, ops);
      PutBehind(s.targets, TargetOf(s.current, ops[0].fallback), Reference(open, initial, ops[1..]));
    } else {
      ScopeReference(open, initial, ops);
    }
  }

  lemma {:induction false} NestedScopesChoose(s: State, initial: Option<Spawner>, stack: seq<nat>, ops: seq<Op>)
    requires Encodes(s, initial, stack) && CanRun(s, ops) && LastInFirstOut(stack, |s.scopes|, ops)
    requires forall k <- stack :: k < |s.scopes|
    ensures Exec(s, ops).targets == s.targets + Reference(Open(s.scopes, stack), initial, ops)
    decreases ops
  {
    if ops == [] {
    } else {
      OpenStep(s, initial, stack, ops[0]);
      NestedScopesChoose(Apply(s, ops[0]), initial, Stack(stack, |s.scopes|, ops[0]), ops[1..]);
      TargetsStep(s, initial, stack, ops);
    }
  }

  /**
    Properly nested scopes never fail, send every spawn to the innermost scope around it, or
    outside all to the initial spawner or its fallback, and leave the initial spawner when
    all are closed, however often one spawner is used.
  */
  lemma NestedScopesWork(initial: Option<Spawner>, ops: seq<Op>)
    requires CanRun(Start(initial), ops) && LastInFirstOut([], 0, ops)
    ensures var t := Exec(Start(initial), ops);
            && Succeeds(Start(initial), ops)
            && t.targets == Reference([], initial, ops)
            && (AllClosed(t.scopes) ==> t.current == initial)
  {
    var t := Exec(Start(initial), ops);
    EncodesAlong(Start(initial), initial, [], ops);
    NestedScopesChoose(Start(initial), initial, [], ops);
    if AllClosed(t.scopes) {
      PanicFreeRestores(initial, ops);
    }
  }

  // ----- The thread ----------------------------------------------------------------------------

  /** One thread's `SPAWNER` and its scopes; all it has done is a run. */
  class Thread {
    ghost const initial: Option<Spawner>
    ghost var ops: seq<Op>
    var current: Option<Spawner>
    var scopes: seq<Scope>
    var targets: seq<Target>

    function Snapshot(): State
      reads this
    {
      State(current, scopes, targets)
    }

    ghost predicate Valid()
      reads this
    {
      CanRun(Start(initial), ops) && Snapshot() == Exec(Start(initial), ops)
    }

    constructor (initial: Option<Spawner>)
      ensures Valid() && this.initial == initial && ops == []
    {
      this.initial := initial;
      current, scopes, targets, ops := initial, [], [], [];
    }

    /** `exchange` */
    method Exchange(spawner: Option<Spawner>) returns (previous: Option<Spawner>)
      modifies this`current
      ensures previous == old(current) && current == spawner
    {
      previous := current;
      current := spawner;
    }

    /** `enter`: from here on, and until it is shadowed, this spawner is the one in effect. */
    method EnterScope(spawner: Spawner) returns (scope: nat)
      requires Valid()
      modifies this
      ensures Valid() && ops == old(ops) + [Enter(spawner)]
      ensures scope == |old(scopes)| && scopes == old(scopes) + [Scope(spawner, old(current), true)]
      ensures current == Some(spawner) && targets == old(targets)
    {
      RunLonger(Start(initial), ops, Enter(spawner));
      var previous := Exchange(Some(spawner));
      scope := |scopes|;
      scopes := scopes + [Scope(spawner, previous, true)];
      ops := ops + [Enter(spawner)];
    }

    /**
      `SpawnScope::drop`. What the scope replaced is in effect again, panic or not. If all
      drops so far were in order, this one panics exactly when the innermost open scope has
      another spawner than the scope dropped; in any case it panics unless the spawner it
      takes down is its own, and for want of one exactly when there is none.
    */
    method DropScope(scope: nat) returns (result: DropResult)
      requires Valid() && scope < |scopes| && scopes[scope].isOpen
      modifies this
      ensures Valid() && ops == old(ops) + [Drop(scope)]
      ensures current == old(scopes[scope].previous) && targets == old(targets)
      ensures scopes == old(scopes)[scope := Scope(old(scopes[scope].spawner), None, false)]
      ensures result == Ending(old(Snapshot()), Drop(scope))
      ensures result.NoSpawner? <==> old(current).None?
      ensures result.Fine? <==> old(current) == Some(old(scopes[scope].spawner))
      ensures LastInFirstOut([], 0, old(ops)) ==>
                var stack := StackAfter([], 0, old(ops));
                && stack != [] && stack[0] < |scopes|
                && result == if scopes[stack[0]].spawner == scopes[scope].spawner then Fine else AssertionFailed
    {
      RunLonger(Start(initial), ops, Drop(scope));
      if LastInFirstOut([], 0, ops) {
        EncodesAlong(Start(initial), initial, [], ops);
        CaughtIff(Snapshot(), initial, StackAfter([], 0, ops), scope);
      }
      var previous := scopes[scope].previous;
      var spawner := scopes[scope].spawner;
      scopes := scopes[scope := Scope(spawner, None, false)];
      var taken := Exchange(previous);
      match taken {
        case None => result := NoSpawner;
        case Some(now) => result := if now == spawner then Fine else AssertionFailed;
      }
      ops := ops + [Drop(scope)];
    }

    /**
      `spawn_with_name`, with or without the compat feature (`compat`). The scope's spawner
      takes the task whenever there is one. Without one it goes to the first detector that
      answers, else to the global rule's choice, `choose` being the name that choice was
      settled with; the panics are for when there is none.
    */
    method SpawnWithName(
        compat: bool, compats: seq<C.Compat>, answers: C.LocalFn -> Option<C.SpawnFn>,
        choose: Option<string>, strict: bool) returns (target: Target)
      requires Valid()
      modifies this
      ensures Valid() && current == old(current) && scopes == old(scopes) && targets == old(targets) + [target]
      ensures exists fallback :: ops == old(ops) + [Spawn(fallback)]
      ensures forall spawner :: target == Scoped(spawner) <==> current == Some(spawner)
      ensures forall spawn :: target == Compatible(spawn) <==>
                && current.None? && compat
                && (C.FindLocal(compats, answers) == Some(spawn)
                    || (C.FindLocal(compats, answers).None?
                        && C.IsThePick(compats, choose, strict, C.Picked(spawn))))
      ensures target.PanicNoSpawner? <==>
                current.None? && (!compat || (C.FindLocal(compats, answers).None? && C.Globals(compats) == 0))
      ensures target.PanicMultipleGlobals? <==>
                && current.None? && compat && C.FindLocal(compats, answers).None?
                && C.FirstMatch(compats, choose).None? && strict && C.Globals(compats) > 1
    {
      C.FindSpawnMeans(compats, answers, choose, strict);
      var selection := C.Selection.NoSpawner;
      match current {
        case Some(spawner) => target := Scoped(spawner);
        case None =>
          if compat {
            var global := C.PickGlobal(compats, choose, strict);
            selection := C.FindSpawn(compats, answers, global);
          }
          match selection {
            case Found(spawn) => target := Compatible(spawn);
            case NoSpawner => target := PanicNoSpawner;
            case PanicMultipleGlobals => target := Target.PanicMultipleGlobals;
          }
      }
      RunLonger(Start(initial), ops, Spawn(selection));
      targets := targets + [target];
      ops := ops + [Spawn(selection)];
    }
  }
}
