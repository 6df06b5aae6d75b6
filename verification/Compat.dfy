/**
  Choosing a spawner when no scope is open: the entries of `COMPATS`, in link order, and
  the process-wide answer that racing threads agree on.
*/
module Compat {
  import opened Base

  // A `fn(Task)`, and a `fn() -> Option<fn(Task)>`, as identities.
  type SpawnFn(==, !new, 0)
  type LocalFn(==, !new)

  datatype Compat =
    | NamedGlobal(name: string, spawn: SpawnFn)
    | Global(spawn: SpawnFn)
    | Local(detect: LocalFn)

  datatype Failure = NotFound | MultipleGlobals
  datatype Pick = Picked(spawn: SpawnFn) | Failed(failure: Failure)

  // ----- pick_global -------------------------------------------------------------------------

  predicate Matches(compat: Compat, choose: Option<string>) {
    compat.NamedGlobal? && choose == Some(compat.name)
  }

  /** The first entry with the chosen name. */
  function FirstMatch(compats: seq<Compat>, choose: Option<string>): Option<SpawnFn> {
    if compats == [] then None
    else if Matches(compats[0], choose) then Some(compats[0].spawn)
    else FirstMatch(compats[1..], choose)
  }

  /** The last entry of a kind. */
  function Last(compats: seq<Compat>, named: bool): Option<SpawnFn> {
    if compats == [] then None
    else
      var last := compats[|compats| - 1];
      if named && last.NamedGlobal? then Some(last.spawn)
      else if !named && last.Global? then Some(last.spawn)
      else Last(compats[..|compats| - 1], named)
  }

  function Globals(compats: seq<Compat>): nat {
    if compats == [] then 0
    else (if compats[|compats| - 1].Local? then 0 else 1) + Globals(compats[..|compats| - 1])
  }

  /**
    The rule: the first match of the name; without one, an error if there are several
    globals and the feature objects (`strict`), else the last named, else the last unnamed.
  */
  function Choice(compats: seq<Compat>, choose: Option<string>, strict: bool): Pick {
    if FirstMatch(compats, choose).Some? then Picked(FirstMatch(compats, choose).value)
    else if strict && Globals(compats) > 1 then Failed(MultipleGlobals)
    else if Last(compats, true).Some? then Picked(Last(compats, true).value)
    else if Last(compats, false).Some? then Picked(Last(compats, false).value)
    else Failed(NotFound)
  }

  predicate Chosen(compats: seq<Compat>, choose: Option<string>, i: int) {
    0 <= i < |compats| && compats[i].NamedGlobal? && choose == Some(compats[i].name)
  }

  /**
    The rule without recursion: the least index with the chosen name; else, in strict mode,
    an error for two entries that are not local; else the greatest named index; else the
    greatest unnamed one; else nothing.
  */
  ghost predicate IsThePick(compats: seq<Compat>, choose: Option<string>, strict: bool, pick: Pick) {
    if exists i :: Chosen(compats, choose, i) then
      exists i :: Chosen(compats, choose, i) && (forall j | j < i :: !Chosen(compats, choose, j))
                  && pick == Picked(compats[i].spawn)
    else if strict && exists i, j | 0 <= i < j < |compats| :: !compats[i].Local? && !compats[j].Local? then
      pick == Failed(MultipleGlobals)
    else if exists i | 0 <= i < |compats| :: compats[i].NamedGlobal? then
      exists i | 0 <= i < |compats| ::
        && compats[i].NamedGlobal? && pick == Picked(compats[i].spawn)
        && forall j | i < j < |compats| :: !compats[j].NamedGlobal?
    else if exists i | 0 <= i < |compats| :: compats[i].Global? then
      exists i | 0 <= i < |compats| ::
        && compats[i].Global? && pick == Picked(compats[i].spawn)
        && forall j | i < j < |compats| :: !compats[j].Global?
    else pick == Failed(NotFound)
  }

  /** `pick_global`: one scan, which a match cuts short. */
  method PickGlobal(compats: seq<Compat>, choose: Option<string>, strict: bool) returns (pick: Pick)
    ensures IsThePick(compats, choose, strict, pick)
    ensures pick == Choice(compats, choose, strict)
  {
    ChoiceMeans(compats, choose, strict);
    var globals := 0;
    var lastNamed: Option<SpawnFn> := None;
    var lastUnnamed: Option<SpawnFn> := None;
    for i := 0 to |compats|
      invariant globals == Globals(compats[..i])
      invariant lastNamed == Last(compats[..i], true)
      invariant lastUnnamed == Last(compats[..i], false)
      invariant FirstMatch(compats, choose) == FirstMatch(compats[i..], choose)
    {
      assert compats[..i + 1][..i] == compats[..i];
      match compats[i] {
        case Local(_) =>
        case Global(spawn) =>
          globals := globals + 1;
          lastUnnamed := Some(spawn);
        case NamedGlobal(name, spawn) =>
          if choose == Some(name) {
            return Picked(spawn);
          }
          globals := globals + 1;
          lastNamed := Some(spawn);
      }
    }
    assert compats[..|compats|] == compats;
    if strict && globals > 1 {
      return Failed(MultipleGlobals);
    }
    match lastNamed {
      case Some(spawn) => pick := Picked(spawn);
      case None =>
        match lastUnnamed {
          case Some(spawn) => pick := Picked(spawn);
          case None => pick := Failed(NotFound);
        }
    }
  }

  lemma {:induction false} FirstMatchMeans(compats: seq<Compat>, choose: Option<string>)
    ensures match FirstMatch(compats, choose)
            case None => forall i | 0 <= i < |compats| :: !Matches(compats[i], choose)
            case Some(spawn) =>
              exists i | 0 <= i < |compats| ::
                && Matches(compats[i], choose) && compats[i].spawn == spawn
                && forall j | 0 <= j < i :: !Matches(compats[j], choose)
  {
    if compats == [] {
    } else {
      FirstMatchMeans(compats[1..], choose);
      if Matches(compats[0], choose) {
      } else if FirstMatch(compats[1..], choose).Some? {
        var i :| 0 <= i < |compats[1..]| && Matches(compats[1..][i], choose)
                 && compats[1..][i].spawn == FirstMatch(compats[1..], choose).value
                 && forall j | 0 <= j < i :: !Matches(compats[1..][j], choose);
        assert compats[i + 1] == compats[1..][i];
        forall j | 0 <= j < i + 1 ensures !Matches(compats[j], choose) {
          assert j > 0 ==> compats[j] == compats[1..][j - 1];
        }
      } else {
        forall j | 0 <= j < |compats| ensures !Matches(compats[j], choose) {
          assert j > 0 ==> compats[j] == compats[1..][j - 1];
        }
      }
    }
  }

  predicate OfKind(compat: Compat, named: bool) {
    if named then compat.NamedGlobal? else compat.Global?
  }

  lemma {:induction false} LastMeans(compats: seq<Compat>, named: bool)
    ensures match Last(compats, named)
            case None => forall i | 0 <= i < |compats| :: !OfKind(compats[i], named)
            case Some(spawn) =>
              exists i | 0 <= i < |compats| ::
                && OfKind(compats[i], named) && compats[i].spawn == spawn
                && forall j | i < j < |compats| :: !OfKind(compats[j], named)
  {
    if compats == [] {
    } else {
      var n := |compats| - 1;
      LastMeans(compats[..n], named);
      if OfKind(compats[n], named) {
      } else if Last(compats[..n], named).Some? {
        var i :| 0 <= i < n && OfKind(compats[..n][i], named)
                 && compats[..n][i].spawn == Last(compats[..n], named).value
                 && forall j | i < j < n :: !OfKind(compats[..n][j], named);
        assert compats[i] == compats[..n][i];
        forall j | i < j < |compats| ensures !OfKind(compats[j], named) {
          assert j < n ==> compats[j] == compats[..n][j];
        }
      } else {
        forall j | 0 <= j < |compats| ensures !OfKind(compats[j], named) {
          assert j < n ==> compats[j] == compats[..n][j];
        }
      }
    }
  }

  lemma {:induction false} GlobalsMeans(compats: seq<Compat>)
    ensures Globals(compats) == |set i | 0 <= i < |compats| && !compats[i].Local?|
  {
    if compats == [] {
    } else {
      var n := |compats| - 1;
      GlobalsMeans(compats[..n]);
      var before := set i | 0 <= i < n && !compats[..n][i].Local?;
      var all := set i | 0 <= i < |compats| && !compats[i].Local?;
      assert all == before + (if compats[n].Local? then {} else {n});
    }
  }

  lemma {:induction false} SeveralGlobals(compats: seq<Compat>)
    ensures Globals(compats) > 0 <==> exists i | 0 <= i < |compats| :: !compats[i].Local?
    ensures Globals(compats) > 1 <==>
              exists i, j | 0 <= i < j < |compats| :: !compats[i].Local? && !compats[j].Local?
  {
    if compats == [] {
    } else {
      var n := |compats| - 1;
      var front := compats[..n];
      SeveralGlobals(front);
      assert forall i | 0 <= i < n :: front[i] == compats[i];
      if i, j :| 0 <= i < j < |compats| && !compats[i].Local? && !compats[j].Local? && Globals(front) <= 1 {
        assert j == n && !front[i].Local?;
      }
    }
  }

  /** The choice is the one pick that meets the rule. */
  lemma ChoiceMeans(compats: seq<Compat>, choose: Option<string>, strict: bool)
    ensures IsThePick(compats, choose, strict, Choice(compats, choose, strict))
  {
    FirstMatchMeans(compats, choose);
    LastMeans(compats, true);
    LastMeans(compats, false);
    SeveralGlobals(compats);
    assert forall i | 0 <= i < |compats| :: Matches(compats[i], choose) <==> Chosen(compats, choose, i);
    assert forall i | 0 <= i < |compats| :: OfKind(compats[i], true) <==> compats[i].NamedGlobal?;
    assert forall i | 0 <= i < |compats| :: OfKind(compats[i], false) <==> compats[i].Global?;
  }

  lemma OnlyOnePick(compats: seq<Compat>, choose: Option<string>, strict: bool, pick: Pick)
    ensures IsThePick(compats, choose, strict, pick) <==> pick == Choice(compats, choose, strict)
  {
    ChoiceMeans(compats, choose, strict);
    if IsThePick(compats, choose, strict, pick) {
      NoOtherPick(compats, choose, strict, pick, Choice(compats, choose, strict));
    }
  }

  lemma NoOtherPick(compats: seq<Compat>, choose: Option<string>, strict: bool, pick: Pick, other: Pick)
    requires IsThePick(compats, choose, strict, pick) && IsThePick(compats, choose, strict, other)
    ensures pick == other
  {
    if exists i :: Chosen(compats, choose, i) {
      var i :| Chosen(compats, choose, i) && (forall j | j < i :: !Chosen(compats, choose, j))
               && pick == Picked(compats[i].spawn);
      var k :| Chosen(compats, choose, k) && (forall j | j < k :: !Chosen(compats, choose, j))
               && other == Picked(compats[k].spawn);
      assert i == k;
    }
  }

  // ----- find_spawn --------------------------------------------------------------------------

  datatype Selection = Found(spawn: SpawnFn) | NoSpawner | PanicMultipleGlobals

  /** `find_local`: the first detector that answers on this thread. */
  function FindLocal(compats: seq<Compat>, answers: LocalFn -> Option<SpawnFn>): Option<SpawnFn> {
    if compats == [] then None
    else if compats[0].Local? && answers(compats[0].detect).Some? then answers(compats[0].detect)
    else FindLocal(compats[1..], answers)
  }

  /** `find_spawn` without its shortcuts; `global` is what `find_global` answers. */
  function Search(compats: seq<Compat>, answers: LocalFn -> Option<SpawnFn>, global: Pick): Selection {
    match FindLocal(compats, answers)
    case Some(spawn) => Found(spawn)
    case None =>
      match global
      case Picked(spawn) => Found(spawn)
      case Failed(NotFound) => NoSpawner
      case Failed(MultipleGlobals) => PanicMultipleGlobals
  }

  /** `find_spawn` */
  function FindSpawn(compats: seq<Compat>, answers: LocalFn -> Option<SpawnFn>, global: Pick): Selection {
    if |compats| == 0 then NoSpawner
    else if |compats| == 1 then
      match compats[0]
      case NamedGlobal(_, spawn) => Found(spawn)
      case Global(spawn) => Found(spawn)
      case Local(detect) => if answers(detect).Some? then Found(answers(detect).value) else NoSpawner
    else Search(compats, answers, global)
  }

  /**
    The shortcuts for no entry and for one change nothing, whatever name the environment
    asked for when the global answer was settled.
  */
  lemma ShortcutsAgree(
      compats: seq<Compat>, answers: LocalFn -> Option<SpawnFn>, choose: Option<string>, strict: bool)
    ensures FindSpawn(compats, answers, Choice(compats, choose, strict))
            == Search(compats, answers, Choice(compats, choose, strict))
  {
    if |compats| == 1 {
      assert compats[1..] == [];
      assert FindLocal([], answers).None? && FirstMatch([], choose).None?;
      assert compats[..|compats| - 1] == [];
      assert Globals(compats) <= 1;
      assert Last(compats[..|compats| - 1], true).None? && Last(compats[..|compats| - 1], false).None?;
    }
  }

  predicate Answers(compat: Compat, answers: LocalFn -> Option<SpawnFn>) {
    compat.Local? && answers(compat.detect).Some?
  }

  lemma {:induction false} FindLocalMeans(compats: seq<Compat>, answers: LocalFn -> Option<SpawnFn>)
    ensures match FindLocal(compats, answers)
            case None => forall i | 0 <= i < |compats| :: !Answers(compats[i], answers)
            case Some(spawn) =>
              exists i | 0 <= i < |compats| ::
                && Answers(compats[i], answers) && answers(compats[i].detect) == Some(spawn)
                && forall j | 0 <= j < i :: !Answers(compats[j], answers)
  {
    if compats == [] {
    } else {
      var rest := compats[1..];
      FindLocalMeans(rest, answers);
      if Answers(compats[0], answers) {
      } else if FindLocal(rest, answers).Some? {
        var i :| 0 <= i < |rest| && Answers(rest[i], answers)
                 && answers(rest[i].detect) == FindLocal(rest, answers)
                 && forall j | 0 <= j < i :: !Answers(rest[j], answers);
        assert compats[i + 1] == rest[i];
        forall j | 0 <= j < i + 1 ensures !Answers(compats[j], answers) {
          assert j > 0 ==> compats[j] == rest[j - 1];
        }
      } else {
        forall j | 0 <= j < |compats| ensures !Answers(compats[j], answers) {
          assert j > 0 ==> compats[j] == rest[j - 1];
        }
      }
    }
  }

  /**
    So the spawner found is the first local answer, or without one the global rule's; and
    this is when there is none to find.
  */
  lemma FindSpawnMeans(
      compats: seq<Compat>, answers: LocalFn -> Option<SpawnFn>, choose: Option<string>, strict: bool)
    ensures var result := FindSpawn(compats, answers, Choice(compats, choose, strict));
            && (result.PanicMultipleGlobals? <==>
                  && FindLocal(compats, answers).None? && FirstMatch(compats, choose).None?
                  && strict && Globals(compats) > 1)
            && (result.NoSpawner? <==> FindLocal(compats, answers).None? && Globals(compats) == 0)
            && forall spawn :: result == Found(spawn) <==>
                 || FindLocal(compats, answers) == Some(spawn)
                 || (FindLocal(compats, answers).None? && IsThePick(compats, choose, strict, Picked(spawn)))
  {
    ShortcutsAgree(compats, answers, choose, strict);
    forall spawn
      ensures IsThePick(compats, choose, strict, Picked(spawn)) <==> Choice(compats, choose, strict) == Picked(spawn)
    {
      OnlyOnePick(compats, choose, strict, Picked(spawn));
    }
    FirstMatchMeans(compats, choose);
    LastMeans(compats, true);
    LastMeans(compats, false);
    NoGlobals(compats);
  }

  lemma {:induction false} NoGlobals(compats: seq<Compat>)
    ensures Globals(compats) == 0 <==> Last(compats, true).None? && Last(compats, false).None?
    ensures Globals(compats) == 0 ==> forall i | 0 <= i < |compats| :: compats[i].Local?
  {
    if compats == [] {
    } else {
      NoGlobals(compats[..|compats| - 1]);
      forall i | 0 <= i < |compats| && Globals(compats) == 0 ensures compats[i].Local? {
        assert i < |compats| - 1 ==> compats[i] == compats[..|compats| - 1][i];
      }
    }
  }

  // ----- find_global -------------------------------------------------------------------------

  type Thread = nat

  /** Where one call of `find_global` is. */
  datatype FindPc =
    | Missed                  // `FOUND.get()` was None; about to read the environment
    | Computed(pick: Pick)    // about to call `FOUND.get_or_init`
    | Returned(pick: Pick)

  datatype Race = Race(
    found: Option<Pick>,             // the OnceLock
    callers: map<Thread, FindPc>,
    read: set<Option<string>>)       // history: the names read from the environment

  datatype FindStep = Get(thread: Thread) | Read(thread: Thread, choose: Option<string>) | GetOrInit(thread: Thread)

  predicate FindEnabled(r: Race, step: FindStep) {
    match step
    case Get(t) => t in r.callers ==> r.callers[t].Returned?
    case Read(t, _) => t in r.callers && r.callers[t].Missed?
    case GetOrInit(t) => t in r.callers && r.callers[t].Computed?
  }

  function FindApply(r: Race, step: FindStep, compats: seq<Compat>, strict: bool): Race
    requires FindEnabled(r, step)
  {
    match step
    case Get(t) =>
      r.(callers := r.callers[t := if r.found.Some? then Returned(r.found.value) else Missed])
    case Read(t, choose) =>
      r.(callers := r.callers[t := Computed(Choice(compats, choose, strict))], read := r.read + {choose})
    case GetOrInit(t) =>
      var found := if r.found.Some? then r.found.value else r.callers[t].pick;
      r.(found := Some(found), callers := r.callers[t := Returned(found)])
  }

  predicate CanRace(r: Race, steps: seq<FindStep>, compats: seq<Compat>, strict: bool)
    decreases steps
  {
    steps == [] ||
    (FindEnabled(r, steps[0]) && CanRace(FindApply(r, steps[0], compats, strict), steps[1..], compats, strict))
  }

  function FindExec(r: Race, steps: seq<FindStep>, compats: seq<Compat>, strict: bool): Race
    requires CanRace(r, steps, compats, strict)
    decreases steps
  {
    if steps == [] then r else FindExec(FindApply(r, steps[0], compats, strict), steps[1..], compats, strict)
  }

  predicate FromARead(pick: Pick, read: set<Option<string>>, compats: seq<Compat>, strict: bool) {
    exists choose <- read :: pick == Choice(compats, choose, strict)
  }

  predicate RaceOk(r: Race, compats: seq<Compat>, strict: bool) {
    && (r.found.Some? ==> FromARead(r.found.value, r.read, compats, strict))
    && forall t <- r.callers ::
         && (r.callers[t].Computed? ==> FromARead(r.callers[t].pick, r.read, compats, strict))
         && (r.callers[t].Returned? ==> r.found == Some(r.callers[t].pick))
  }

  lemma RaceStep(r: Race, step: FindStep, compats: seq<Compat>, strict: bool)
    requires RaceOk(r, compats, strict) && FindEnabled(r, step)
    ensures RaceOk(FindApply(r, step, compats, strict), compats, strict)
    ensures r.found.Some? ==> FindApply(r, step, compats, strict).found == r.found
  {
    var after := FindApply(r, step, compats, strict);
    forall pick | FromARead(pick, r.read, compats, strict) ensures FromARead(pick, after.read, compats, strict) {
      var choose :| choose in r.read && pick == Choice(compats, choose, strict);
      assert choose in after.read;
    }
    if step.Read? {
      assert step.choose in after.read;
    }
  }

  lemma {:induction false} RaceAlong(r: Race, steps: seq<FindStep>, compats: seq<Compat>, strict: bool)
    requires RaceOk(r, compats, strict) && CanRace(r, steps, compats, strict)
    ensures RaceOk(FindExec(r, steps, compats, strict), compats, strict)
    ensures r.found.Some? ==> FindExec(r, steps, compats, strict).found == r.found
    decreases steps
  {
    if steps == [] {
    } else {
      RaceStep(r, steps[0], compats, strict);
      RaceAlong(FindApply(r, steps[0], compats, strict), steps[1..], compats, strict);
    }
  }

  /** The names recorded are those of the steps that read the environment. */
  lemma {:induction false} ReadsAreSteps(
      r: Race, steps: seq<FindStep>, compats: seq<Compat>, strict: bool, choose: Option<string>)
    requires CanRace(r, steps, compats, strict)
    ensures choose in FindExec(r, steps, compats, strict).read <==>
              choose in r.read || exists t :: Read(t, choose) in steps
    decreases steps
  {
    if steps == [] {
    } else {
      ReadsAreSteps(FindApply(r, steps[0], compats, strict), steps[1..], compats, strict, choose);
      if t :| Read(t, choose) in steps && Read(t, choose) !in steps[1..] {
        assert steps[0] == Read(t, choose);
      }
    }
  }

  /** An answer is the rule's for a name that some thread, in one of these steps, read. */
  ghost predicate RuleOfARead(pick: Pick, steps: seq<FindStep>, compats: seq<Compat>, strict: bool) {
    exists t, choose :: Read(t, choose) in steps && IsThePick(compats, choose, strict, pick)
  }

  lemma SettledByARead(before: seq<FindStep>, steps: seq<FindStep>, compats: seq<Compat>, strict: bool, pick: Pick)
    requires CanRace(Race(None, map[], {}), before, compats, strict)
    requires CanRace(FindExec(Race(None, map[], {}), before, compats, strict), steps, compats, strict)
    requires var early := FindExec(Race(None, map[], {}), before, compats, strict);
             FromARead(pick, FindExec(early, steps, compats, strict).read, compats, strict)
    ensures RuleOfARead(pick, before + steps, compats, strict)
  {
    var early := FindExec(Race(None, map[], {}), before, compats, strict);
    var late := FindExec(early, steps, compats, strict);
    var choose :| choose in late.read && pick == Choice(compats, choose, strict);
    ReadsAreSteps(Race(None, map[], {}), before, compats, strict, choose);
    ReadsAreSteps(early, steps, compats, strict, choose);
    var t :| Read(t, choose) in before || Read(t, choose) in steps;
    assert Read(t, choose) in before + steps;
    ChoiceMeans(compats, choose, strict);
  }

  /**
    However many threads race, and whatever each reads from the environment, all calls that
    have returned got one answer, which is the rule's for a name some of them read; and
    once it is settled it stays.
  */
  lemma OneGlobalAnswer(before: seq<FindStep>, steps: seq<FindStep>, compats: seq<Compat>, strict: bool)
    requires CanRace(Race(None, map[], {}), before, compats, strict)
    requires CanRace(FindExec(Race(None, map[], {}), before, compats, strict), steps, compats, strict)
    ensures var early := FindExec(Race(None, map[], {}), before, compats, strict);
            var late := FindExec(early, steps, compats, strict);
            && (forall t <- late.callers | late.callers[t].Returned? ::
                  late.found == Some(late.callers[t].pick)
                  && RuleOfARead(late.callers[t].pick, before + steps, compats, strict))
            && (early.found.Some? ==> late.found == early.found)
  {
    var late := FindExec(FindExec(Race(None, map[], {}), before, compats, strict), steps, compats, strict);
    RaceAlong(Race(None, map[], {}), before, compats, strict);
    RaceAlong(FindExec(Race(None, map[], {}), before, compats, strict), steps, compats, strict);
    forall t <- late.callers | late.callers[t].Returned?
      ensures RuleOfARead(late.callers[t].pick, before + steps, compats, strict)
    {
      SettledByARead(before, steps, compats, strict, late.callers[t].pick);
    }
  }

  /**
    So two threads without a local answer choose alike, whatever each read from the
    environment and whenever each asked: both follow the rule for one name that some thread
    read.
  */
  lemma ThreadsChooseAlike(
      before: seq<FindStep>, steps: seq<FindStep>, compats: seq<Compat>, strict: bool,
      t: Thread, answersT: LocalFn -> Option<SpawnFn>, u: Thread, answersU: LocalFn -> Option<SpawnFn>)
    requires CanRace(Race(None, map[], {}), before, compats, strict)
    requires CanRace(FindExec(Race(None, map[], {}), before, compats, strict), steps, compats, strict)
    requires FindLocal(compats, answersT).None? && FindLocal(compats, answersU).None?
    requires var early := FindExec(Race(None, map[], {}), before, compats, strict);
             t in early.callers && early.callers[t].Returned?
    requires var late := FindExec(FindExec(Race(None, map[], {}), before, compats, strict), steps, compats, strict);
             u in late.callers && late.callers[u].Returned?
    ensures var early := FindExec(Race(None, map[], {}), before, compats, strict);
            var late := FindExec(early, steps, compats, strict);
            && FindSpawn(compats, answersT, early.callers[t].pick)
               == FindSpawn(compats, answersU, late.callers[u].pick)
            && FindSpawn(compats, answersU, late.callers[u].pick) == Search(compats, answersU, late.callers[u].pick)
            && RuleOfARead(late.callers[u].pick, before + steps, compats, strict)
  {
    var early := FindExec(Race(None, map[], {}), before, compats, strict);
    var late := FindExec(early, steps, compats, strict);
    RaceAlong(Race(None, map[], {}), before, compats, strict);
    RaceAlong(early, steps, compats, strict);
    assert early.callers[t].pick == late.callers[u].pick;
    SettledByARead(before, steps, compats, strict, late.callers[u].pick);
    var choose :| choose in late.read && late.callers[u].pick == Choice(compats, choose, strict);
    ShortcutsAgree(compats, answersT, choose, strict);
    ShortcutsAgree(compats, answersU, choose, strict);
  }

  /**
    From any race, a thread that is not asking can ask, whatever it reads: it gets the answer
    that is settled, or settles the rule's for what it read.
  */
  lemma AnyThreadCanAsk(r: Race, t: Thread, choose: Option<string>, compats: seq<Compat>, strict: bool)
    requires t in r.callers ==> r.callers[t].Returned?
    ensures var steps := if r.found.Some? then [Get(t)] else [Get(t)] + ([Read(t, choose)] + [GetOrInit(t)]);
            && CanRace(r, steps, compats, strict)
            && var after := FindExec(r, steps, compats, strict);
               && t in after.callers && after.callers[t].Returned? && after.found == Some(after.callers[t].pick)
               && (r.found.Some? ==> after.found == r.found)
               && (r.found.None? ==> IsThePick(compats, choose, strict, after.found.value))
  {
    ChoiceMeans(compats, choose, strict);
    var asked := FindApply(r, Get(t), compats, strict);
    if r.found.Some? {
      OneStep(r, Get(t), [], compats, strict);
      assert [Get(t)] + [] == [Get(t)];
    } else {
      var read := FindApply(asked, Read(t, choose), compats, strict);
      OneStep(read, GetOrInit(t), [], compats, strict);
      assert [GetOrInit(t)] + [] == [GetOrInit(t)];
      OneStep(asked, Read(t, choose), [GetOrInit(t)], compats, strict);
      OneStep(r, Get(t), [Read(t, choose)] + [GetOrInit(t)], compats, strict);
    }
  }

  lemma OneStep(r: Race, step: FindStep, rest: seq<FindStep>, compats: seq<Compat>, strict: bool)
    requires FindEnabled(r, step) && CanRace(FindApply(r, step, compats, strict), rest, compats, strict)
    ensures CanRace(r, [step] + rest, compats, strict)
    ensures FindExec(r, [step] + rest, compats, strict)
            == FindExec(FindApply(r, step, compats, strict), rest, compats, strict)
  {
    assert ([step] + rest)[1..] == rest;
  }

  /**
    Two threads that find nothing settled and read different names: the one that fills the
    lock first decides for both.
  */
  lemma FirstFillDecides(
      t: Thread, u: Thread, a: Option<string>, b: Option<string>, compats: seq<Compat>, strict: bool)
    requires t != u
    ensures var steps := [Get(t)] + ([Get(u)] + ([Read(t, a)] + ([Read(u, b)] + ([GetOrInit(u)] + [GetOrInit(t)]))));
            && CanRace(Race(None, map[], {}), steps, compats, strict)
            && var after := FindExec(Race(None, map[], {}), steps, compats, strict);
               && t in after.callers && u in after.callers
               && after.callers[u].Returned? && after.callers[t] == after.callers[u]
               && IsThePick(compats, b, strict, after.callers[u].pick)
  {
    ChoiceMeans(compats, b, strict);
    var r0 := Race(None, map[], {});
    var r1 := FindApply(r0, Get(t), compats, strict);
    var r2 := FindApply(r1, Get(u), compats, strict);
    var r3 := FindApply(r2, Read(t, a), compats, strict);
    var r4 := FindApply(r3, Read(u, b), compats, strict);
    var r5 := FindApply(r4, GetOrInit(u), compats, strict);
    OneStep(r5, GetOrInit(t), [], compats, strict);
    assert [GetOrInit(t)] + [] == [GetOrInit(t)];
    OneStep(r4, GetOrInit(u), [GetOrInit(t)], compats, strict);
    OneStep(r3, Read(u, b), [GetOrInit(u)] + [GetOrInit(t)], compats, strict);
    OneStep(r2, Read(t, a), [Read(u, b)] + ([GetOrInit(u)] + [GetOrInit(t)]), compats, strict);
    OneStep(r1, Get(u), [Read(t, a)] + ([Read(u, b)] + ([GetOrInit(u)] + [GetOrInit(t)])), compats, strict);
    OneStep(r0, Get(t), [Get(u)] + ([Read(t, a)] + ([Read(u, b)] + ([GetOrInit(u)] + [GetOrInit(t)]))),
            compats, strict);
  }

  /** The OnceLock, filled in place. */
  class GlobalCache {
    const compats: seq<Compat>
    const strict: bool
    var found: Option<Pick>

    constructor (compats: seq<Compat>, strict: bool)
      ensures this.compats == compats && this.strict == strict && found.None?
    {
      this.compats, this.strict, found := compats, strict, None;
    }

    /** `FOUND.get_or_init(|| result)` */
    method Settle(result: Pick) returns (answer: Pick)
      modifies this`found
      ensures found == Some(answer)
      ensures answer == if old(found).Some? then old(found).value else result
    {
      if found.None? {
        found := Some(result);
      }
      answer := found.value;
    }

    /** `find_global`, when a rival may settle the answer between the look and the fill. */
    method FindGlobal(choose: Option<string>, rival: Option<Pick>) returns (answer: Pick)
      modifies this`found
      ensures found == Some(answer)
      ensures if old(found).Some? then answer == old(found).value
              else if rival.Some? then answer == rival.value
              else IsThePick(compats, choose, strict, answer)
    {
      match found {
        case Some(settled) => return settled;
        case None =>
      }
      var result := PickGlobal(compats, choose, strict);
      if rival.Some? {
        var _ := Settle(rival.value);
      }
      answer := Settle(result);
    }
  }
}
