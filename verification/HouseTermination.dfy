/**
 The whole of Project1 ends: what a house worker has still to do is lessened by each of its own steps, but for
 joining a team that is not finished and for the steps of team members that wait, and nobody else adds to it.
 */
module HouseTermination {
  import opened Graph
  import opened LevelSearch
  import opened LevelControl
  import opened LevelProof
  import opened LevelTheorems
  import opened LevelTermination
  import opened HouseSearch
  import opened HouseTheorems

  // ---------- the measure ----------

  function HousesLeft(g: Input, s: State): nat {
    if s.houseIndex < |g.houses| - 1 then |g.houses| - 1 - s.houseIndex else 0
  }

  function StageOf(pc: HouseSearch.Pc): nat {
    match pc
    case Searching => 4
    case Merging => 3
    case TestIndex => 2
    case TakeIndex => 1
    case Ended => 0
  }

  ghost function ViewOf(s: State, k: nat): View
    requires k < |s.workers| && s.workers[k].house < |s.rows|
  {
    View(s.rows[s.workers[k].house], s.workers[k].search)
  }

  ghost predicate SameSearch(s: State, s': State, k: nat) {
    && k < |s.workers| && k < |s'.workers| && s.workers[k].pc.Searching? && s'.workers[k].pc.Searching?
    && s'.workers[k].house == s.workers[k].house < |s.rows| && s.workers[k].house < |s'.rows|
  }

  /** House worker k has less to do in s' than in s. */
  ghost predicate LessToDo(g: Input, s': State, s: State, k: nat)
    requires k < |s.workers| && k < |s'.workers|
  {
    var b, a := StageOf(s'.workers[k].pc), StageOf(s.workers[k].pc);
    || HousesLeft(g, s') < HousesLeft(g, s)
    || (HousesLeft(g, s') == HousesLeft(g, s)
        && (b < a || (SameSearch(s, s', k) && LessWork(From(g, s.workers[k].house), ViewOf(s', k), ViewOf(s, k)))))
  }

  /** It has no more to do. */
  ghost predicate NoMoreToDo(g: Input, s': State, s: State, k: nat)
    requires k < |s.workers| && k < |s'.workers|
  {
    || LessToDo(g, s', s, k)
    || (HousesLeft(g, s') == HousesLeft(g, s) && s'.workers[k].pc == s.workers[k].pc
        && (s.workers[k].pc.Searching? ==>
              SameSearch(s, s', k) && NoMoreWork(From(g, s.workers[k].house), ViewOf(s', k), ViewOf(s, k))))
  }

  // ---------- the levels of all teams are bounded ----------

  ghost predicate TeamAt(g: Input, s: State, k: nat) {
    k < |s.workers| && Active(s.workers[k]) ==> Bounded(From(g, s.workers[k].house), s.workers[k].search)
  }

  ghost predicate Good(g: Input, s: State) {
    Inv(g, s) && forall k: nat :: TeamAt(g, s, k)
  }

  lemma WorkKeepsTeams(g: Input, s: State, k: nat, w: nat)
    requires Good(g, s) && Enabled(g, s, Work(k, w))
    ensures forall j: nat :: TeamAt(g, WorkStep(g, s, k, w), j)
  {
    var s', hw := WorkStep(g, s, k, w), s.workers[k];
    assert HouseWorkerAt(g, s, k) && TeamAt(g, s, k);
    StepBounded(From(g, hw.house), s.rows[hw.house], hw.search, w);
    hide LevelSearch.Step, Bounded;
    forall j: nat ensures TeamAt(g, s', j) { assert TeamAt(g, s, j); }
  }

  lemma DispatchKeepsTeams(g: Input, s: State, k: nat)
    requires Good(g, s) && k < |s.workers|
    ensures forall j: nat :: TeamAt(g, DispatchStep(g, s, k), j)
  {
    var s' := DispatchStep(g, s, k);
    assert HouseWorkerAt(g, s, k) && TeamAt(g, s, k);
    if s.workers[k].pc.TakeIndex? && s.houseIndex < |g.houses| - 1 {
      InitialBounded(From(g, s.houseIndex), s.workers[k].threads);
    }
    hide Bounded;
    forall j: nat ensures TeamAt(g, s', j) { assert TeamAt(g, s, j); }
  }

  lemma StepGood(g: Input, s: State, a: Action)
    requires Good(g, s) && Enabled(g, s, a)
    ensures Good(g, HouseSearch.Step(g, s, a))
  {
    StepInv(g, s, a);
    match a
    case Dispatch(k) => DispatchKeepsTeams(g, s, k);
    case Work(k, w) => WorkKeepsTeams(g, s, k, w);
  }

  lemma {:induction false} RunGood(g: Input, teams: seq<nat>, run: seq<State>, k: nat)
    requires ValidInput(g) && (forall i :: 0 <= i < |teams| ==> teams[i] > 0)
    requires HouseSearch.IsRun(g, teams, run) && k < |run|
    ensures Good(g, run[k]) && |run[k].workers| == |teams|
  {
    RunsKeepInv(g, teams, run, k);
    if k > 0 {
      RunGood(g, teams, run, k - 1);
      assert HouseSearch.StepAt(g, run, k);
      var a :| Enabled(g, run[k - 1], a) && run[k] == HouseSearch.Step(g, run[k - 1], a);
      hide Good, HouseSearch.Step;
      StepGood(g, run[k - 1], a);
      GoodTeams(g, run[k]);
    } else {
      assert forall j: nat :: TeamAt(g, run[0], j);
    }
  }

  lemma GoodTeams(g: Input, s: State)
    requires Good(g, s)
    ensures Inv(g, s)
  {
  }

  // ---------- steps ----------

  /** The actions that get a house worker on: its own, unless it waits for its team, and those of the members of its
      team that can get on. */
  ghost predicate GetsOn(g: Input, s: State, a: Action)
    requires Enabled(g, s, a)
  {
    var hw := s.workers[a.k];
    match a
    case Dispatch(_) => !hw.pc.Ended? && (hw.pc.Searching? ==> Finished(hw.search))
    case Work(_, w) => CanAct(hw.search, w)
  }

  lemma DispatchLessens(g: Input, s: State, k: nat)
    requires Good(g, s) && Enabled(g, s, Dispatch(k)) && GetsOn(g, s, Dispatch(k))
    ensures k < |DispatchStep(g, s, k).workers| && LessToDo(g, DispatchStep(g, s, k), s, k)
  {
    assert HouseWorkerAt(g, s, k);
    hide LevelSearch.Initial, Finished, LessWork;
  }

  lemma WorkLessens(g: Input, s: State, k: nat, w: nat)
    requires Good(g, s) && Enabled(g, s, Work(k, w)) && GetsOn(g, s, Work(k, w))
    ensures k < |WorkStep(g, s, k, w).workers| && LessToDo(g, WorkStep(g, s, k, w), s, k)
  {
    var s', hw := WorkStep(g, s, k, w), s.workers[k];
    assert HouseWorkerAt(g, s, k) && TeamAt(g, s, k);
    hide LevelSearch.Step, LessWork;
    ActingLessens(From(g, hw.house), s.rows[hw.house], hw.search, w);
    WorkView(g, s, k, w);
  }

  /** What a step does to the team it belongs to: exactly the step of the team, the row included. */
  lemma WorkView(g: Input, s: State, k: nat, w: nat)
    requires Inv(g, s) && Enabled(g, s, Work(k, w))
    ensures var s', hw := WorkStep(g, s, k, w), s.workers[k];
      && SameSearch(s, s', k)
      && ViewOf(s', k) == View(s.rows[hw.house] + BitOf(From(g, hw.house), hw.search, w),
                               LevelSearch.Step(From(g, hw.house), s.rows[hw.house], hw.search, w))
  {
    var hw := s.workers[k];
    var bits := BitOf(From(g, hw.house), hw.search, w);
    assert HouseWorkerAt(g, s, k);
    forall b | b in bits ensures b != hw.house { BitIsRecorded(g, s, k, w, b); }
  }

  // ---------- runs ----------

  /** Every such action leaves its house worker strictly less to do. */
  lemma GettingOnLessens(g: Input, teams: seq<nat>, run: seq<State>, k: nat, a: Action)
    requires ValidInput(g) && (forall i :: 0 <= i < |teams| ==> teams[i] > 0)
    requires HouseSearch.IsRun(g, teams, run) && k < |run| && Enabled(g, run[k], a) && GetsOn(g, run[k], a)
    ensures a.k < |HouseSearch.Step(g, run[k], a).workers| && LessToDo(g, HouseSearch.Step(g, run[k], a), run[k], a.k)
  {
    RunGood(g, teams, run, k);
    match a
    case Dispatch(j) => DispatchLessens(g, run[k], j);
    case Work(j, w) => WorkLessens(g, run[k], j, w);
  }

  lemma DispatchAddsNothing(g: Input, s: State, k: nat, j: nat)
    requires Good(g, s) && k < |s.workers| && j < |s.workers|
    ensures j < |DispatchStep(g, s, k).workers| && NoMoreToDo(g, DispatchStep(g, s, k), s, j)
  {
    assert HouseWorkerAt(g, s, j);
    if j == k && GetsOn(g, s, Dispatch(k)) {
      DispatchLessens(g, s, k);
    } else if Active(s.workers[j]) {
      MoreBitsAddNothing(From(g, s.workers[j].house), s.rows[s.workers[j].house], s.rows[s.workers[j].house],
        s.workers[j].search);
    }
    hide LessWork, NoMoreWork, LevelSearch.Initial;
  }

  lemma WorkAddsNothing(g: Input, s: State, k: nat, w: nat, j: nat)
    requires Good(g, s) && Enabled(g, s, Work(k, w)) && j < |s.workers|
    ensures j < |WorkStep(g, s, k, w).workers| && NoMoreToDo(g, WorkStep(g, s, k, w), s, j)
  {
    var s', hw := WorkStep(g, s, k, w), s.workers[j];
    assert HouseWorkerAt(g, s, j) && TeamAt(g, s, j);
    hide LevelSearch.Step, LessWork, NoMoreWork;
    if j == k {
      AnyStepAddsNothing(From(g, hw.house), s.rows[hw.house], hw.search, w);
      WorkView(g, s, k, w);
    } else if Active(hw) {
      MoreBitsAddNothing(From(g, hw.house), s.rows[hw.house], s'.rows[hw.house], hw.search);
    }
  }

  /** No step of anybody gives a house worker more to do. */
  lemma NobodyAddsWork(g: Input, teams: seq<nat>, run: seq<State>, k: nat, j: nat)
    requires ValidInput(g) && (forall i :: 0 <= i < |teams| ==> teams[i] > 0)
    requires HouseSearch.IsRun(g, teams, run) && 0 < k < |run| && j < |teams|
    ensures j < |run[k - 1].workers| && j < |run[k].workers| && NoMoreToDo(g, run[k], run[k - 1], j)
  {
    hide NoMoreToDo;
    RunGood(g, teams, run, k - 1);
    assert HouseSearch.StepAt(g, run, k);
    var a :| Enabled(g, run[k - 1], a) && run[k] == HouseSearch.Step(g, run[k - 1], a);
    match a
    case Dispatch(i) => DispatchAddsNothing(g, run[k - 1], i, j);
    case Work(i, w) => WorkAddsNothing(g, run[k - 1], i, w, j);
  }

  /** Until it has ended, a house worker always has an action that gets it on. */
  lemma HouseWorkersGetOn(g: Input, teams: seq<nat>, run: seq<State>, k: nat, j: nat)
    requires ValidInput(g) && (forall i :: 0 <= i < |teams| ==> teams[i] > 0)
    requires HouseSearch.IsRun(g, teams, run) && k < |run| && j < |run[k].workers| && !run[k].workers[j].pc.Ended?
    ensures exists a :: Enabled(g, run[k], a) && a.k == j && GetsOn(g, run[k], a)
  {
    var s := run[k];
    var hw := s.workers[j];
    RunGood(g, teams, run, k);
    assert HouseWorkerAt(g, s, j);
    if hw.pc.Searching? && !Finished(hw.search) {
      UnfinishedCanAct(hw.search);
      var w: nat :| CanAct(hw.search, w);
      assert Enabled(g, s, Work(j, w)) && GetsOn(g, s, Work(j, w));
    } else {
      assert Enabled(g, s, Dispatch(j)) && GetsOn(g, s, Dispatch(j));
    }
  }
}
