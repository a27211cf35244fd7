/**
 The pruned, concurrent searches find the same answer as naive all-pairs shortest distances.
 */
module HouseTheorems {
  import opened Graph
  import opened LevelSearch
  import opened LevelControl
  import opened LevelProof
  import opened LevelTheorems
  import opened HouseSearch

  // ---------- the invariant ----------

  predicate Active(hw: HouseWorker) {
    hw.pc.Searching? || hw.pc.Merging?
  }

  ghost predicate HouseWorkerAt(g: Input, s: State, k: nat) {
    k < |s.workers| ==>
      var hw := s.workers[k];
      && hw.threads > 0
      && Genuine(g.adj, g.houses, hw.result)
      && (hw.pc.Ended? ==> s.houseIndex >= |g.houses| - 1)
      && (Active(hw) ==>
           && hw.house < |g.houses| && hw.house < |s.rows|
           && Control(hw.search)
           && SearchInv(From(g, hw.house), s.rows[hw.house], hw.search))
      && (hw.pc.Merging? ==> Finished(hw.search))
  }

  /** Distance d has gone into a result that will be printed. */
  ghost predicate Known(hw: HouseWorker, d: int) {
    Covers(hw.result, d) || (Active(hw) && Covers(hw.search.result, d))
  }

  /** A bit stands for a distance that has been recorded. */
  ghost predicate BitAt(g: Input, s: State, a: nat, b: nat) {
    a < |s.rows| && b in s.rows[a] ==>
      && a < |g.houses| && b < |g.houses| && a != b
      && exists d: nat, k :: Dist(g.adj, g.houses[a], g.houses[b], d) && 0 <= k < |s.workers| && Known(s.workers[k], d)
  }

  ghost predicate TakenAt(g: Input, s: State, a: nat) {
    a < s.houseIndex && a < |g.houses| - 1 && a !in s.searched ==>
      exists k :: 0 <= k < |s.workers| && Active(s.workers[k]) && s.workers[k].house == a
  }

  ghost predicate SearchedAt(g: Input, s: State, a: nat, b: nat) {
    a in s.searched && a < |g.houses| && b < |g.houses| && a != b && Connected(g.adj, g.houses[a], g.houses[b]) ==>
      a < |s.rows| && b in s.rows[a]
  }

  ghost predicate Inv(g: Input, s: State) {
    && ValidInput(g) && |s.rows| == |g.houses| && s.houseIndex >= 0
    && (forall k: nat :: HouseWorkerAt(g, s, k))
    && (forall a: nat, b: nat :: BitAt(g, s, a, b))
    && (forall a: nat :: TakenAt(g, s, a))
    && (forall a: nat, b: nat :: SearchedAt(g, s, a, b))
  }

  lemma InitialInv(g: Input, teams: seq<nat>)
    requires ValidInput(g) && forall k :: 0 <= k < |teams| ==> teams[k] > 0
    ensures Inv(g, HouseSearch.Initial(g, teams))
  {
  }

  // ---------- dispatch steps ----------

  /** House worker k moves and forgets no distance; the rows stay. */
  lemma DispatchKeeps(g: Input, s: State, s': State, k: nat)
    requires Inv(g, s) && k < |s.workers| && |s'.workers| == |s.workers|
    requires s'.rows == s.rows && s'.workers == s.workers[k := s'.workers[k]] && s'.houseIndex >= s.houseIndex
    requires HouseWorkerAt(g, s', k)
    requires forall d: nat :: Known(s.workers[k], d) ==> Known(s'.workers[k], d)
    requires forall a: nat :: TakenAt(g, s', a)
    requires forall a: nat, b: nat :: SearchedAt(g, s', a, b)
    ensures Inv(g, s')
  {
    forall j: nat ensures HouseWorkerAt(g, s', j) { assert HouseWorkerAt(g, s, j); }
    forall a: nat, b: nat ensures BitAt(g, s', a, b) {
      assert BitAt(g, s, a, b);
      if a < |s.rows| && b in s.rows[a] {
        var d: nat, j :| Dist(g.adj, g.houses[a], g.houses[b], d) && 0 <= j < |s.workers| && Known(s.workers[j], d);
        assert Known(s'.workers[j], d);
      }
    }
  }

  lemma TakenKept(g: Input, s: State, s': State, k: nat, a: nat)
    requires TakenAt(g, s, a) && k < |s.workers| && |s'.workers| == |s.workers|
    requires s'.workers == s.workers[k := s'.workers[k]] && s'.houseIndex == s.houseIndex && s.searched <= s'.searched
    requires Active(s.workers[k]) && s.workers[k].house == a ==>
      a in s'.searched || (Active(s'.workers[k]) && s'.workers[k].house == a)
    ensures TakenAt(g, s', a)
  {
    if a < s'.houseIndex && a < |g.houses| - 1 && a !in s'.searched {
      var j :| 0 <= j < |s.workers| && Active(s.workers[j]) && s.workers[j].house == a;
      assert Active(s'.workers[j]) && s'.workers[j].house == a;
    }
  }

  lemma QuietDispatch(g: Input, s: State, k: nat)
    requires Inv(g, s) && k < |s.workers|
      && (s.workers[k].pc.TestIndex? || s.workers[k].pc.Searching? || s.workers[k].pc.Ended?)
    ensures Inv(g, DispatchStep(g, s, k))
  {
    var s' := DispatchStep(g, s, k);
    assert HouseWorkerAt(g, s, k);
    forall a: nat ensures TakenAt(g, s', a) { assert TakenAt(g, s, a); TakenKept(g, s, s', k, a); }
    forall a: nat, b: nat ensures SearchedAt(g, s', a, b) { assert SearchedAt(g, s, a, b); }
    DispatchKeeps(g, s, s', k);
  }

  lemma TakeKeepsTaken(g: Input, s: State, k: nat, a: nat)
    requires Inv(g, s) && k < |s.workers| && s.workers[k].pc.TakeIndex?
    ensures TakenAt(g, DispatchStep(g, s, k), a)
  {
    var s' := DispatchStep(g, s, k);
    assert HouseWorkerAt(g, s, k) && TakenAt(g, s, a);
    if a < s'.houseIndex && a < |g.houses| - 1 && a !in s'.searched {
      if a == s.houseIndex {
        assert Active(s'.workers[k]) && s'.workers[k].house == a;
      } else {
        var j :| 0 <= j < |s.workers| && Active(s.workers[j]) && s.workers[j].house == a;
        assert s'.workers[j] == s.workers[j];
      }
    }
  }

  lemma TakeDispatch(g: Input, s: State, k: nat)
    requires Inv(g, s) && k < |s.workers| && s.workers[k].pc.TakeIndex?
    ensures Inv(g, DispatchStep(g, s, k))
  {
    var s', index := DispatchStep(g, s, k), s.houseIndex;
    assert HouseWorkerAt(g, s, k);
    if index < |g.houses| - 1 {
      InitialControl(From(g, index), s.workers[k].threads);
      InitialSearch(From(g, index), s.rows[index], s.workers[k].threads);
    }
    forall a: nat ensures TakenAt(g, s', a) { TakeKeepsTaken(g, s, k, a); }
    forall a: nat, b: nat ensures SearchedAt(g, s', a, b) { assert SearchedAt(g, s, a, b); }
    DispatchKeeps(g, s, s', k);
  }

  lemma MergeDispatch(g: Input, s: State, k: nat)
    requires Inv(g, s) && k < |s.workers| && s.workers[k].pc.Merging?
    ensures Inv(g, DispatchStep(g, s, k))
  {
    var s', hw := DispatchStep(g, s, k), s.workers[k];
    assert HouseWorkerAt(g, s, k);
    MergeGenuine(g, hw.result, hw.search.result);
    forall a: nat ensures TakenAt(g, s', a) { assert TakenAt(g, s, a); TakenKept(g, s, s', k, a); }
    forall a: nat, b: nat ensures SearchedAt(g, s', a, b) {
      assert SearchedAt(g, s, a, b);
      if a == hw.house && b < |g.houses| && a != b && Connected(g.adj, g.houses[a], g.houses[b]) {
        FinishedHasMetAll(From(g, a), s.rows[a], hw.search, b);
      }
    }
    DispatchKeeps(g, s, s', k);
  }

  // ---------- steps inside a search ----------

  /** A bit set by a worker stands for the distance its team has just recorded. */
  lemma BitIsRecorded(g: Input, s: State, k: nat, w: nat, b: nat)
    requires Inv(g, s) && Enabled(g, s, Work(k, w)) && b in BitOf(From(g, s.workers[k].house), s.workers[k].search, w)
    ensures var hw, d := s.workers[k], s.workers[k].search.level + 1;
      && hw.house < |g.houses| && b < |g.houses| && b != hw.house
      && Dist(g.adj, g.houses[hw.house], g.houses[b], d) && Dist(g.adj, g.houses[b], g.houses[hw.house], d)
      && Covers(hw.search.result, d)
  {
    var hw := s.workers[k];
    var p := From(g, hw.house);
    assert HouseWorkerAt(g, s, k);
    RecordIsGenuine(p, s.rows[hw.house], hw.search, w);
    assert TargetAt(p, hw.search, w);
    DistSymmetric(g.adj, g.houses[hw.house], g.houses[b], hw.search.level + 1);
  }

  /** The team's result only widens. */
  lemma ResultWidens(p: Problem, row: set<nat>, x: Search, w: nat)
    requires w < |x.workers|
    ensures var x' := LevelSearch.Step(p, row, x, w);
      x'.result.min <= x.result.min && x.result.max <= x'.result.max
  {
    hide Over, HasTarget;
  }

  lemma WorkKeepsWorker(g: Input, s: State, k: nat, w: nat, j: nat)
    requires Inv(g, s) && Enabled(g, s, Work(k, w))
    ensures HouseWorkerAt(g, WorkStep(g, s, k, w), j)
  {
    var s', hw := WorkStep(g, s, k, w), s.workers[k];
    var p := From(g, hw.house);
    assert HouseWorkerAt(g, s, j) && HouseWorkerAt(g, s, k);
    if j == k {
      StepControl(p, s.rows[hw.house], hw.search, w);
      StepSearch(p, s.rows[hw.house], hw.search, w);
      var mid := s.rows[hw.house] + BitOf(p, hw.search, w);
      RowGrows(p, mid, s'.rows[hw.house], s'.workers[k].search);
    } else if j < |s.workers| && Active(s.workers[j]) {
      RowGrows(From(g, s.workers[j].house), s.rows[s.workers[j].house], s'.rows[s.workers[j].house],
        s.workers[j].search);
    }
  }

  lemma WorkKeepsBits(g: Input, s: State, k: nat, w: nat, a: nat, b: nat)
    requires Inv(g, s) && Enabled(g, s, Work(k, w))
    ensures BitAt(g, WorkStep(g, s, k, w), a, b)
  {
    var s', hw := WorkStep(g, s, k, w), s.workers[k];
    var p := From(g, hw.house);
    assert BitAt(g, s, a, b);
    ResultWidens(p, s.rows[hw.house], hw.search, w);
    if a < |s.rows| && b in s'.rows[a] {
      if b in s.rows[a] {
        var d: nat, j :| Dist(g.adj, g.houses[a], g.houses[b], d) && 0 <= j < |s.workers| && Known(s.workers[j], d);
        assert Known(s'.workers[j], d);
      } else {
        BitIsRecorded(g, s, k, w, if a == hw.house then b else a);
        assert Known(s'.workers[k], hw.search.level + 1);
      }
    }
  }

  lemma WorkStepKeeps(g: Input, s: State, k: nat, w: nat)
    requires Inv(g, s) && Enabled(g, s, Work(k, w))
    ensures Inv(g, WorkStep(g, s, k, w))
  {
    var s' := WorkStep(g, s, k, w);
    forall j: nat ensures HouseWorkerAt(g, s', j) { WorkKeepsWorker(g, s, k, w, j); }
    forall a: nat, b: nat ensures BitAt(g, s', a, b) { WorkKeepsBits(g, s, k, w, a, b); }
    forall a: nat ensures TakenAt(g, s', a) { assert TakenAt(g, s, a); TakenKept(g, s, s', k, a); }
    forall a: nat, b: nat ensures SearchedAt(g, s', a, b) { assert SearchedAt(g, s, a, b); }
  }

  lemma StepInv(g: Input, s: State, a: Action)
    requires Inv(g, s) && Enabled(g, s, a)
    ensures Inv(g, HouseSearch.Step(g, s, a))
  {
    match a
    case Work(k, w) => WorkStepKeeps(g, s, k, w);
    case Dispatch(k) =>
      match s.workers[k].pc {
        case TakeIndex => TakeDispatch(g, s, k);
        case Merging => MergeDispatch(g, s, k);
        case _ => QuietDispatch(g, s, k);
      }
  }

  lemma {:induction false} RunsKeepInv(g: Input, teams: seq<nat>, run: seq<State>, k: nat)
    requires ValidInput(g) && (forall i :: 0 <= i < |teams| ==> teams[i] > 0)
    requires HouseSearch.IsRun(g, teams, run) && k < |run|
    ensures Inv(g, run[k]) && |run[k].workers| == |teams|
  {
    if k == 0 {
      InitialInv(g, teams);
    } else {
      RunsKeepInv(g, teams, run, k - 1);
      assert HouseSearch.StepAt(g, run, k);
      var a :| Enabled(g, run[k - 1], a) && run[k] == HouseSearch.Step(g, run[k - 1], a);
      StepInv(g, run[k - 1], a);
    }
  }

  // ---------- the shared rows ----------

  ghost predicate SymmetricAt(s: State, a: nat, b: nat) {
    a < |s.rows| && b < |s.rows| ==> (b in s.rows[a] <==> a in s.rows[b])
  }

  lemma StepKeepsSymmetry(g: Input, s: State, c: Action, a: nat, b: nat)
    requires Enabled(g, s, c) && SymmetricAt(s, a, b)
    ensures SymmetricAt(HouseSearch.Step(g, s, c), a, b)
  {
    hide LevelSearch.Step, BitOf;
  }

  /** What one search has met the other need not look for: in every run a house has a bit in the row of another exactly
      if the other has one in its own. */
  lemma {:induction false} RowsSymmetric(g: Input, teams: seq<nat>, run: seq<State>, k: nat, a: nat, b: nat)
    requires HouseSearch.IsRun(g, teams, run) && k < |run|
    ensures SymmetricAt(run[k], a, b)
  {
    if k > 0 {
      RowsSymmetric(g, teams, run, k - 1, a, b);
      assert HouseSearch.StepAt(g, run, k);
      var c :| Enabled(g, run[k - 1], c) && run[k] == HouseSearch.Step(g, run[k - 1], c);
      hide HouseSearch.Step, Enabled, SymmetricAt;
      StepKeepsSymmetry(g, run[k - 1], c, a, b);
    }
  }

  // ---------- the answer ----------

  /** The smallest and the largest shortest distance between two different, connected houses, or the empty
      result when there are none. */
  ghost predicate AllPairsAnswer(g: Input, r: BFSResult) {
    && (forall a: nat, b: nat, d: nat ::
         a < |g.houses| && b < |g.houses| && a != b && Dist(g.adj, g.houses[a], g.houses[b], d) ==> Covers(r, d))
    && Genuine(g.adj, g.houses, r)
  }

  lemma {:induction false} JoinCovers(workers: seq<HouseWorker>, k: nat, d: int)
    requires k < |workers| && Covers(workers[k].result, d)
    ensures Covers(JoinAll(workers), d)
    decreases |workers|
  {
    var n := |workers| - 1;
    if k < n {
      JoinCovers(workers[..n], k, d);
    }
  }

  lemma {:induction false} JoinGenuine(g: Input, workers: seq<HouseWorker>)
    requires forall k :: 0 <= k < |workers| ==> Genuine(g.adj, g.houses, workers[k].result)
    requires ValidInput(g)
    ensures Genuine(g.adj, g.houses, JoinAll(workers))
  {
    if workers != [] {
      var n := |workers| - 1;
      JoinGenuine(g, workers[..n]);
      MergeGenuine(g, JoinAll(workers[..n]), workers[n].result);
    }
  }

  lemma MergeGenuine(g: Input, x: BFSResult, y: BFSResult)
    requires ValidInput(g) && Genuine(g.adj, g.houses, x) && Genuine(g.adj, g.houses, y)
    ensures Genuine(g.adj, g.houses, Merge(x, y))
  {
    forall d: int | PairDist(g.adj, g.houses, d) ensures 0 <= d < INT_MAX {
      var a, b :| 0 <= a < |g.houses| && 0 <= b < |g.houses| && a != b && d >= 0
        && Dist(g.adj, g.houses[a], g.houses[b], d);
      DistBounded(g.adj, g.houses[a], g.houses[b], d);
    }
  }

  /** Every connected pair of houses has been covered when all house workers have ended. */
  lemma PairCovered(g: Input, s: State, a: nat, b: nat, d: nat)
    requires Inv(g, s) && s.workers != [] && (forall k :: 0 <= k < |s.workers| ==> s.workers[k].pc.Ended?)
    requires a < b < |g.houses| && Dist(g.adj, g.houses[a], g.houses[b], d)
    ensures Covers(JoinAll(s.workers), d)
  {
    assert HouseWorkerAt(g, s, 0) && TakenAt(g, s, a) && SearchedAt(g, s, a, b) && BitAt(g, s, a, b);
    var e: nat, k :| Dist(g.adj, g.houses[a], g.houses[b], e) && 0 <= k < |s.workers| && Known(s.workers[k], e);
    DistUnique(g.adj, g.houses[a], g.houses[b], d, e);
    JoinCovers(s.workers, k, d);
  }

  /** For every graph, every number of house workers, every team size and every interleaving, what the
      program prints at the end is the answer of naive all-pairs shortest distances. */
  lemma PrunedEqualsAllPairs(g: Input, teams: seq<nat>, run: seq<State>, k: nat)
    requires ValidInput(g) && teams != [] && (forall i :: 0 <= i < |teams| ==> teams[i] > 0)
    requires HouseSearch.IsRun(g, teams, run) && k < |run|
    requires forall i :: 0 <= i < |run[k].workers| ==> run[k].workers[i].pc.Ended?
    ensures AllPairsAnswer(g, JoinAll(run[k].workers))
  {
    var s := run[k];
    RunsKeepInv(g, teams, run, k);
    forall i: nat | i < |s.workers| ensures Genuine(g.adj, g.houses, s.workers[i].result) {
      assert HouseWorkerAt(g, s, i);
    }
    JoinGenuine(g, s.workers);
    forall a: nat, b: nat, d: nat
      | a < |g.houses| && b < |g.houses| && a != b && Dist(g.adj, g.houses[a], g.houses[b], d)
      ensures Covers(JoinAll(s.workers), d)
    {
      if a < b {
        PairCovered(g, s, a, b, d);
      } else {
        DistSymmetric(g.adj, g.houses[a], g.houses[b], d);
        PairCovered(g, s, b, a, d);
      }
    }
  }

  lemma PairWithin(g: Input, r: BFSResult, d: int)
    requires AllPairsAnswer(g, r) && PairDist(g.adj, g.houses, d)
    ensures Covers(r, d)
  {
    var a: nat, b: nat :| a < |g.houses| && b < |g.houses| && a != b && d >= 0
      && Dist(g.adj, g.houses[a], g.houses[b], d);
    var e: nat := d;
    assert Dist(g.adj, g.houses[a], g.houses[b], e);
  }

  /** The answer is unique, so the printed numbers do not depend on the schedule. */
  lemma AnswerUnique(g: Input, r: BFSResult, q: BFSResult)
    requires AllPairsAnswer(g, r) && AllPairsAnswer(g, q)
    ensures r == q
  {
    if r != EMPTY_RESULT {
      PairWithin(g, q, r.min);
      PairWithin(g, q, r.max);
    }
    if q != EMPTY_RESULT {
      PairWithin(g, r, q.min);
      PairWithin(g, r, q.max);
    }
  }

  // ---------- the teams ----------

  function Total(teams: seq<nat>): nat {
    if teams == [] then 0 else Total(teams[..|teams| - 1]) + teams[|teams| - 1]
  }

  lemma {:induction false} TotalOfEqual(teams: seq<nat>, n: nat)
    requires forall k :: 0 <= k < |teams| ==> teams[k] == n
    ensures Total(teams) == |teams| * n
  {
    if teams != [] {
      TotalOfEqual(teams[..|teams| - 1], n);
    }
  }

  lemma {:induction false} TotalOfUpdate(teams: seq<nat>, i: nat, n: nat)
    requires i < |teams|
    ensures Total(teams[i := n]) == Total(teams) - teams[i] + n
    decreases |teams|
  {
    var last := |teams| - 1;
    if i < last {
      assert teams[i := n][..last] == teams[..last][i := n];
      TotalOfUpdate(teams[..last], i, n);
    } else {
      assert teams[i := n][..last] == teams[..last];
    }
  }

  /** How `main` shares the cores: each house worker gets at least one thread, team sizes differ by at most one,
      and the threads of all teams together are as many as the cores. */
  method AssignThreads(cores: nat, houses: nat) returns (teams: seq<nat>)
    requires cores > 0 && houses > 0
    ensures |teams| == (if cores <= houses then cores else houses)
    ensures forall k :: 0 <= k < |teams| ==> teams[k] > 0
    ensures forall j, k :: 0 <= j < |teams| && 0 <= k < |teams| ==> teams[j] <= teams[k] + 1
    ensures Total(teams) == cores
  {
    if cores <= houses {
      teams := seq(cores, _ => 1);
      TotalOfEqual(teams, 1);
    } else {
      var most := (cores + houses - 1) / houses;
      teams := seq(houses, _ => most);
      TotalOfEqual(teams, most);
      var threads, i := most * houses, 0;
      CeilingBounds(cores, houses, most);
      ghost var total := threads;
      while threads > cores
        invariant |teams| == houses && i <= houses && threads == total - i >= cores
        invariant Total(teams) == threads
        invariant forall k :: 0 <= k < houses ==> teams[k] == (if k < i then most - 1 else most)
      {
        TotalOfUpdate(teams, i, teams[i] - 1);
        threads := threads - 1;
        teams := teams[i := teams[i] - 1];
        i := i + 1;
      }
    }
  }

  lemma CeilingBounds(cores: nat, houses: nat, most: nat)
    requires houses > 0 && cores > houses && most == (cores + houses - 1) / houses
    ensures most > 1 && cores <= most * houses < cores + houses
  {
    assert cores + houses - 1 == most * houses + (cores + houses - 1) % houses;
    assert most == 0 || most == 1 ==> most * houses <= houses;
  }
}
