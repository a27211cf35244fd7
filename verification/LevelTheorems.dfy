/**
 What one team search promises, for every graph, every team and every interleaving, while searches
 from other houses set bits of its row at any time.
 */
module LevelTheorems {
  import opened Graph
  import opened LevelSearch
  import opened LevelControl
  import opened LevelProof

  datatype View = View(row: set<nat>, search: Search)

  /** A worker makes a step, or other searches set bits of the row. */
  ghost predicate Next(g: Problem, s: View, s': View) {
    || (s'.search == s.search && s.row <= s'.row)
    || exists w: nat :: w < |s.search.workers| && s' == View(s.row + BitOf(g, s.search, w), Step(g, s.row, s.search, w))
  }

  ghost predicate StepAt(g: Problem, run: seq<View>, k: nat) {
    0 < k < |run| ==> Next(g, run[k - 1], run[k])
  }

  ghost predicate IsRun(g: Problem, run: seq<View>) {
    && ValidProblem(g) && run != []
    && (exists n: nat :: n > 0 && run[0].search == Initial(g, n))
    && forall k: nat :: StepAt(g, run, k)
  }

  lemma {:induction false} RunInv(g: Problem, run: seq<View>, k: nat)
    requires IsRun(g, run) && k < |run|
    ensures Control(run[k].search) && SearchInv(g, run[k].row, run[k].search)
  {
    if k == 0 {
      var n: nat :| n > 0 && run[0].search == Initial(g, n);
      InitialControl(g, n);
      InitialSearch(g, run[0].row, n);
    } else {
      RunInv(g, run, k - 1);
      assert StepAt(g, run, k);
      var s, s' := run[k - 1], run[k];
      if s'.search == s.search && s.row <= s'.row {
        RowGrows(g, s.row, s'.row, s.search);
      } else {
        var w: nat :| w < |s.search.workers| && s' == View(s.row + BitOf(g, s.search, w), Step(g, s.row, s.search, w));
        StepControl(g, s.row, s.search, w);
        StepSearch(g, s.row, s.search, w);
      }
    }
  }

  // ---------- level synchrony ----------

  /** All workers that expand are on one level, and the full mask of that level is exactly the busy workers. */
  lemma OneLevel(g: Problem, run: seq<View>, k: nat)
    requires IsRun(g, run) && k < |run|
    ensures var x := run[k].search;
      && (forall w :: 0 <= w < |x.workers| && Expanding(x.workers[w].pc) ==> x.workers[w].dist == x.level)
      && FullAt(x, x.level) == Busy(x.workers)
  {
    RunInv(g, run, k);
    var x := run[k].search;
    forall w: nat | w < |x.workers| && Expanding(x.workers[w].pc) ensures x.workers[w].dist == x.level {
      assert WorkerAt(x, w);
    }
  }

  /** While a worker expands a vertex of its level, every vertex of a lower level has been marked and
      all its neighbours have been marked: nothing of a lower level is left to expand. */
  lemma LowerLevelsDone(g: Problem, run: seq<View>, k: nat, w: nat, v: nat, e: nat, j: nat)
    requires IsRun(g, run) && k < |run|
    requires w < |run[k].search.workers| && Expanding(run[k].search.workers[w].pc)
    requires e < run[k].search.workers[w].dist && Dist(g.adj, Home(g), v, e) && v < |g.adj| && j < |g.adj[v]|
    ensures v in run[k].search.check && g.adj[v][j] in run[k].search.check && !Pending(run[k].search, v)
  {
    var x, row := run[k].search, run[k].row;
    RunInv(g, run, k);
    assert WorkerAt(x, w) && CompleteAt(g, row, x, v, e) && CompleteAt(g, row, x, g.adj[v][j], e + 1);
    WalkExtend(g.adj, Home(g), v, g.adj[v][j], e);
    PendingIsHigh(g, row, x, v);
  }

  /** While somebody expands, what waits with any worker is on the current level or beyond. */
  lemma PendingIsHigh(g: Problem, row: set<nat>, x: Search, v: nat)
    requires Control(x) && SearchInv(g, row, x) && SomeExpanding(x)
    ensures Pending(x, v) ==> exists d: nat :: d >= x.level && Dist(g.adj, Home(g), v, d)
  {
    if Pending(x, v) {
      var w :| 0 <= w < |x.workers| && HoldsPending(x.workers[w], v);
      var u := x.workers[w];
      assert WorkerAt(x, w) && StartAt(g, x, w);
      if v in u.next {
        var k :| 0 <= k < |u.next| && u.next[k] == v;
        assert NextAt(g, row, x, w, k);
      } else if Expanding(u.pc) {
        var k :| Position(u) <= k < |u.cur| && u.cur[k] == v;
        assert CurAt(g, x, w, k);
      }
    }
  }

  /** The search for a free worker never runs past the end of the team. */
  lemma SplitFindsWorker(g: Problem, run: seq<View>, k: nat)
    requires IsRun(g, run) && k < |run| && run[k].search.numFree > 0
    ensures FirstFree(run[k].search.workers) < |run[k].search.workers|
  {
    RunInv(g, run, k);
    FreeWorkerExists(run[k].search);
  }

  /** Work is shared whenever it can be: a worker with more than one vertex left, while somebody is free, hands its last
      vertex to the first free worker, who starts from it on the same level.  Otherwise it goes on to visit. */
  lemma SplitShares(g: Problem, run: seq<View>, k: nat, w: nat) returns (i: nat)
    requires IsRun(g, run) && k < |run| && w < |run[k].search.workers| && run[k].search.workers[w].pc.SplitTest?
    ensures var x, row := run[k].search, run[k].row;
      var u, x1 := x.workers[w], Step(g, row, x, w);
      if x.numFree > 0 && |u.cur| > 1 then
        && |x1.workers| == |x.workers| && i < |x.workers| && i != w
        && !x.workers[i].busy && (forall j :: 0 <= j < i ==> x.workers[j].busy)
        && var x2, n := Step(g, row, x1, w), |u.cur| - 1;
        && x2.numFree == x.numFree - 1
        && x2.workers == x.workers[w := u.(cur := u.cur[..n])]
                           [i := x.workers[i].(busy := true, startVertex := u.cur[n], startDist := u.dist)]
      else
        x1 == x.(workers := x.workers[w := u.(pc := Visit(0, 0))])
  {
    var x, row := run[k].search, run[k].row;
    var u, x1 := x.workers[w], Step(g, row, x, w);
    i := 0;
    RunInv(g, run, k);
    assert WorkerAt(x, w);
    if x.numFree > 0 && |u.cur| > 1 {
      StepControl(g, row, x, w);
      i := SplitPair(x, x1, w);
      hide Control, SearchInv, MakeStep;
    }
  }

  lemma SplitPair(x: Search, x1: Search, w: nat) returns (i: nat)
    requires Control(x1) && w < |x.workers| && x1 == Goto(x, w, SplitMake)
    requires x.workers[w].pc.SplitTest? && x.numFree > 0 && |x.workers[w].cur| > 1
    ensures i < |x.workers| && i != w && !x.workers[i].busy && (forall j :: 0 <= j < i ==> x.workers[j].busy)
    ensures var x2, u := MakeStep(x1, w), x.workers[w];
      && x2.numFree == x.numFree - 1
      && x2.workers == x.workers[w := u.(cur := u.cur[..|u.cur| - 1])]
        [i := x.workers[i].(busy := true, startVertex := u.cur[|u.cur| - 1], startDist := u.dist)]
  {
    FreeWorkerExists(x1);
    i := FirstFree(x1.workers);
    MakeMakesChild(x1, w);
    assert WorkerAt(x1, w);
    hide Control, MakeStep, FirstFree;
    assert forall j :: 0 <= j < |x.workers| ==> x1.workers[j].busy == x.workers[j].busy;
  }

  /** The barrier does not let worker w through yet. */
  predicate HeldBack(x: Search, w: nat)
    requires w < |x.workers|
  {
    x.workers[w].pc.Wait? && !(FullAt(x, x.workers[w].dist) <= DoneAt(x, x.workers[w].dist))
  }

  lemma HeldBackWaits(x: Search, w: nat)
    requires Control(x) && w < |x.workers| && HeldBack(x, w)
    ensures x.workers[w].dist == x.level
    ensures exists j :: 0 <= j < |x.workers| && x.workers[j].busy && !HeldBack(x, j)
  {
    assert WorkerAt(x, w);
    assert FullAt(x, x.level + 1) <= DoneAt(x, x.level + 1);
    var j: nat :| j in FullAt(x, x.level) && j !in DoneAt(x, x.level);
    assert j in Busy(x.workers) && DoneMaskAt(x, j) && WorkerAt(x, j);
  }

  /** A worker that the barrier holds back waits for one that is not held back: the barrier cannot deadlock. */
  lemma BarrierMakesProgress(g: Problem, run: seq<View>, k: nat, w: nat)
    requires IsRun(g, run) && k < |run| && w < |run[k].search.workers| && HeldBack(run[k].search, w)
    ensures var x := run[k].search;
      x.workers[w].dist == x.level && exists j :: 0 <= j < |x.workers| && x.workers[j].busy && !HeldBack(x, j)
  {
    RunInv(g, run, k);
    HeldBackWaits(run[k].search, w);
  }

  /** Worker w can get on: it is busy and not held back, or nobody is busy any more and it can leave. */
  ghost predicate CanAct(x: Search, w: nat) {
    && w < |x.workers| && !x.workers[w].pc.Exited?
    && if x.workers[w].busy then !HeldBack(x, w) else Busy(x.workers) == {}
  }

  lemma UnfinishedCanAct(x: Search)
    requires Control(x) && !Finished(x)
    ensures exists w: nat :: CanAct(x, w)
  {
    var w: nat :| w < |x.workers| && !x.workers[w].pc.Exited?;
    assert WorkerAt(x, w);
    if Busy(x.workers) == {} {
      assert w !in Busy(x.workers);
      assert CanAct(x, w);
    } else {
      var b: nat :| b in Busy(x.workers);
      if HeldBack(x, b) {
        HeldBackWaits(x, b);
        var j: nat :| j < |x.workers| && x.workers[j].busy && !HeldBack(x, j);
        assert WorkerAt(x, j) && j in Busy(x.workers);
        assert CanAct(x, j);
      } else {
        assert WorkerAt(x, b);
        assert CanAct(x, b);
      }
    }
  }

  /** Until all workers have left, some worker can get on; when nobody is busy all are counted as free. */
  lemma TeamMakesProgress(g: Problem, run: seq<View>, k: nat)
    requires IsRun(g, run) && k < |run|
    ensures !Finished(run[k].search) ==> exists w: nat :: CanAct(run[k].search, w)
    ensures Busy(run[k].search.workers) == {} ==> run[k].search.numFree == |run[k].search.workers|
  {
    RunInv(g, run, k);
    if !Finished(run[k].search) {
      UnfinishedCanAct(run[k].search);
    }
  }

  lemma StepMoves(g: Problem, row: set<nat>, x: Search, w: nat)
    requires w < |x.workers| && !HeldBack(x, w) && !x.workers[w].pc.Exited?
    requires x.workers[w].pc.SplitMake? ==> x.workers[w].busy
    requires x.workers[w].pc.Mark? ==> HasTarget(g, x.workers[w])
    ensures Step(g, row, x, w).workers[w].pc != x.workers[w].pc
  {
    hide Over, Target;
  }

  /** Who is busy and not held back does move. */
  lemma BusyWorkerMoves(g: Problem, run: seq<View>, k: nat, w: nat)
    requires IsRun(g, run) && k < |run| && w < |run[k].search.workers| && run[k].search.workers[w].busy
    requires !HeldBack(run[k].search, w) && !run[k].search.workers[w].pc.Exited?
    ensures Step(g, run[k].row, run[k].search, w).workers[w].pc != run[k].search.workers[w].pc
  {
    hide Step;
    RunInv(g, run, k);
    assert PositionAt(g, run[k].search, w);
    StepMoves(g, run[k].row, run[k].search, w);
  }

  // ---------- what a finished search has found ----------

  lemma NothingPending(g: Problem, row: set<nat>, x: Search, v: nat)
    requires Control(x) && SearchInv(g, row, x) && !Over(g, row) && Finished(x)
    ensures !Pending(x, v)
  {
    forall w: nat | w < |x.workers| ensures !HoldsPending(x.workers[w], v) {
      assert WorkerAt(x, w) && NextAt(g, row, x, w, 0);
      assert x.workers[w].next == [];
    }
  }

  lemma {:induction false} FinishedMarksAll(g: Problem, row: set<nat>, x: Search, v: nat, k: nat)
    requires Control(x) && SearchInv(g, row, x) && !Over(g, row) && Finished(x) && Walk(g.adj, Home(g), v, k)
    ensures v in x.check
    decreases k
  {
    if k > 0 {
      var z: nat :| Walk(g.adj, Home(g), z, k - 1) && Edge(g.adj, z, v);
      FinishedMarksAll(g, row, x, z, k - 1);
      NothingPending(g, row, x, z);
      var j :| 0 <= j < |g.adj[z]| && g.adj[z][j] == v;
      assert ExpandedAt(g, row, x, z, j);
    }
  }

  /** A finished search has a bit for every house that can be reached from its own. */
  lemma FinishedHasMetAll(g: Problem, row: set<nat>, x: Search, b: nat)
    requires Control(x) && SearchInv(g, row, x) && Finished(x)
    requires b < |g.houses| && b != g.home && Connected(g.adj, Home(g), g.houses[b])
    ensures b in row
  {
    if !Over(g, row) {
      var k: nat :| Walk(g.adj, Home(g), g.houses[b], k);
      FinishedMarksAll(g, row, x, g.houses[b], k);
      assert HouseAt(g, row, x, b);
    }
  }
}
