/**
 The barrier of the team search: in every reachable state all workers that expand are on the same
 level, and the full mask of that level is exactly the set of busy workers.
 */
module LevelControl {
  import opened Graph
  import opened LevelSearch

  predicate Expanding(pc: Pc) {
    pc.SplitTest? || pc.SplitMake? || Visiting(pc) || pc.Finish?
  }

  predicate AtBarrier(pc: Pc) {
    pc.Wait? || pc.Pass?
  }

  /** Between taking a start vertex and leaving. */
  predicate InLoop(pc: Pc) {
    pc.Check? || Expanding(pc) || AtBarrier(pc) || pc.Leave?
  }

  predicate Resting(pc: Pc) {
    pc.Idle? || pc.IdleCount?
  }

  ghost function Busy(workers: seq<Worker>): set<nat> {
    set w: nat | w < |workers| && workers[w].busy
  }

  /** Where a worker may stand, relative to the level of the search. */
  ghost predicate WorkerAt(x: Search, w: nat) {
    w < |x.workers| ==>
      var u := x.workers[w];
      && (InLoop(u.pc) ==> u.busy)
      && (u.pc.Exited? ==> Busy(x.workers) == {})
      && (u.pc.Check? || Expanding(u.pc) || u.pc.Leave? ==> u.dist == x.level)
      && (AtBarrier(u.pc) ==> u.dist == x.level || u.dist + 1 == x.level)
      && (Resting(u.pc) && u.busy ==> u.startDist == x.level)
      && (!Expanding(u.pc) ==> u.cur == [])
      && (u.pc.Pass? && u.dist == x.level ==> FullAt(x, x.level) <= DoneAt(x, x.level))
  }

  ghost predicate DoneMaskAt(x: Search, w: nat) {
    w in DoneAt(x, x.level) <==> w < |x.workers| && AtBarrier(x.workers[w].pc) && x.workers[w].dist == x.level
  }

  ghost predicate MasksInv(x: Search) {
    && FullAt(x, x.level) == Busy(x.workers)
    && FullAt(x, x.level + 1) <= DoneAt(x, x.level + 1)
    && !FlagAt(x, x.level)
    && (x.level > 0 ==> FlagAt(x, x.level + 1))
    && x.numFree == |x.workers| - |Busy(x.workers)|
  }

  ghost predicate Control(x: Search) {
    && (forall w: nat :: WorkerAt(x, w))
    && (forall w: nat :: DoneMaskAt(x, w))
    && MasksInv(x)
  }

  lemma InitialControl(g: Problem, n: nat)
    requires g.home < |g.houses| && n > 0
    ensures Control(Initial(g, n))
  {
    assert Busy(Initial(g, n).workers) == {0};
  }

  // ---------- counting busy workers ----------

  lemma BusySame(ws: seq<Worker>, w: nat, u: Worker)
    requires w < |ws| && u.busy == ws[w].busy
    ensures Busy(ws[w := u]) == Busy(ws)
  {
  }

  lemma BusyMore(ws: seq<Worker>, w: nat, u: Worker)
    requires w < |ws| && u.busy && !ws[w].busy
    ensures Busy(ws[w := u]) == Busy(ws) + {w} && |Busy(ws[w := u])| == |Busy(ws)| + 1
  {
    assert Busy(ws[w := u]) == Busy(ws) + {w};
  }

  lemma BusyLess(ws: seq<Worker>, w: nat, u: Worker)
    requires w < |ws| && !u.busy && ws[w].busy
    ensures Busy(ws[w := u]) == Busy(ws) - {w} && |Busy(ws[w := u])| == |Busy(ws)| - 1
  {
    assert Busy(ws[w := u]) == Busy(ws) - {w};
  }

  lemma {:induction false} BusyAll(ws: seq<Worker>)
    requires forall k :: 0 <= k < |ws| ==> ws[k].busy
    ensures |Busy(ws)| == |ws|
  {
    if ws != [] {
      var n := |ws| - 1;
      BusyAll(ws[..n]);
      assert Busy(ws) == Busy(ws[..n]) + {n};
    }
  }

  /** When a worker is counted as free, the search for one succeeds. */
  lemma FreeWorkerExists(x: Search)
    requires MasksInv(x) && x.numFree > 0
    ensures FirstFree(x.workers) < |x.workers|
  {
    if FirstFree(x.workers) == |x.workers| {
      BusyAll(x.workers);
      assert false;
    }
  }

  // ---------- every step keeps the control invariant ----------

  /** Worker w moves within its level, or takes its start vertex; no mask changes. */
  lemma MoveKeeps(x: Search, x': Search, w: nat)
    requires Control(x) && w < |x.workers| && |x'.workers| == |x.workers|
    requires x' == x.(workers := x.workers[w := x'.workers[w]], check := x'.check, result := x'.result)
    requires x'.workers[w].busy == x.workers[w].busy
    requires AtBarrier(x'.workers[w].pc) == AtBarrier(x.workers[w].pc)
    requires AtBarrier(x.workers[w].pc) ==> x'.workers[w].dist == x.workers[w].dist
    requires WorkerAt(x', w)
    ensures Control(x')
  {
    BusySame(x.workers, w, x'.workers[w]);
    forall j: nat ensures WorkerAt(x', j) { assert WorkerAt(x, j); }
    forall j: nat ensures DoneMaskAt(x', j) { assert DoneMaskAt(x, j); }
  }

  /** While a worker splits its level, nobody has passed that level's barrier. */
  lemma SplitterHoldsBarrier(x: Search, w: nat)
    requires Control(x) && w < |x.workers| && Expanding(x.workers[w].pc)
    ensures w in FullAt(x, x.level) && w !in DoneAt(x, x.level)
    ensures forall j :: 0 <= j < |x.workers| ==> !(x.workers[j].pc.Pass? && x.workers[j].dist == x.level)
    ensures forall j :: 0 <= j < |x.workers| ==> !x.workers[j].pc.Exited?
  {
    assert WorkerAt(x, w) && DoneMaskAt(x, w);
    assert w in Busy(x.workers);
    forall j: nat | j < |x.workers|
      ensures !(x.workers[j].pc.Pass? && x.workers[j].dist == x.level) && !x.workers[j].pc.Exited?
    {
      assert WorkerAt(x, j);
    }
  }

  /** Worker w hands its last vertex to the free worker i. */
  ghost predicate MakesChild(x: Search, x': Search, w: nat, i: nat) {
    && w < |x.workers| && x.workers[w].pc.SplitMake? && x.workers[w].cur != [] && x.numFree > 0
    && i == FirstFree(x.workers) < |x.workers| && i != w
    && var u := x.workers[w];
    && var n := |u.cur| - 1;
    && x'.workers == x.workers[w := u.(pc := SplitTest, cur := u.cur[..n])]
                     [i := x.workers[i].(startVertex := u.cur[n], startDist := u.dist, busy := true)]
    && FullAt(x', x.level) == FullAt(x, x.level) + {i}
    && FullAt(x', x.level + 1) == FullAt(x, x.level + 1)
    && DoneAt(x', x.level) == DoneAt(x, x.level) && DoneAt(x', x.level + 1) == DoneAt(x, x.level + 1)
    && FlagAt(x', x.level) == FlagAt(x, x.level) && FlagAt(x', x.level + 1) == FlagAt(x, x.level + 1)
    && x'.numFree == x.numFree - 1 && x'.level == x.level && x'.check == x.check && x'.result == x.result
  }

  lemma MakeMakesChild(x: Search, w: nat)
    requires Control(x) && w < |x.workers| && x.workers[w].pc.SplitMake?
    requires x.numFree > 0 && x.workers[w].cur != [] && FirstFree(x.workers) < |x.workers|
    ensures MakesChild(x, MakeStep(x, w), w, FirstFree(x.workers))
  {
    assert WorkerAt(x, w);
  }

  lemma ChildCounted(x: Search, x': Search, w: nat, i: nat)
    requires MakesChild(x, x', w, i) && (x.workers[w].busy)
    ensures Busy(x'.workers) == Busy(x.workers) + {i} && |Busy(x'.workers)| == |Busy(x.workers)| + 1
  {
    var u := x.workers[w];
    var mid := x.workers[w := u.(pc := SplitTest, cur := u.cur[..|u.cur| - 1])];
    BusySame(x.workers, w, mid[w]);
    BusyMore(mid, i, x'.workers[i]);
  }

  lemma ChildKeepsPlaces(x: Search, x': Search, w: nat, i: nat, j: nat)
    requires Control(x) && MakesChild(x, x', w, i)
    ensures WorkerAt(x', j)
  {
    assert WorkerAt(x, w) && WorkerAt(x, i) && WorkerAt(x, j);
    SplitterHoldsBarrier(x, w);
    assert w in Busy(x.workers);
    hide Control, FirstFree;
  }

  lemma MakeChildKeeps(x: Search, x': Search, w: nat, i: nat)
    requires Control(x) && MakesChild(x, x', w, i)
    ensures Control(x')
  {
    assert WorkerAt(x, w) && WorkerAt(x, i);
    SplitterHoldsBarrier(x, w);
    ChildCounted(x, x', w, i);
    forall j: nat ensures WorkerAt(x', j) { ChildKeepsPlaces(x, x', w, i, j); }
    forall j: nat ensures DoneMaskAt(x', j) { assert DoneMaskAt(x, j); }
  }

  lemma MakeKeeps(x: Search, w: nat)
    requires Control(x) && w < |x.workers| && x.workers[w].pc.SplitMake?
    ensures Control(MakeStep(x, w))
  {
    var i := FirstFree(x.workers);
    assert WorkerAt(x, w);
    if x.numFree <= 0 || x.workers[w].cur == [] || i == |x.workers| {
      MoveKeeps(x, MakeStep(x, w), w);
    } else {
      MakeMakesChild(x, w);
      MakeChildKeeps(x, MakeStep(x, w), w, i);
    }
  }

  lemma FinishKeeps(g: Problem, row: set<nat>, x: Search, w: nat)
    requires Control(x) && w < |x.workers| && x.workers[w].pc.Finish?
    ensures Control(Step(g, row, x, w))
  {
    var x' := Step(g, row, x, w);
    assert WorkerAt(x, w);
    BusySame(x.workers, w, x'.workers[w]);
    forall j: nat ensures WorkerAt(x', j) { assert WorkerAt(x, j); }
    forall j: nat ensures DoneMaskAt(x', j) { assert DoneMaskAt(x, j); }
  }

  /** The first worker through the barrier opens the next level. */
  ghost predicate Opens(x: Search, x': Search, w: nat) {
    && w < |x.workers| && x.workers[w].pc.Pass? && x.workers[w].dist == x.level
    && x'.workers == x.workers[w := x.workers[w].(pc := Check, dist := x.level + 1)]
    && x'.level == x.level + 1 && x'.numFree == x.numFree && x'.check == x.check && x'.result == x.result
    && FullAt(x', x.level) == FullAt(x, x.level) && DoneAt(x', x.level) == DoneAt(x, x.level)
    && FullAt(x', x.level + 1) == FullAt(x, x.level) && DoneAt(x', x.level + 1) == {}
    && FlagAt(x', x.level) && !FlagAt(x', x.level + 1)
  }

  lemma PassOpens(x: Search, w: nat)
    requires Control(x) && w < |x.workers| && x.workers[w].pc.Pass?
    ensures if x.workers[w].dist == x.level then Opens(x, PassStep(x, w), w)
            else PassStep(x, w) == Put(x, w, x.workers[w].(pc := Check, dist := x.level))
  {
    assert WorkerAt(x, w);
  }

  /** When the barrier opens, every busy worker has finished its level. */
  lemma AllAtBarrier(x: Search, w: nat)
    requires Control(x) && w < |x.workers| && x.workers[w].pc.Pass? && x.workers[w].dist == x.level
    ensures forall j :: 0 <= j < |x.workers| && x.workers[j].busy ==>
      AtBarrier(x.workers[j].pc) && x.workers[j].dist == x.level
  {
    assert WorkerAt(x, w);
    forall j: nat | j < |x.workers| && x.workers[j].busy
      ensures AtBarrier(x.workers[j].pc) && x.workers[j].dist == x.level
    {
      assert j in Busy(x.workers);
      assert DoneMaskAt(x, j);
    }
  }

  lemma OpenKeeps(x: Search, x': Search, w: nat)
    requires Control(x) && Opens(x, x', w)
    ensures Control(x')
  {
    assert WorkerAt(x, w);
    AllAtBarrier(x, w);
    BusySame(x.workers, w, x'.workers[w]);
    assert FullAt(x', x'.level + 1) == FullAt(x', x.level) && DoneAt(x', x'.level + 1) == DoneAt(x', x.level);
    forall j: nat ensures WorkerAt(x', j) { assert WorkerAt(x, j); }
    forall j: nat ensures DoneMaskAt(x', j) { assert WorkerAt(x, j); }
  }

  /** The others find the next level open. */
  lemma FollowKeeps(x: Search, w: nat)
    requires Control(x) && w < |x.workers| && x.workers[w].pc.Pass? && x.workers[w].dist != x.level
    ensures Control(Put(x, w, x.workers[w].(pc := Check, dist := x.level)))
  {
    var x' := Put(x, w, x.workers[w].(pc := Check, dist := x.level));
    assert WorkerAt(x, w);
    BusySame(x.workers, w, x'.workers[w]);
    forall j: nat ensures WorkerAt(x', j) { assert WorkerAt(x, j); }
    forall j: nat ensures DoneMaskAt(x', j) { assert DoneMaskAt(x, j); }
  }

  lemma PassKeeps(x: Search, w: nat)
    requires Control(x) && w < |x.workers| && x.workers[w].pc.Pass?
    ensures Control(PassStep(x, w))
  {
    PassOpens(x, w);
    if x.workers[w].dist == x.level {
      OpenKeeps(x, PassStep(x, w), w);
    } else {
      FollowKeeps(x, w);
    }
  }

  lemma LeaveKeeps(x: Search, w: nat)
    requires Control(x) && w < |x.workers| && x.workers[w].pc.Leave?
    ensures Control(LeaveStep(x, w))
  {
    var x' := LeaveStep(x, w);
    assert WorkerAt(x, w);
    BusyLess(x.workers, w, x'.workers[w]);
    forall j: nat ensures WorkerAt(x', j) { assert WorkerAt(x, j); }
    forall j: nat ensures DoneMaskAt(x', j) { assert DoneMaskAt(x, j); }
  }

  lemma BusyNone(x: Search)
    requires MasksInv(x) && x.numFree == |x.workers|
    ensures Busy(x.workers) == {}
  {
  }

  lemma IdleCountKeeps(g: Problem, row: set<nat>, x: Search, w: nat)
    requires Control(x) && w < |x.workers| && x.workers[w].pc.IdleCount?
    ensures Control(Step(g, row, x, w))
  {
    assert WorkerAt(x, w);
    if x.numFree == |x.workers| {
      BusyNone(x);
    }
    BusySame(x.workers, w, Step(g, row, x, w).workers[w]);
    MoveKeeps(x, Step(g, row, x, w), w);
  }

  lemma VisitKeeps(g: Problem, row: set<nat>, x: Search, w: nat)
    requires Control(x) && w < |x.workers| && Visiting(x.workers[w].pc)
    ensures Control(Step(g, row, x, w))
  {
    assert WorkerAt(x, w);
    MoveKeeps(x, Step(g, row, x, w), w);
  }

  lemma OtherMovesKeep(g: Problem, row: set<nat>, x: Search, w: nat)
    requires Control(x) && w < |x.workers|
    requires var pc := x.workers[w].pc; pc.Idle? || pc.Check? || pc.SplitTest? || pc.Wait? || pc.Exited?
    ensures Control(Step(g, row, x, w))
  {
    assert WorkerAt(x, w);
    MoveKeeps(x, Step(g, row, x, w), w);
  }

  lemma StepControl(g: Problem, row: set<nat>, x: Search, w: nat)
    requires Control(x) && w < |x.workers|
    ensures Control(Step(g, row, x, w))
  {
    match x.workers[w].pc
    case SplitMake => MakeKeeps(x, w);
    case Finish => FinishKeeps(g, row, x, w);
    case Pass => PassKeeps(x, w);
    case Leave => LeaveKeeps(x, w);
    case IdleCount => IdleCountKeeps(g, row, x, w);
    case Visit(_, _) => VisitKeeps(g, row, x, w);
    case Mark(_, _) => VisitKeeps(g, row, x, w);
    case Record(_, _) => VisitKeeps(g, row, x, w);
    case SetBits(_, _) => VisitKeeps(g, row, x, w);
    case _ => OtherMovesKeep(g, row, x, w);
  }
}
