/**
 A team search ends: every step of a busy worker that is not held back lessens a measure of the work that
 remains, and no other step adds to it.  The measure is lexicographic: the levels that are left, the vertices that
 can still be handed to another worker on this level, and the steps the busy workers have still to make on it.
 */
module LevelTermination {
  import opened Graph
  import opened LevelSearch
  import opened LevelControl
  import opened LevelProof
  import opened LevelTheorems

  // ---------- sums over the workers ----------

  ghost function Sum(ws: seq<Worker>, f: Worker -> nat): nat {
    if ws == [] then 0 else Sum(ws[..|ws| - 1], f) + f(ws[|ws| - 1])
  }

  lemma {:induction false} SumOfPut(ws: seq<Worker>, f: Worker -> nat, w: nat, u: Worker)
    requires w < |ws|
    ensures Sum(ws[w := u], f) == Sum(ws, f) - f(ws[w]) + f(u)
    decreases |ws|
  {
    var n := |ws| - 1;
    if w < n {
      assert ws[w := u][..n] == ws[..n][w := u];
      SumOfPut(ws[..n], f, w, u);
    } else {
      assert ws[w := u][..n] == ws[..n];
    }
  }

  lemma {:induction false} SumMonotone(ws: seq<Worker>, f: Worker -> nat, f': Worker -> nat)
    requires forall u :: f'(u) <= f(u)
    ensures Sum(ws, f') <= Sum(ws, f)
  {
    if ws != [] {
      SumMonotone(ws[..|ws| - 1], f, f');
    }
  }

  // ---------- the measure ----------

  ghost function Degree(g: Problem, v: nat): nat {
    if v < |g.adj| then |g.adj[v]| else 0
  }

  /** The steps it takes to visit all neighbours of some vertices. */
  ghost function VisitCost(g: Problem, vs: seq<nat>): nat {
    if vs == [] then 0 else VisitCost(g, vs[1..]) + 4 * Degree(g, vs[0]) + 1
  }

  /** How many of the four steps for a neighbour have been made. */
  function Taken(pc: LevelSearch.Pc): nat {
    if pc.Mark? then 1 else if pc.Record? then 2 else if pc.SetBits? then 3 else 0
  }

  /** What is left of it for a visiting worker. */
  ghost function LeftToVisit(g: Problem, u: Worker): nat
    requires Visiting(u.pc)
  {
    if u.pc.c >= |u.cur| then 0
    else
      var degree := Degree(g, u.cur[u.pc.c]);
      VisitCost(g, u.cur[u.pc.c + 1..]) + 1 +
      (if u.pc.i < degree then 4 * (degree - u.pc.i) - Taken(u.pc) else 0)
  }

  /** The steps worker u has still to make on a level. */
  ghost function StepsLeft(g: Problem, level: nat, u: Worker): nat {
    match u.pc
    case Idle => if u.busy then 14 + VisitCost(g, u.next + [u.startVertex]) else 0
    case IdleCount => if u.busy then 15 + VisitCost(g, u.next + [u.startVertex]) else 0
    case Check => 13 + VisitCost(g, u.next)
    case SplitTest => 12 + VisitCost(g, u.cur)
    case SplitMake => 11 + VisitCost(g, u.cur)
    case Visit(_, _) => 10 + LeftToVisit(g, u)
    case Mark(_, _) => 10 + LeftToVisit(g, u)
    case Record(_, _) => 10 + LeftToVisit(g, u)
    case SetBits(_, _) => 10 + LeftToVisit(g, u)
    case Finish => 9
    case Wait => if u.dist == level then 8 else 15 + VisitCost(g, u.next)
    case Pass => if u.dist == level then 7 else 14 + VisitCost(g, u.next)
    case Leave => 2
    case Exited => 0
  }

  ghost function LessOne(n: nat): nat {
    if n == 0 then 0 else n - 1
  }

  /** How many vertices worker u can still hand over on a level. */
  ghost function Spare(level: nat, over: bool, u: Worker): nat {
    if u.pc.SplitTest? || u.pc.SplitMake? then LessOne(|u.cur|)
    else if over then 0
    else if Resting(u.pc) then (if u.busy then |u.next| else 0)
    else if u.pc.Check? || (AtBarrier(u.pc) && u.dist != level) then LessOne(|u.next|)
    else 0
  }

  ghost function StepsOf(g: Problem, level: nat): Worker -> nat {
    u => StepsLeft(g, level, u)
  }

  ghost function SpareOf(level: nat, over: bool): Worker -> nat {
    u => Spare(level, over, u)
  }

  ghost function TeamSpare(g: Problem, row: set<nat>, x: Search): nat {
    Sum(x.workers, SpareOf(x.level, Over(g, row)))
  }

  ghost function TeamSteps(g: Problem, x: Search): nat {
    Sum(x.workers, StepsOf(g, x.level))
  }

  /** The steps to the exit, which count once nobody is busy. */
  ghost function ExitSteps(): Worker -> nat {
    (u: Worker) => if u.pc.Idle? then 2 else if u.pc.IdleCount? then 1 else 0
  }

  ghost function TeamExits(x: Search): nat {
    if Busy(x.workers) == {} then Sum(x.workers, ExitSteps()) else 0
  }

  /** Less work remains in `b` than in `a`. */
  ghost predicate LessWork(g: Problem, b: View, a: View) {
    var x, y := a.search, b.search;
    var spare, spare' := TeamSpare(g, a.row, x), TeamSpare(g, b.row, y);
    var steps, steps' := TeamSteps(g, x), TeamSteps(g, y);
    || x.level < y.level <= |g.adj|
    || (y.level == x.level && spare' < spare)
    || (y.level == x.level && spare' == spare && steps' < steps)
    || (y.level == x.level && spare' == spare && steps' == steps && TeamExits(y) < TeamExits(x))
  }

  /** No more work remains in `b` than in `a`. */
  ghost predicate NoMoreWork(g: Problem, b: View, a: View) {
    var x, y := a.search, b.search;
    || LessWork(g, b, a)
    || (y.level == x.level && TeamSpare(g, b.row, y) == TeamSpare(g, a.row, x) && TeamSteps(g, y) == TeamSteps(g, x)
        && TeamExits(y) == TeamExits(x))
  }

  // ---------- the level stays below the number of vertices ----------

  ghost predicate BoundedAt(g: Problem, x: Search, w: nat) {
    w < |x.workers| ==>
      var u := x.workers[w];
      && (Expanding(u.pc) || (AtBarrier(u.pc) && u.dist == x.level) ==> x.level < |g.adj|)
      && (u.pc.SplitMake? ==> |u.cur| > 1)
  }

  ghost predicate Bounded(g: Problem, x: Search) {
    x.level <= |g.adj| && forall w: nat :: BoundedAt(g, x, w)
  }

  lemma CheckFindsLevel(g: Problem, row: set<nat>, x: Search, w: nat)
    requires SearchInv(g, row, x) && w < |x.workers| && x.workers[w].pc.Check?
    requires !Over(g, row) && x.workers[w].next != []
    ensures x.level < |g.adj|
  {
    assert NextAt(g, row, x, w, 0);
    DistBounded(g.adj, Home(g), x.workers[w].next[0], x.level);
  }

  lemma OpenBounded(g: Problem, row: set<nat>, x: Search, w: nat)
    requires Control(x) && Bounded(g, x) && w < |x.workers| && x.workers[w].pc.Pass? && x.workers[w].dist == x.level
    ensures Bounded(g, Step(g, row, x, w))
  {
    var x' := Step(g, row, x, w);
    AllAtBarrier(x, w);
    assert BoundedAt(g, x, w);
    forall j: nat ensures BoundedAt(g, x', j) { assert WorkerAt(x, j); }
  }

  /** A step that touches nobody else and does not open the barrier. */
  ghost predicate MovesAlone(x: Search, x': Search, w: nat) {
    && w < |x.workers| && |x'.workers| == |x.workers|
    && x'.workers == x.workers[w := x'.workers[w]] && x'.level == x.level
  }

  lemma StepMovesAlone(g: Problem, row: set<nat>, x: Search, w: nat)
    requires w < |x.workers| && !x.workers[w].pc.SplitMake? && !x.workers[w].pc.Pass?
    ensures MovesAlone(x, Step(g, row, x, w), w)
  {
    hide Over, HasTarget;
  }

  lemma VisitBounded(g: Problem, row: set<nat>, x: Search, w: nat)
    requires w < |x.workers| && BoundedAt(g, x, w) && WorkerAt(x, w) && Visiting(x.workers[w].pc)
    ensures BoundedAt(g, Step(g, row, x, w), w)
  {
    hide HasTarget;
  }

  lemma OwnBounded(g: Problem, row: set<nat>, x: Search, w: nat)
    requires w < |x.workers| && BoundedAt(g, x, w) && WorkerAt(x, w)
    requires !x.workers[w].pc.SplitMake? && !x.workers[w].pc.Pass? && !Visiting(x.workers[w].pc)
    requires x.workers[w].pc.Check? && !Over(g, row) && x.workers[w].next != [] ==> x.level < |g.adj|
    ensures BoundedAt(g, Step(g, row, x, w), w)
  {
    hide Over;
  }

  lemma MakeBounded(g: Problem, row: set<nat>, x: Search, w: nat)
    requires Bounded(g, x) && w < |x.workers| && x.workers[w].pc.SplitMake?
    ensures Bounded(g, Step(g, row, x, w))
  {
    var x' := Step(g, row, x, w);
    assert BoundedAt(g, x, w);
    forall j: nat ensures BoundedAt(g, x', j) { assert BoundedAt(g, x, j); }
  }

  lemma PassBounded(g: Problem, row: set<nat>, x: Search, w: nat)
    requires Control(x) && Bounded(g, x) && w < |x.workers| && x.workers[w].pc.Pass?
    ensures Bounded(g, Step(g, row, x, w))
  {
    assert WorkerAt(x, w);
    if x.workers[w].dist == x.level {
      OpenBounded(g, row, x, w);
    } else {
      var x' := Step(g, row, x, w);
      forall j: nat ensures BoundedAt(g, x', j) { assert BoundedAt(g, x, j); }
    }
  }

  lemma StepBounded(g: Problem, row: set<nat>, x: Search, w: nat)
    requires Control(x) && SearchInv(g, row, x) && Bounded(g, x) && w < |x.workers|
    ensures Bounded(g, Step(g, row, x, w))
  {
    hide Step, Over;
    var x', u := Step(g, row, x, w), x.workers[w];
    if u.pc.Pass? {
      PassBounded(g, row, x, w);
    } else if u.pc.SplitMake? {
      MakeBounded(g, row, x, w);
    } else {
      assert WorkerAt(x, w) && BoundedAt(g, x, w);
      if u.pc.Check? && !Over(g, row) && u.next != [] {
        CheckFindsLevel(g, row, x, w);
      }
      StepMovesAlone(g, row, x, w);
      if Visiting(u.pc) {
        VisitBounded(g, row, x, w);
      } else {
        OwnBounded(g, row, x, w);
      }
      forall j: nat ensures BoundedAt(g, x', j) { assert BoundedAt(g, x, j); }
    }
  }

  lemma InitialBounded(g: Problem, n: nat)
    requires g.home < |g.houses| && n > 0
    ensures Bounded(g, Initial(g, n))
  {
  }

  lemma NextBounded(g: Problem, s: View, s': View)
    requires Control(s.search) && SearchInv(g, s.row, s.search) && Bounded(g, s.search) && Next(g, s, s')
    ensures Bounded(g, s'.search)
  {
    hide Step, BitOf, Bounded, Control, SearchInv;
    if !(s'.search == s.search && s.row <= s'.row) {
      var w: nat :| w < |s.search.workers| && s' == View(s.row + BitOf(g, s.search, w), Step(g, s.row, s.search, w));
      StepBounded(g, s.row, s.search, w);
    }
  }

  lemma {:induction false} RunBounded(g: Problem, run: seq<View>, k: nat)
    requires IsRun(g, run) && k < |run|
    ensures Bounded(g, run[k].search)
  {
    hide Bounded, Control, SearchInv, Next, Initial;
    if k == 0 {
      var n: nat :| n > 0 && run[0].search == Initial(g, n);
      InitialBounded(g, n);
    } else {
      RunInv(g, run, k - 1);
      RunBounded(g, run, k - 1);
      assert StepAt(g, run, k);
      NextBounded(g, run[k - 1], run[k]);
    }
  }

  // ---------- steps ----------

  lemma OverGrows(g: Problem, row: set<nat>, row': set<nat>)
    requires row <= row'
    ensures Over(g, row) ==> Over(g, row')
  {
  }

  /** A row with more bits leaves no more to hand over. */
  lemma SpareFalls(g: Problem, row: set<nat>, row': set<nat>, x: Search)
    requires row <= row'
    ensures TeamSpare(g, row', x) <= TeamSpare(g, row, x)
  {
    OverGrows(g, row, row');
    SumMonotone(x.workers, SpareOf(x.level, Over(g, row)), SpareOf(x.level, Over(g, row')));
  }

  /** Worker w moves on its own and has fewer steps left. */
  lemma OwnStepLessens(g: Problem, row: set<nat>, row': set<nat>, x: Search, x': Search, w: nat)
    requires row <= row' && MovesAlone(x, x', w)
    requires Spare(x.level, Over(g, row), x'.workers[w]) <= Spare(x.level, Over(g, row), x.workers[w])
    requires StepsLeft(g, x.level, x'.workers[w]) < StepsLeft(g, x.level, x.workers[w])
    ensures LessWork(g, View(row', x'), View(row, x))
  {
    hide Spare, StepsLeft, Over;
    SumOfPut(x.workers, SpareOf(x.level, Over(g, row)), w, x'.workers[w]);
    SumOfPut(x.workers, StepsOf(g, x.level), w, x'.workers[w]);
    SpareFalls(g, row, row', x');
  }

  /** Worker w moves on its own and does no work. */
  lemma OwnStepKeeps(g: Problem, row: set<nat>, row': set<nat>, x: Search, x': Search, w: nat)
    requires row <= row' && MovesAlone(x, x', w)
    requires Spare(x.level, Over(g, row), x'.workers[w]) == Spare(x.level, Over(g, row), x.workers[w])
    requires StepsLeft(g, x.level, x'.workers[w]) == StepsLeft(g, x.level, x.workers[w])
    requires x'.workers[w].busy == x.workers[w].busy
    requires Busy(x.workers) == {} ==> ExitSteps()(x'.workers[w]) <= ExitSteps()(x.workers[w])
    ensures NoMoreWork(g, View(row', x'), View(row, x))
    ensures Busy(x.workers) == {} && ExitSteps()(x'.workers[w]) < ExitSteps()(x.workers[w]) ==>
      LessWork(g, View(row', x'), View(row, x))
  {
    BusySame(x.workers, w, x'.workers[w]);
    hide Spare, StepsLeft, Over, Busy;
    SumOfPut(x.workers, SpareOf(x.level, Over(g, row)), w, x'.workers[w]);
    SumOfPut(x.workers, StepsOf(g, x.level), w, x'.workers[w]);
    SumOfPut(x.workers, ExitSteps(), w, x'.workers[w]);
    SpareFalls(g, row, row', x');
  }

  lemma VisitCostAt(g: Problem, vs: seq<nat>, c: nat)
    requires c < |vs|
    ensures VisitCost(g, vs[c..]) == VisitCost(g, vs[c + 1..]) + 4 * Degree(g, vs[c]) + 1
  {
    assert vs[c..][1..] == vs[c + 1..];
  }

  /** A worker about to start on its c-th vertex. */
  lemma LeftAtStart(g: Problem, u: Worker)
    requires u.pc.Visit? && u.pc.c <= |u.cur| && u.pc.i == 0
    ensures LeftToVisit(g, u) == VisitCost(g, u.cur[u.pc.c..])
  {
    if u.pc.c < |u.cur| {
      VisitCostAt(g, u.cur, u.pc.c);
    }
  }

  /** How a visiting worker goes on. */
  ghost predicate Advances(g: Problem, u: Worker, u': Worker) {
    && Visiting(u.pc) && u'.cur == u.cur
    && var c, i := u.pc.c, u.pc.i;
    if c >= |u.cur| then u.pc.Visit? && u'.pc.Finish?
    else if i >= Degree(g, u.cur[c]) then u.pc.Visit? && u'.pc == Visit(c + 1, 0)
    else
      match u.pc
      case Visit(_, _) => u'.pc == Visit(c, i + 1) || u'.pc == Mark(c, i)
      case Mark(_, _) => u'.pc == Visit(c, i + 1) || u'.pc == Record(c, i)
      case Record(_, _) => u'.pc == SetBits(c, i)
      case SetBits(_, _) => u'.pc == Visit(c, i + 1)
  }

  lemma VisitAdvances(g: Problem, row: set<nat>, x: Search, w: nat)
    requires w < |x.workers| && Visiting(x.workers[w].pc) && PositionAt(g, x, w)
    requires forall k: nat :: k < |x.workers[w].cur| ==> x.workers[w].cur[k] < |g.adj|
    ensures w < |Step(g, row, x, w).workers| && Advances(g, x.workers[w], Step(g, row, x, w).workers[w])
  {
  }

  lemma AdvancingLessens(g: Problem, level: nat, over: bool, u: Worker, u': Worker)
    requires Advances(g, u, u')
    ensures StepsLeft(g, level, u') < StepsLeft(g, level, u) && Spare(level, over, u') <= Spare(level, over, u)
  {
    hide VisitCost;
    if u.pc.c < |u.cur| && u.pc.i >= Degree(g, u.cur[u.pc.c]) {
      LeftAtStart(g, u');
    }
  }

  lemma VisitLessens(g: Problem, row: set<nat>, x: Search, w: nat)
    requires w < |x.workers| && Visiting(x.workers[w].pc) && PositionAt(g, x, w)
    requires forall k: nat :: k < |x.workers[w].cur| ==> x.workers[w].cur[k] < |g.adj|
    ensures LessWork(g, View(row + BitOf(g, x, w), Step(g, row, x, w)), View(row, x))
  {
    hide Step, StepsLeft, Spare, LessWork, Over, Advances;
    var x' := Step(g, row, x, w);
    StepMovesAlone(g, row, x, w);
    VisitAdvances(g, row, x, w);
    AdvancingLessens(g, x.level, Over(g, row), x.workers[w], x'.workers[w]);
    OwnStepLessens(g, row, row + BitOf(g, x, w), x, x', w);
  }

  /** The steps of a busy worker between two stretches of visiting. */
  ghost predicate Proceeds(g: Problem, level: nat, over: bool, u: Worker, u': Worker) {
    match u.pc
    case Idle => u.busy && u' == u.(pc := Check, dist := u.startDist, next := u.next + [u.startVertex])
    case IdleCount => u.busy && u' == u.(pc := Idle)
    case Check =>
      u' == if !over && u.next != [] then u.(pc := SplitTest, cur := u.next, next := u.cur) else u.(pc := Leave)
    case SplitTest => u' == u.(pc := SplitMake) || u' == u.(pc := Visit(0, 0))
    case SplitMake => u' == u.(pc := Visit(0, 0))
    case Finish => u' == u.(pc := Wait, cur := []) && u.dist == level
    case Wait => u' == u.(pc := Pass)
    case Pass => u.dist != level && u' == u.(pc := Check, dist := u.dist + 1)
    case Leave => u' == u.(pc := Idle, busy := false)
    case _ => false
  }

  lemma ProceedingLessens(g: Problem, level: nat, over: bool, u: Worker, u': Worker)
    requires Proceeds(g, level, over, u, u')
    ensures StepsLeft(g, level, u') < StepsLeft(g, level, u) && Spare(level, over, u') <= Spare(level, over, u)
  {
    if u'.pc.Visit? {
      LeftAtStart(g, u');
      assert u.cur[0..] == u.cur;
    }
    hide VisitCost, LeftToVisit;
  }

  lemma StepProceeds(g: Problem, row: set<nat>, x: Search, w: nat)
    requires w < |x.workers| && x.workers[w].busy && WorkerAt(x, w) && !HeldBack(x, w)
    requires !Visiting(x.workers[w].pc) && !x.workers[w].pc.SplitMake? && !x.workers[w].pc.Pass?
      && !x.workers[w].pc.Exited?
    requires x.numFree != |x.workers|
    ensures MovesAlone(x, Step(g, row, x, w), w)
    ensures Proceeds(g, x.level, Over(g, row), x.workers[w], Step(g, row, x, w).workers[w])
  {
    hide Over;
  }

  lemma LatePassProceeds(g: Problem, row: set<nat>, x: Search, w: nat)
    requires Control(x) && w < |x.workers| && x.workers[w].pc.Pass? && x.workers[w].dist != x.level
    ensures MovesAlone(x, Step(g, row, x, w), w)
    ensures Proceeds(g, x.level, Over(g, row), x.workers[w], Step(g, row, x, w).workers[w])
  {
    hide Over;
    assert WorkerAt(x, w);
  }

  lemma OpenLessens(g: Problem, row: set<nat>, x: Search, w: nat)
    requires Control(x) && Bounded(g, x) && w < |x.workers| && x.workers[w].pc.Pass? && x.workers[w].dist == x.level
    ensures x.level < Step(g, row, x, w).level <= |g.adj|
  {
    assert BoundedAt(g, x, w);
  }

  /** A vertex handed over can be handed over no more. */
  lemma SplitLessens(g: Problem, row: set<nat>, x: Search, x': Search, w: nat, i: nat)
    requires w < |x.workers| && i < |x.workers| && i != w && x'.level == x.level
    requires x.workers[w].pc.SplitMake? && |x.workers[w].cur| > 1
    requires Resting(x.workers[i].pc) && !x.workers[i].busy && (Over(g, row) || x.workers[i].next == [])
    requires var u, c := x.workers[w], x'.workers;
      && |c| == |x.workers| && c == x.workers[w := c[w]][i := c[i]]
      && c[w] == u.(pc := SplitTest, cur := u.cur[..|u.cur| - 1])
      && c[i].pc == x.workers[i].pc && c[i].next == x.workers[i].next
    ensures LessWork(g, View(row, x'), View(row, x))
  {
    var f := SpareOf(x.level, Over(g, row));
    hide Over;
    SumOfPut(x.workers, f, w, x'.workers[w]);
    SumOfPut(x.workers[w := x'.workers[w]], f, i, x'.workers[i]);
  }

  lemma MakeLessens(g: Problem, row: set<nat>, x: Search, w: nat)
    requires Control(x) && SearchInv(g, row, x) && Bounded(g, x) && w < |x.workers| && x.workers[w].pc.SplitMake?
    ensures LessWork(g, View(row, Step(g, row, x, w)), View(row, x))
  {
    var x', u := Step(g, row, x, w), x.workers[w];
    assert WorkerAt(x, w) && BoundedAt(g, x, w);
    var i := FirstFree(x.workers);
    if x.numFree <= 0 || i == |x.workers| {
      assert Proceeds(g, x.level, Over(g, row), u, x'.workers[w]);
      ProceedingLessens(g, x.level, Over(g, row), u, x'.workers[w]);
      hide Step, StepsLeft, Spare;
      OwnStepLessens(g, row, row, x, x', w);
    } else {
      assert WorkerAt(x, i) && NextAt(g, row, x, i, 0);
      assert w in Busy(x.workers);
      SplitLessens(g, row, x, x', w, i);
    }
  }

  lemma PlainLessens(g: Problem, row: set<nat>, x: Search, w: nat)
    requires Control(x) && Bounded(g, x) && w < |x.workers| && x.workers[w].busy && !HeldBack(x, w)
    requires !Visiting(x.workers[w].pc) && !x.workers[w].pc.SplitMake?
    ensures LessWork(g, View(row, Step(g, row, x, w)), View(row, x))
  {
    hide Step, StepsLeft, Spare, Proceeds, TeamSpare, TeamSteps, Over;
    var x', u := Step(g, row, x, w), x.workers[w];
    assert WorkerAt(x, w) && w in Busy(x.workers);
    if u.pc.Pass? && u.dist == x.level {
      OpenLessens(g, row, x, w);
    } else {
      if u.pc.Pass? {
        LatePassProceeds(g, row, x, w);
      } else {
        StepProceeds(g, row, x, w);
      }
      ProceedingLessens(g, x.level, Over(g, row), u, x'.workers[w]);
      OwnStepLessens(g, row, row, x, x', w);
    }
  }

  lemma NoBit(g: Problem, x: Search, w: nat)
    requires w < |x.workers| && !Visiting(x.workers[w].pc)
    ensures BitOf(g, x, w) == {}
  {
  }

  /** What a step of a busy worker that is not held back does to the work that remains. */
  lemma BusyStepLessens(g: Problem, row: set<nat>, x: Search, w: nat)
    requires Control(x) && SearchInv(g, row, x) && Bounded(g, x)
    requires w < |x.workers| && x.workers[w].busy && !HeldBack(x, w)
    ensures LessWork(g, View(row + BitOf(g, x, w), Step(g, row, x, w)), View(row, x))
  {
    hide Step, LessWork, BitOf;
    var u := x.workers[w];
    if Visiting(u.pc) {
      assert WorkerAt(x, w) && PositionAt(g, x, w);
      forall k: nat | k < |u.cur| ensures u.cur[k] < |g.adj| { CurInGraph(g, row, x, w, k); }
      VisitLessens(g, row, x, w);
    } else {
      NoBit(g, x, w);
      assert row + {} == row;
      if u.pc.SplitMake? {
        MakeLessens(g, row, x, w);
      } else {
        PlainLessens(g, row, x, w);
      }
    }
  }

  /** What the step of a worker does that has no work or is held back. */
  ghost predicate Idles(x: Search, u: Worker, u': Worker) {
    || u' == u
    || (!u.busy && u.pc.Idle? && u' == u.(pc := IdleCount))
    || (!u.busy && u.pc.IdleCount? && u' == u.(pc := if x.numFree == |x.workers| then Exited else Idle))
  }

  lemma IdleStepIdles(g: Problem, row: set<nat>, x: Search, w: nat)
    requires w < |x.workers| && WorkerAt(x, w) && (!x.workers[w].busy || HeldBack(x, w))
    ensures MovesAlone(x, Step(g, row, x, w), w) && Idles(x, x.workers[w], Step(g, row, x, w).workers[w])
    ensures BitOf(g, x, w) == {}
  {
    hide Over;
  }

  lemma IdlingKeeps(g: Problem, level: nat, over: bool, x: Search, u: Worker, u': Worker)
    requires Idles(x, u, u')
    ensures Spare(level, over, u') == Spare(level, over, u) && StepsLeft(g, level, u') == StepsLeft(g, level, u)
    ensures u'.busy == u.busy
    ensures x.numFree == |x.workers| ==> ExitSteps()(u') <= ExitSteps()(u)
    ensures x.numFree == |x.workers| && !u.busy && (u.pc.Idle? || u.pc.IdleCount?) && u' != u ==>
      ExitSteps()(u') < ExitSteps()(u)
  {
  }

  /** Waiting and looking around do not add to the work; leaving when nobody is busy lessens it. */
  lemma IdleStepKeeps(g: Problem, row: set<nat>, x: Search, w: nat)
    requires Control(x) && w < |x.workers| && (!x.workers[w].busy || HeldBack(x, w))
    ensures NoMoreWork(g, View(row + BitOf(g, x, w), Step(g, row, x, w)), View(row, x))
    ensures CanAct(x, w) ==> LessWork(g, View(row + BitOf(g, x, w), Step(g, row, x, w)), View(row, x))
  {
    hide LessWork, NoMoreWork, Spare, StepsLeft, Over;
    var x' := Step(g, row, x, w);
    assert WorkerAt(x, w);
    IdleStepIdles(g, row, x, w);
    IdlingKeeps(g, x.level, Over(g, row), x, x.workers[w], x'.workers[w]);
    if CanAct(x, w) {
      StepMoves(g, row, x, w);
    }
    hide Step;
    OwnStepKeeps(g, row, row + BitOf(g, x, w), x, x', w);
  }

  /** Whoever can get on leaves the team less work. */
  lemma ActingLessens(g: Problem, row: set<nat>, x: Search, w: nat)
    requires Control(x) && SearchInv(g, row, x) && Bounded(g, x) && CanAct(x, w)
    ensures LessWork(g, View(row + BitOf(g, x, w), Step(g, row, x, w)), View(row, x))
  {
    hide LessWork, Step, BitOf;
    if x.workers[w].busy {
      BusyStepLessens(g, row, x, w);
    } else {
      IdleStepKeeps(g, row, x, w);
    }
  }

  lemma AnyStepAddsNothing(g: Problem, row: set<nat>, x: Search, w: nat)
    requires Control(x) && SearchInv(g, row, x) && Bounded(g, x) && w < |x.workers|
    ensures NoMoreWork(g, View(row + BitOf(g, x, w), Step(g, row, x, w)), View(row, x))
  {
    hide LessWork, Step, BitOf;
    if x.workers[w].busy && !HeldBack(x, w) {
      BusyStepLessens(g, row, x, w);
    } else {
      IdleStepKeeps(g, row, x, w);
    }
  }

  lemma MoreBitsAddNothing(g: Problem, row: set<nat>, row': set<nat>, x: Search)
    requires row <= row'
    ensures NoMoreWork(g, View(row', x), View(row, x))
  {
    SpareFalls(g, row, row', x);
  }

  // ---------- runs ----------

  /** Every step of a worker that can get on leaves the team strictly less work.  By TeamMakesProgress there is such a
      worker until all have left: a team that lets them step finishes. */
  lemma StepsLessenWork(g: Problem, run: seq<View>, k: nat, w: nat)
    requires IsRun(g, run) && k < |run| && CanAct(run[k].search, w)
    ensures var s := run[k];
      LessWork(g, View(s.row + BitOf(g, s.search, w), Step(g, s.row, s.search, w)), s)
  {
    hide LessWork, Step, BitOf;
    RunInv(g, run, k);
    RunBounded(g, run, k);
    ActingLessens(g, run[k].row, run[k].search, w);
  }

  /** No step whatsoever, of the team or of other searches, adds to the work that remains. */
  lemma NothingAddsWork(g: Problem, run: seq<View>, k: nat)
    requires IsRun(g, run) && 0 < k < |run|
    ensures NoMoreWork(g, run[k], run[k - 1])
  {
    hide Step, BitOf, NoMoreWork;
    var s, s' := run[k - 1], run[k];
    RunInv(g, run, k - 1);
    RunBounded(g, run, k - 1);
    assert StepAt(g, run, k);
    if s'.search == s.search && s.row <= s'.row {
      MoreBitsAddNothing(g, s.row, s'.row, s.search);
    } else {
      var w: nat :| w < |s.search.workers| && s' == View(s.row + BitOf(g, s.search, w), Step(g, s.row, s.search, w));
      AnyStepAddsNothing(g, s.row, s.search, w);
    }
  }
}
