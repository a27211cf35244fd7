/**
 One search of Project1: level-synchronous breadth-first search from a house by a team of workers
 that split the frontier among themselves and meet at a double-buffered bitmask barrier, as a
 transition system.  A section under one of the mutexes is one step; so is every unlocked shared read
 or write.  The test of `check_map` and its setting are two steps, so two workers may both take a vertex.

 Searches from other houses run at the same time: `row`, the bits of the houses this one has met, is
 an input of every step and only grows.  The single-threaded search is the case of one worker.
 */
module LevelSearch {
  import opened Graph

  const INT_MAX: int := 0x7fff_ffff

  datatype BFSResult = BFSResult(min: int, max: int)

  const EMPTY_RESULT := BFSResult(INT_MAX, 0)

  function Lesser(x: int, y: int): int { if x < y then x else y }

  function Greater(x: int, y: int): int { if x < y then y else x }

  /** BFSResult::Update with another result. */
  function Merge(x: BFSResult, y: BFSResult): BFSResult {
    BFSResult(Lesser(x.min, y.min), Greater(x.max, y.max))
  }

  /** BFSResult::Update with a distance. */
  function Update(x: BFSResult, dist: int): BFSResult {
    BFSResult(Lesser(x.min, dist), Greater(x.max, dist))
  }

  datatype Pc =
    | Idle                       // while (!param->is_busy)
    | IdleCount                  // num_free_workers_ == workers_.size()
    | Check                      // the condition of the level loop
    | SplitTest | SplitMake
    | Visit(c: nat, i: nat)      // the i-th neighbour of cur[c], counted from the last: test of check_map
    | Mark(c: nat, i: nat)       // check_map = 1; push_back
    | Record(c: nat, i: nat)     // result_.Update
    | SetBits(c: nat, i: nat)    // visit bits of both houses
    | Finish                     // cur cleared; own bit into the done mask
    | Wait                       // the barrier
    | Pass                       // the section that recycles the other mask buffer
    | Leave
    | Exited

  datatype Worker = Worker(
    pc: Pc, busy: bool, startVertex: nat, startDist: nat, dist: nat, cur: seq<nat>, next: seq<nat>)

  /** The two mask buffers, indexed by the parity of the level.  `level` is a history variable: how often
      the barrier has been passed for the first time. */
  datatype Search = Search(
    workers: seq<Worker>, check: set<nat>,
    done0: set<nat>, done1: set<nat>, full0: set<nat>, full1: set<nat>, flag0: bool, flag1: bool,
    numFree: int, result: BFSResult, level: nat)

  /** The graph, the houses and the index of the house this search starts from. */
  datatype Problem = Problem(adj: Adjacency, houses: seq<nat>, home: nat)

  ghost predicate ValidProblem(g: Problem) {
    && Symmetric(g.adj) && |g.adj| <= INT_MAX
    && g.home < |g.houses|
    && (forall a :: 0 <= a < |g.houses| ==> g.houses[a] < |g.adj|)
    && (forall a, b :: 0 <= a < b < |g.houses| ==> g.houses[a] != g.houses[b])
  }

  function HouseIndex(houses: seq<nat>, v: nat): (b: nat)
    ensures b <= |houses|
    ensures b < |houses| ==> houses[b] == v
    ensures b == |houses| ==> v !in houses
  {
    if houses == [] || houses[0] == v then 0 else 1 + HouseIndex(houses[1..], v)
  }

  /** visit_bits == full_visit_bits: every other house has been met. */
  predicate Over(g: Problem, row: set<nat>) {
    forall b :: 0 <= b < |g.houses| && b != g.home ==> b in row
  }

  function Initial(g: Problem, n: nat): Search
    requires g.home < |g.houses| && n > 0
  {
    Search(seq(n, w => Worker(Idle, w == 0, g.houses[g.home], 0, 0, [], [])), {g.houses[g.home]},
           {}, {}, {0}, {}, false, false, n - 1, EMPTY_RESULT, 0)
  }

  // ---------- masks ----------

  function DoneAt(x: Search, level: nat): set<nat> { if level % 2 == 0 then x.done0 else x.done1 }

  function FullAt(x: Search, level: nat): set<nat> { if level % 2 == 0 then x.full0 else x.full1 }

  function FlagAt(x: Search, level: nat): bool { if level % 2 == 0 then x.flag0 else x.flag1 }

  function SetDone(x: Search, level: nat, m: set<nat>): Search {
    if level % 2 == 0 then x.(done0 := m) else x.(done1 := m)
  }

  function SetFull(x: Search, level: nat, m: set<nat>): Search {
    if level % 2 == 0 then x.(full0 := m) else x.(full1 := m)
  }

  function SetFlag(x: Search, level: nat, f: bool): Search {
    if level % 2 == 0 then x.(flag0 := f) else x.(flag1 := f)
  }

  // ---------- steps ----------

  /** The vertex a visiting worker looks at. */
  function Target(g: Problem, u: Worker): nat
    requires HasTarget(g, u)
  {
    g.adj[u.cur[u.pc.c]][|g.adj[u.cur[u.pc.c]]| - 1 - u.pc.i]
  }

  predicate Visiting(pc: Pc) {
    pc.Visit? || pc.Mark? || pc.Record? || pc.SetBits?
  }

  predicate HasTarget(g: Problem, u: Worker) {
    Visiting(u.pc) && u.pc.c < |u.cur| && u.cur[u.pc.c] < |g.adj| && u.pc.i < |g.adj[u.cur[u.pc.c]]|
  }

  function Put(x: Search, w: nat, u: Worker): Search
    requires w < |x.workers|
  {
    x.(workers := x.workers[w := u])
  }

  function Goto(x: Search, w: nat, pc: Pc): Search
    requires w < |x.workers|
  {
    Put(x, w, x.workers[w].(pc := pc))
  }

  /** The first worker that is not busy, or the number of workers. */
  function FirstFree(workers: seq<Worker>): (i: nat)
    ensures i <= |workers|
    ensures i < |workers| ==> !workers[i].busy
    ensures forall k :: 0 <= k < i ==> workers[k].busy
  {
    if workers == [] || !workers[0].busy then 0 else 1 + FirstFree(workers[1..])
  }

  function MakeStep(x: Search, w: nat): Search
    requires w < |x.workers|
  {
    var u := x.workers[w];
    var i := FirstFree(x.workers);
    if x.numFree <= 0 || u.cur == [] || i == |x.workers| then Goto(x, w, Visit(0, 0))
    else
      var n := |u.cur| - 1;
      var x' := x.(numFree := x.numFree - 1,
                   workers := x.workers[w := u.(pc := SplitTest, cur := u.cur[..n])]
                              [i := x.workers[i].(startVertex := u.cur[n], startDist := u.dist, busy := true)]);
      SetFull(x', u.dist, FullAt(x', u.dist) + {i})
  }

  /** The first worker through recycles the buffers of the other parity. */
  function PassStep(x: Search, w: nat): Search
    requires w < |x.workers|
  {
    var u := x.workers[w];
    var x' := Put(x, w, u.(pc := Check, dist := u.dist + 1));
    if FlagAt(x, u.dist) then x'
    else
      var x'' := SetFull(SetDone(x', u.dist + 1, {}), u.dist + 1, FullAt(x, u.dist));
      SetFlag(SetFlag(x'', u.dist, true), u.dist + 1, false)
        .(level := x.level + 1)
  }

  function LeaveStep(x: Search, w: nat): Search
    requires w < |x.workers|
  {
    var u := x.workers[w];
    Put(x, w, u.(pc := Idle, busy := false))
      .(full0 := x.full0 - {w}, full1 := x.full1 - {w}, numFree := x.numFree + 1)
  }

  /** One step of worker w.  The bit it sets in the shared rows, if any, is `BitOf`. */
  function Step(g: Problem, row: set<nat>, x: Search, w: nat): Search
    requires w < |x.workers|
  {
    var u := x.workers[w];
    match u.pc
    case Idle =>
      if u.busy then Put(x, w, u.(pc := Check, dist := u.startDist, next := u.next + [u.startVertex]))
      else Goto(x, w, IdleCount)
    case IdleCount => Goto(x, w, if x.numFree == |x.workers| then Exited else Idle)
    case Check =>
      if !Over(g, row) && u.next != [] then Put(x, w, u.(pc := SplitTest, cur := u.next, next := u.cur))
      else Goto(x, w, Leave)
    case SplitTest => Goto(x, w, if x.numFree > 0 && |u.cur| > 1 then SplitMake else Visit(0, 0))
    case SplitMake => MakeStep(x, w)
    case Visit(c, i) =>
      if c >= |u.cur| || u.cur[c] >= |g.adj| then Goto(x, w, Finish)
      else if i >= |g.adj[u.cur[c]]| then Goto(x, w, Visit(c + 1, 0))
      else if Target(g, u) in x.check then Goto(x, w, Visit(c, i + 1))
      else Goto(x, w, Mark(c, i))
    case Mark(c, i) =>
      if HasTarget(g, u) then
        Put(x, w, u.(next := u.next + [Target(g, u)],
                     pc := if Target(g, u) in g.houses then Record(c, i) else Visit(c, i + 1)))
          .(check := x.check + {Target(g, u)})
      else x
    case Record(c, i) => Goto(x, w, SetBits(c, i)).(result := Update(x.result, u.dist + 1))
    case SetBits(c, i) => Goto(x, w, Visit(c, i + 1))
    case Finish => SetDone(Put(x, w, u.(pc := Wait, cur := [])), u.dist, DoneAt(x, u.dist) + {w})
    case Wait => if FullAt(x, u.dist) <= DoneAt(x, u.dist) then Goto(x, w, Pass) else x
    case Pass => PassStep(x, w)
    case Leave => LeaveStep(x, w)
    case Exited => x
  }

  /** The house whose bit the step sets: the one the worker has just reached. */
  function BitOf(g: Problem, x: Search, w: nat): (bits: set<nat>)
    requires w < |x.workers|
  {
    var u := x.workers[w];
    if u.pc.SetBits? && HasTarget(g, u) then {HouseIndex(g.houses, Target(g, u))} else {}
  }

  predicate Finished(x: Search) {
    forall w :: 0 <= w < |x.workers| ==> x.workers[w].pc.Exited?
  }
}
