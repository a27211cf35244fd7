/**
 The team search visits levels in order: what is marked, pending and recorded in every reachable
 state, whatever the workers and the searches from other houses do.
 */
module LevelProof {
  import opened Graph
  import opened LevelSearch
  import opened LevelControl

  function Home(g: Problem): nat
    requires g.home < |g.houses|
  {
    g.houses[g.home]
  }

  /** First position of `cur` that the worker has not dealt with. */
  function Position(u: Worker): nat {
    if Visiting(u.pc) then u.pc.c else if u.pc.Finish? then |u.cur| else 0
  }

  /** Vertex v waits with this worker. */
  ghost predicate HoldsPending(u: Worker, v: nat) {
    || v in u.next
    || (Expanding(u.pc) && Position(u) <= |u.cur| && v in u.cur[Position(u)..])
    || (Resting(u.pc) && u.busy && u.startVertex == v)
  }

  ghost predicate Pending(x: Search, v: nat) {
    exists w :: 0 <= w < |x.workers| && HoldsPending(x.workers[w], v)
  }

  ghost predicate SomeExpanding(x: Search) {
    exists w :: 0 <= w < |x.workers| && Expanding(x.workers[w].pc)
  }

  /** The worker has reached house b and not set its bit yet. */
  ghost predicate Handles(g: Problem, u: Worker, v: nat) {
    (u.pc.Record? || u.pc.SetBits?) && HasTarget(g, u) && Target(g, u) == v
  }

  ghost predicate Covers(r: BFSResult, d: int) {
    r.min <= d <= r.max
  }

  /** d is the distance of two different houses. */
  ghost predicate PairDist(adj: Adjacency, houses: seq<nat>, d: int) {
    exists a, b :: 0 <= a < |houses| && 0 <= b < |houses| && a != b && d >= 0 && Dist(adj, houses[a], houses[b], d)
  }

  /** A result that no distance, or only true distances, have gone into. */
  ghost predicate Genuine(adj: Adjacency, houses: seq<nat>, r: BFSResult) {
    r == EMPTY_RESULT || (PairDist(adj, houses, r.min) && PairDist(adj, houses, r.max))
  }

  // ---------- the invariant ----------

  ghost predicate CurAt(g: Problem, x: Search, w: nat, k: nat)
    requires g.home < |g.houses|
  {
    w < |x.workers| && Expanding(x.workers[w].pc) && k < |x.workers[w].cur| ==>
      x.workers[w].cur[k] in x.check && Dist(g.adj, Home(g), x.workers[w].cur[k], x.level)
  }

  ghost predicate PositionAt(g: Problem, x: Search, w: nat) {
    w < |x.workers| && Visiting(x.workers[w].pc) ==>
      var u := x.workers[w];
      && u.pc.c <= |u.cur|
      && (!u.pc.Visit? ==> HasTarget(g, u))
  }

  ghost predicate NextAt(g: Problem, row: set<nat>, x: Search, w: nat, k: nat)
    requires g.home < |g.houses|
  {
    w < |x.workers| && k < |x.workers[w].next| ==>
      var u := x.workers[w];
      if AtBarrier(u.pc) then u.next[k] in x.check && Dist(g.adj, Home(g), u.next[k], u.dist + 1)
      else if Expanding(u.pc) then u.next[k] in x.check && Dist(g.adj, Home(g), u.next[k], x.level + 1)
      else
        && (u.pc.Check? || Over(g, row))
        && (!Over(g, row) || SomeExpanding(x) ==> u.next[k] in x.check && Dist(g.adj, Home(g), u.next[k], x.level))
  }

  ghost predicate StartAt(g: Problem, x: Search, w: nat)
    requires g.home < |g.houses|
  {
    w < |x.workers| && Resting(x.workers[w].pc) && x.workers[w].busy ==>
      x.workers[w].startVertex in x.check && Dist(g.adj, Home(g), x.workers[w].startVertex, x.level)
  }

  ghost predicate SoundAt(g: Problem, x: Search, v: nat)
    requires g.home < |g.houses|
  {
    v in x.check ==> exists d: nat :: d <= x.level + 1 && Dist(g.adj, Home(g), v, d)
  }

  /** As long as anybody expands, or may yet, everything up to the current level is marked. */
  ghost predicate CompleteAt(g: Problem, row: set<nat>, x: Search, v: nat, k: nat)
    requires g.home < |g.houses|
  {
    (!Over(g, row) || SomeExpanding(x)) && k <= x.level && Walk(g.adj, Home(g), v, k) ==> v in x.check
  }

  /** While houses are missing, the neighbours of what has been dealt with are marked. */
  ghost predicate ExpandedAt(g: Problem, row: set<nat>, x: Search, v: nat, j: nat) {
    !Over(g, row) && v in x.check && v < |g.adj| && j < |g.adj[v]| && !Pending(x, v) ==> g.adj[v][j] in x.check
  }

  ghost predicate ScannedAt(g: Problem, x: Search, w: nat, j: nat) {
    w < |x.workers| && Visiting(x.workers[w].pc) ==>
      var u := x.workers[w];
      u.pc.c < |u.cur| && u.cur[u.pc.c] < |g.adj| && j < u.pc.i && j < |g.adj[u.cur[u.pc.c]]| ==>
        g.adj[u.cur[u.pc.c]][|g.adj[u.cur[u.pc.c]]| - 1 - j] in x.check
  }

  ghost predicate TargetAt(g: Problem, x: Search, w: nat)
    requires g.home < |g.houses|
  {
    w < |x.workers| && HasTarget(g, x.workers[w]) && !x.workers[w].pc.Visit? ==>
      var u := x.workers[w];
      && Dist(g.adj, Home(g), Target(g, u), x.level + 1)
      && (u.pc.Record? || u.pc.SetBits? ==> Target(g, u) in x.check && Target(g, u) in g.houses)
      && (u.pc.SetBits? ==> Covers(x.result, x.level + 1))
  }

  /** A marked house has its bit set, or some worker is about to set it. */
  ghost predicate HouseAt(g: Problem, row: set<nat>, x: Search, b: nat) {
    b < |g.houses| && b != g.home && g.houses[b] in x.check && b !in row ==>
      exists w :: 0 <= w < |x.workers| && Handles(g, x.workers[w], g.houses[b])
  }

  ghost predicate SearchInv(g: Problem, row: set<nat>, x: Search) {
    && g.home < |g.houses|
    && Home(g) in x.check
    && (forall w: nat, k: nat :: CurAt(g, x, w, k))
    && (forall w: nat :: PositionAt(g, x, w))
    && (forall w: nat, k: nat :: NextAt(g, row, x, w, k))
    && (forall w: nat :: StartAt(g, x, w))
    && (forall v: nat :: SoundAt(g, x, v))
    && (forall v: nat, k: nat :: CompleteAt(g, row, x, v, k))
    && (forall v: nat, j: nat :: ExpandedAt(g, row, x, v, j))
    && (forall w: nat, j: nat :: ScannedAt(g, x, w, j))
    && (forall w: nat :: TargetAt(g, x, w))
    && (forall b: nat :: HouseAt(g, row, x, b))
    && Genuine(g.adj, g.houses, x.result)
  }

  lemma InitialSearch(g: Problem, row: set<nat>, n: nat)
    requires ValidProblem(g) && n > 0
    ensures SearchInv(g, row, Initial(g, n))
  {
    var x := Initial(g, n);
    assert Dist(g.adj, Home(g), Home(g), 0);
    forall v: nat, j: nat ensures ExpandedAt(g, row, x, v, j) {
      if v in x.check {
        assert HoldsPending(x.workers[0], v);
      }
    }
  }

  /** Bits set by the searches from other houses only help. */
  lemma RowGrows(g: Problem, row: set<nat>, row': set<nat>, x: Search)
    requires SearchInv(g, row, x) && row <= row'
    ensures SearchInv(g, row', x)
  {
    forall w: nat, k: nat ensures NextAt(g, row', x, w, k) { assert NextAt(g, row, x, w, k); }
    forall v: nat, k: nat ensures CompleteAt(g, row', x, v, k) { assert CompleteAt(g, row, x, v, k); }
    forall v: nat, j: nat ensures ExpandedAt(g, row', x, v, j) { assert ExpandedAt(g, row, x, v, j); }
    forall b: nat ensures HouseAt(g, row', x, b) { assert HouseAt(g, row, x, b); }
  }

  // ---------- steps of one worker that mark nothing ----------

  lemma PendingKept(x: Search, x': Search, w: nat, v: nat)
    requires Pending(x, v) && w < |x.workers| && |x'.workers| == |x.workers|
    requires x'.workers == x.workers[w := x'.workers[w]]
    requires HoldsPending(x.workers[w], v) ==> HoldsPending(x'.workers[w], v)
    ensures Pending(x', v)
  {
    var j :| 0 <= j < |x.workers| && HoldsPending(x.workers[j], v);
    assert HoldsPending(x'.workers[j], v);
  }

  /** What must hold of the worker that moves. */
  ghost predicate MoverOk(g: Problem, row: set<nat>, x: Search, w: nat)
    requires g.home < |g.houses|
  {
    && (forall k: nat :: CurAt(g, x, w, k))
    && PositionAt(g, x, w)
    && (forall k: nat :: NextAt(g, row, x, w, k))
    && StartAt(g, x, w)
    && (forall j: nat :: ScannedAt(g, x, w, j))
    && TargetAt(g, x, w)
  }

  /** Only worker w moves; nothing it had pending is lost unless it has been dealt with. */
  ghost predicate Moves(g: Problem, row: set<nat>, row': set<nat>, x: Search, x': Search, w: nat) {
    && w < |x.workers| && |x'.workers| == |x.workers| && g.home < |g.houses| && row <= row'
    && x'.workers == x.workers[w := x'.workers[w]]
    && x'.check == x.check && x'.level == x.level
    && x'.result.min <= x.result.min && x.result.max <= x'.result.max
    && Genuine(g.adj, g.houses, x'.result)
    && (Expanding(x'.workers[w].pc) ==> Expanding(x.workers[w].pc) || !Over(g, row))
    && (forall v: nat :: HoldsPending(x.workers[w], v) && !HoldsPending(x'.workers[w], v) ==>
         Over(g, row') || (v < |g.adj| && forall j :: 0 <= j < |g.adj[v]| ==> g.adj[v][j] in x.check))
    && (forall b: nat :: b < |g.houses| && Handles(g, x.workers[w], g.houses[b]) ==>
         b in row' || Handles(g, x'.workers[w], g.houses[b]))
  }

  lemma MoveKeepsExpanded(g: Problem, row: set<nat>, row': set<nat>, x: Search, x': Search, w: nat, v: nat, j: nat)
    requires SearchInv(g, row, x) && Moves(g, row, row', x, x', w)
    ensures ExpandedAt(g, row', x', v, j)
  {
    assert ExpandedAt(g, row, x, v, j);
    if Pending(x, v) && (HoldsPending(x.workers[w], v) ==> HoldsPending(x'.workers[w], v)) {
      PendingKept(x, x', w, v);
    }
  }

  lemma MoveKeepsHouses(g: Problem, row: set<nat>, row': set<nat>, x: Search, x': Search, w: nat, b: nat)
    requires SearchInv(g, row, x) && Moves(g, row, row', x, x', w)
    ensures HouseAt(g, row', x', b)
  {
    assert HouseAt(g, row, x, b);
    if b < |g.houses| && b != g.home && g.houses[b] in x.check && b !in row' {
      var j :| 0 <= j < |x.workers| && Handles(g, x.workers[j], g.houses[b]);
      assert Handles(g, x'.workers[j], g.houses[b]);
    }
  }

  lemma MoveKeepsLevels(g: Problem, row: set<nat>, row': set<nat>, x: Search, x': Search, w: nat)
    requires SearchInv(g, row, x) && Moves(g, row, row', x, x', w)
    ensures forall v: nat :: SoundAt(g, x', v)
    ensures forall v: nat, k: nat :: CompleteAt(g, row', x', v, k)
  {
    forall v: nat ensures SoundAt(g, x', v) { assert SoundAt(g, x, v); }
    assert SomeExpanding(x') && !SomeExpanding(x) ==> !Over(g, row);
    forall v: nat, k: nat ensures CompleteAt(g, row', x', v, k) { assert CompleteAt(g, row, x, v, k); }
  }

  lemma MoveKeeps(g: Problem, row: set<nat>, row': set<nat>, x: Search, x': Search, w: nat)
    requires SearchInv(g, row, x) && Moves(g, row, row', x, x', w) && MoverOk(g, row', x', w)
    ensures SearchInv(g, row', x')
  {
    MoveKeepsLevels(g, row, row', x, x', w);
    forall j: nat, k: nat ensures CurAt(g, x', j, k) { assert CurAt(g, x, j, k); }
    forall j: nat ensures PositionAt(g, x', j) { assert PositionAt(g, x, j); }
    forall j: nat, k: nat ensures NextAt(g, row', x', j, k) { assert NextAt(g, row, x, j, k); }
    forall j: nat ensures StartAt(g, x', j) { assert StartAt(g, x, j); }
    forall v: nat, j: nat ensures ExpandedAt(g, row', x', v, j) { MoveKeepsExpanded(g, row, row', x, x', w, v, j); }
    forall j: nat, k: nat ensures ScannedAt(g, x', j, k) { assert ScannedAt(g, x, j, k); }
    forall j: nat ensures TargetAt(g, x', j) { assert TargetAt(g, x, j); }
    forall b: nat ensures HouseAt(g, row', x', b) { MoveKeepsHouses(g, row, row', x, x', w, b); }
  }

  lemma IdleStep(g: Problem, row: set<nat>, x: Search, w: nat)
    requires Control(x) && SearchInv(g, row, x) && w < |x.workers|
    requires var pc := x.workers[w].pc; (pc.Idle? && !x.workers[w].busy) || pc.Exited?
    ensures SearchInv(g, row, Step(g, row, x, w))
  {
    hide Dist, Over;
    var x' := Step(g, row, x, w);
    forall k: nat ensures NextAt(g, row, x', w, k) { assert NextAt(g, row, x, w, k); }
    MoveKeeps(g, row, row, x, x', w);
  }

  lemma IdleCountStep(g: Problem, row: set<nat>, x: Search, w: nat)
    requires Control(x) && SearchInv(g, row, x) && w < |x.workers| && x.workers[w].pc.IdleCount?
    ensures SearchInv(g, row, Step(g, row, x, w))
  {
    hide Dist, Over;
    var x' := Step(g, row, x, w);
    assert WorkerAt(x, w);
    if x.numFree == |x.workers| {
      BusyNone(x);
      assert w !in Busy(x.workers);
    }
    assert StartAt(g, x, w) && StartAt(g, x', w);
    forall k: nat ensures NextAt(g, row, x', w, k) { assert NextAt(g, row, x, w, k); }
    MoveKeeps(g, row, row, x, x', w);
  }

  lemma WaitStep(g: Problem, row: set<nat>, x: Search, w: nat)
    requires Control(x) && SearchInv(g, row, x) && w < |x.workers| && x.workers[w].pc.Wait?
    ensures SearchInv(g, row, Step(g, row, x, w))
  {
    hide Dist, Over;
    var x' := Step(g, row, x, w);
    forall k: nat ensures NextAt(g, row, x', w, k) { assert NextAt(g, row, x, w, k); }
    MoveKeeps(g, row, row, x, x', w);
  }

  lemma RestSteps(g: Problem, row: set<nat>, x: Search, w: nat)
    requires Control(x) && SearchInv(g, row, x) && w < |x.workers|
    requires var pc := x.workers[w].pc; (pc.Idle? && !x.workers[w].busy) || pc.IdleCount? || pc.Wait? || pc.Exited?
    ensures SearchInv(g, row, Step(g, row, x, w))
  {
    if x.workers[w].pc.IdleCount? {
      IdleCountStep(g, row, x, w);
    } else if x.workers[w].pc.Wait? {
      WaitStep(g, row, x, w);
    } else {
      IdleStep(g, row, x, w);
    }
  }

  lemma BeginStep(g: Problem, row: set<nat>, x: Search, w: nat)
    requires Control(x) && SearchInv(g, row, x) && w < |x.workers| && x.workers[w].pc.Idle? && x.workers[w].busy
    ensures SearchInv(g, row, Step(g, row, x, w))
  {
    var x', u := Step(g, row, x, w), x.workers[w];
    assert WorkerAt(x, w) && StartAt(g, x, w);
    forall k: nat ensures NextAt(g, row, x', w, k) { assert NextAt(g, row, x, w, k); }
    assert x'.workers[w].next[|u.next|] == u.startVertex;
    MoveKeeps(g, row, row, x, x', w);
  }

  lemma EnterStep(g: Problem, row: set<nat>, x: Search, w: nat)
    requires Control(x) && SearchInv(g, row, x) && w < |x.workers| && x.workers[w].pc.Check?
    requires !Over(g, row) && x.workers[w].next != []
    ensures SearchInv(g, row, Step(g, row, x, w))
  {
    hide Dist, Over;
    var x', u := Step(g, row, x, w), x.workers[w];
    assert WorkerAt(x, w);
    forall k: nat ensures CurAt(g, x', w, k) { assert NextAt(g, row, x, w, k); }
    assert x'.workers[w].cur[0..] == u.next;
    MoveKeeps(g, row, row, x, x', w);
  }

  lemma TurnAwayStep(g: Problem, row: set<nat>, x: Search, w: nat)
    requires Control(x) && SearchInv(g, row, x) && w < |x.workers| && x.workers[w].pc.Check?
    requires Over(g, row) || x.workers[w].next == []
    ensures SearchInv(g, row, Step(g, row, x, w))
  {
    hide Dist, Over;
    var x' := Step(g, row, x, w);
    assert WorkerAt(x, w);
    forall k: nat ensures NextAt(g, row, x', w, k) { assert NextAt(g, row, x, w, k); }
    MoveKeeps(g, row, row, x, x', w);
  }

  lemma CheckStep(g: Problem, row: set<nat>, x: Search, w: nat)
    requires Control(x) && SearchInv(g, row, x) && w < |x.workers| && x.workers[w].pc.Check?
    ensures SearchInv(g, row, Step(g, row, x, w))
  {
    if !Over(g, row) && x.workers[w].next != [] {
      EnterStep(g, row, x, w);
    } else {
      TurnAwayStep(g, row, x, w);
    }
  }

  lemma SplitTestStep(g: Problem, row: set<nat>, x: Search, w: nat)
    requires Control(x) && SearchInv(g, row, x) && w < |x.workers| && x.workers[w].pc.SplitTest?
    ensures SearchInv(g, row, Step(g, row, x, w))
  {
    var x' := Step(g, row, x, w);
    forall k: nat ensures CurAt(g, x', w, k) { assert CurAt(g, x, w, k); }
    forall k: nat ensures NextAt(g, row, x', w, k) { assert NextAt(g, row, x, w, k); }
    MoveKeeps(g, row, row, x, x', w);
  }

  lemma LeaveStepKeeps(g: Problem, row: set<nat>, x: Search, w: nat)
    requires Control(x) && SearchInv(g, row, x) && w < |x.workers| && x.workers[w].pc.Leave?
    ensures SearchInv(g, row, Step(g, row, x, w))
  {
    var x' := Step(g, row, x, w);
    forall k: nat ensures NextAt(g, row, x', w, k) { assert NextAt(g, row, x, w, k); }
    MoveKeeps(g, row, row, x, x', w);
  }

  lemma FinishStep(g: Problem, row: set<nat>, x: Search, w: nat)
    requires Control(x) && SearchInv(g, row, x) && w < |x.workers| && x.workers[w].pc.Finish?
    ensures SearchInv(g, row, Step(g, row, x, w))
  {
    var x' := Step(g, row, x, w);
    assert WorkerAt(x, w);
    forall k: nat ensures NextAt(g, row, x', w, k) { assert NextAt(g, row, x, w, k); }
    MoveKeeps(g, row, row, x, x', w);
  }

  lemma FollowStep(g: Problem, row: set<nat>, x: Search, w: nat)
    requires Control(x) && SearchInv(g, row, x) && w < |x.workers|
    requires x.workers[w].pc.Pass? && x.workers[w].dist != x.level
    ensures SearchInv(g, row, Step(g, row, x, w))
  {
    var x' := Step(g, row, x, w);
    assert WorkerAt(x, w);
    PassOpens(x, w);
    forall k: nat ensures NextAt(g, row, x', w, k) { assert NextAt(g, row, x, w, k); }
    MoveKeeps(g, row, row, x, x', w);
  }

  // ---------- visiting neighbours ----------

  lemma CurInGraph(g: Problem, row: set<nat>, x: Search, w: nat, k: nat)
    requires SearchInv(g, row, x) && w < |x.workers| && Expanding(x.workers[w].pc) && k < |x.workers[w].cur|
    ensures x.workers[w].cur[k] < |g.adj|
  {
    assert CurAt(g, x, w, k);
    WalkEnds(g.adj, Home(g), x.workers[w].cur[k], x.level);
  }

  lemma VisitDoneStep(g: Problem, row: set<nat>, x: Search, w: nat)
    requires Control(x) && SearchInv(g, row, x) && w < |x.workers| && x.workers[w].pc.Visit?
    requires x.workers[w].pc.c >= |x.workers[w].cur|
    ensures SearchInv(g, row, Step(g, row, x, w))
  {
    var x' := Step(g, row, x, w);
    assert PositionAt(g, x, w);
    forall k: nat ensures CurAt(g, x', w, k) { assert CurAt(g, x, w, k); }
    forall k: nat ensures NextAt(g, row, x', w, k) { assert NextAt(g, row, x, w, k); }
    MoveKeeps(g, row, row, x, x', w);
  }

  /** All neighbours of the current vertex have been looked at. */
  lemma VisitNextStep(g: Problem, row: set<nat>, x: Search, w: nat)
    requires Control(x) && SearchInv(g, row, x) && w < |x.workers| && x.workers[w].pc.Visit?
    requires var u := x.workers[w];
      u.pc.c < |u.cur| && u.cur[u.pc.c] < |g.adj| && u.pc.i >= |g.adj[u.cur[u.pc.c]]|
    ensures SearchInv(g, row, Step(g, row, x, w))
  {
    var x', u := Step(g, row, x, w), x.workers[w];
    var c, v := u.pc.c, u.cur[u.pc.c];
    forall k: nat ensures CurAt(g, x', w, k) { assert CurAt(g, x, w, k); }
    forall k: nat ensures NextAt(g, row, x', w, k) { assert NextAt(g, row, x, w, k); }
    forall j: nat | j < |g.adj[v]| ensures g.adj[v][j] in x.check { assert ScannedAt(g, x, w, |g.adj[v]| - 1 - j); }
    assert u.cur[c..] == [v] + u.cur[c + 1..];
    MoveKeeps(g, row, row, x, x', w);
  }

  lemma VisitKnownStep(g: Problem, row: set<nat>, x: Search, w: nat)
    requires Control(x) && SearchInv(g, row, x) && w < |x.workers| && x.workers[w].pc.Visit?
    requires HasTarget(g, x.workers[w]) && Target(g, x.workers[w]) in x.check
    ensures SearchInv(g, row, Step(g, row, x, w))
  {
    var x' := Step(g, row, x, w);
    forall k: nat ensures CurAt(g, x', w, k) { assert CurAt(g, x, w, k); }
    forall k: nat ensures NextAt(g, row, x', w, k) { assert NextAt(g, row, x, w, k); }
    forall j: nat ensures ScannedAt(g, x', w, j) { assert ScannedAt(g, x, w, j); }
    MoveKeeps(g, row, row, x, x', w);
  }

  /** A neighbour that nobody has marked is exactly one level further. */
  lemma NewIsNextLevel(g: Problem, row: set<nat>, x: Search, w: nat)
    requires SearchInv(g, row, x) && w < |x.workers| && x.workers[w].pc.Visit? && Symmetric(g.adj)
    requires HasTarget(g, x.workers[w]) && Target(g, x.workers[w]) !in x.check
    ensures Dist(g.adj, Home(g), Target(g, x.workers[w]), x.level + 1)
  {
    var u, v := x.workers[w], Target(g, x.workers[w]);
    assert CurAt(g, x, w, u.pc.c);
    WalkExtend(g.adj, Home(g), u.cur[u.pc.c], v, x.level);
    assert Expanding(x.workers[w].pc);
    forall k: nat | k <= x.level ensures !Walk(g.adj, Home(g), v, k) {
      assert CompleteAt(g, row, x, v, k);
    }
  }

  lemma VisitNewStep(g: Problem, row: set<nat>, x: Search, w: nat)
    requires Control(x) && SearchInv(g, row, x) && w < |x.workers| && x.workers[w].pc.Visit? && Symmetric(g.adj)
    requires HasTarget(g, x.workers[w]) && Target(g, x.workers[w]) !in x.check
    ensures SearchInv(g, row, Step(g, row, x, w))
  {
    var x' := Step(g, row, x, w);
    NewIsNextLevel(g, row, x, w);
    forall k: nat ensures CurAt(g, x', w, k) { assert CurAt(g, x, w, k); }
    forall k: nat ensures NextAt(g, row, x', w, k) { assert NextAt(g, row, x, w, k); }
    forall j: nat ensures ScannedAt(g, x', w, j) { assert ScannedAt(g, x, w, j); }
    MoveKeeps(g, row, row, x, x', w);
  }

  /** The level of the worker is the distance of the two houses. */
  lemma RecordIsGenuine(g: Problem, row: set<nat>, x: Search, w: nat)
    requires ValidProblem(g) && Control(x) && SearchInv(g, row, x) && w < |x.workers|
    requires x.workers[w].pc.Record? || x.workers[w].pc.SetBits?
    ensures HasTarget(g, x.workers[w]) && x.workers[w].dist == x.level
    ensures var b := HouseIndex(g.houses, Target(g, x.workers[w]));
      && b < |g.houses| && b != g.home
      && Dist(g.adj, Home(g), g.houses[b], x.level + 1)
    ensures PairDist(g.adj, g.houses, x.level + 1)
  {
    assert WorkerAt(x, w) && PositionAt(g, x, w) && TargetAt(g, x, w);
    assert Walk(g.adj, Home(g), Home(g), 0);
  }

  lemma RecordedGenuine(g: Problem, r: BFSResult, d: int)
    requires ValidProblem(g) && Genuine(g.adj, g.houses, r) && PairDist(g.adj, g.houses, d)
    ensures Genuine(g.adj, g.houses, Update(r, d)) && Covers(Update(r, d), d)
  {
    var a, b :| 0 <= a < |g.houses| && 0 <= b < |g.houses| && a != b && d >= 0
      && Dist(g.adj, g.houses[a], g.houses[b], d);
    DistBounded(g.adj, g.houses[a], g.houses[b], d);
    assert d > 0;
  }

  lemma RecordStep(g: Problem, row: set<nat>, x: Search, w: nat)
    requires ValidProblem(g) && Control(x) && SearchInv(g, row, x) && w < |x.workers| && x.workers[w].pc.Record?
    ensures SearchInv(g, row, Step(g, row, x, w))
  {
    hide Dist, Over, PairDist;
    var x' := Step(g, row, x, w);
    RecordIsGenuine(g, row, x, w);
    RecordedGenuine(g, x.result, x.level + 1);
    assert TargetAt(g, x, w);
    forall k: nat ensures CurAt(g, x', w, k) { assert CurAt(g, x, w, k); }
    forall k: nat ensures NextAt(g, row, x', w, k) { assert NextAt(g, row, x, w, k); }
    forall j: nat ensures ScannedAt(g, x', w, j) { assert ScannedAt(g, x, w, j); }
    MoveKeeps(g, row, row, x, x', w);
  }

  lemma SetBitsStep(g: Problem, row: set<nat>, x: Search, w: nat)
    requires ValidProblem(g) && Control(x) && SearchInv(g, row, x) && w < |x.workers| && x.workers[w].pc.SetBits?
    ensures SearchInv(g, row + BitOf(g, x, w), Step(g, row, x, w))
  {
    hide Dist, Over, PairDist;
    var x', row' := Step(g, row, x, w), row + BitOf(g, x, w);
    RecordIsGenuine(g, row, x, w);
    assert TargetAt(g, x, w);
    forall k: nat ensures CurAt(g, x', w, k) { assert CurAt(g, x, w, k); }
    forall k: nat ensures NextAt(g, row', x', w, k) { assert NextAt(g, row, x, w, k); }
    forall j: nat ensures ScannedAt(g, x', w, j) { assert ScannedAt(g, x, w, j); }
    MoveKeeps(g, row, row', x, x', w);
  }

  // ---------- marking a vertex ----------

  /** Worker w marks v, pushes it and goes on. */
  ghost predicate MarksNew(g: Problem, row: set<nat>, x: Search, x': Search, w: nat, v: nat) {
    && ValidProblem(g) && SearchInv(g, row, x) && w < |x.workers| && x.workers[w].pc.Mark?
    && HasTarget(g, x.workers[w]) && v == Target(g, x.workers[w])
    && var u := x.workers[w];
    && x' == x.(check := x.check + {v}, workers := x.workers[w := u.(next := u.next + [v],
         pc := if v in g.houses then Record(u.pc.c, u.pc.i) else Visit(u.pc.c, u.pc.i + 1))])
  }

  lemma MarkKeepsPending(g: Problem, row: set<nat>, x: Search, x': Search, w: nat, v: nat, z: nat)
    requires MarksNew(g, row, x, x', w, v) && (Pending(x, z) || z == v)
    ensures Pending(x', z)
  {
    var u, u' := x.workers[w], x'.workers[w];
    if Pending(x, z) {
      PendingKept(x, x', w, z);
    } else {
      assert u'.next[|u.next|] == v;
      assert HoldsPending(u', v);
    }
  }

  lemma MarkKeepsHouses(g: Problem, row: set<nat>, x: Search, x': Search, w: nat, v: nat, b: nat)
    requires MarksNew(g, row, x, x', w, v)
    ensures HouseAt(g, row, x', b)
  {
    assert HouseAt(g, row, x, b);
    if b < |g.houses| && b != g.home && g.houses[b] in x'.check && b !in row {
      if g.houses[b] in x.check {
        var j :| 0 <= j < |x.workers| && Handles(g, x.workers[j], g.houses[b]);
        assert Handles(g, x'.workers[j], g.houses[b]);
      } else {
        assert Handles(g, x'.workers[w], g.houses[b]);
      }
    }
  }

  lemma MarkKeepsMover(g: Problem, row: set<nat>, x: Search, x': Search, w: nat, v: nat)
    requires MarksNew(g, row, x, x', w, v)
    ensures MoverOk(g, row, x', w)
  {
    assert TargetAt(g, x, w) && PositionAt(g, x, w);
    forall k: nat ensures CurAt(g, x', w, k) { assert CurAt(g, x, w, k); }
    forall k: nat ensures NextAt(g, row, x', w, k) { assert NextAt(g, row, x, w, k); }
    forall j: nat ensures ScannedAt(g, x', w, j) { assert ScannedAt(g, x, w, j); }
  }

  lemma MarkKeeps(g: Problem, row: set<nat>, x: Search, x': Search, w: nat, v: nat)
    requires MarksNew(g, row, x, x', w, v)
    ensures SearchInv(g, row, x')
  {
    MarkKeepsMover(g, row, x, x', w, v);
    assert TargetAt(g, x, w);
    forall j: nat, k: nat ensures CurAt(g, x', j, k) { assert CurAt(g, x, j, k); }
    forall j: nat ensures PositionAt(g, x', j) { assert PositionAt(g, x, j); }
    forall j: nat, k: nat ensures NextAt(g, row, x', j, k) { assert NextAt(g, row, x, j, k); }
    forall j: nat ensures StartAt(g, x', j) { assert StartAt(g, x, j); }
    forall z: nat ensures SoundAt(g, x', z) { assert SoundAt(g, x, z); }
    forall z: nat, k: nat ensures CompleteAt(g, row, x', z, k) { assert CompleteAt(g, row, x, z, k); }
    forall z: nat, j: nat ensures ExpandedAt(g, row, x', z, j) {
      assert ExpandedAt(g, row, x, z, j);
      if Pending(x, z) || z == v {
        MarkKeepsPending(g, row, x, x', w, v, z);
      }
    }
    forall j: nat, k: nat ensures ScannedAt(g, x', j, k) { assert ScannedAt(g, x, j, k); }
    forall j: nat ensures TargetAt(g, x', j) { assert TargetAt(g, x, j); }
    forall b: nat ensures HouseAt(g, row, x', b) { MarkKeepsHouses(g, row, x, x', w, v, b); }
  }

  // ---------- splitting ----------

  lemma SplitterPending(u: Worker, v: nat)
    requires u.pc.SplitMake? && u.cur != [] && HoldsPending(u, v)
    ensures v == u.cur[|u.cur| - 1] || HoldsPending(u.(pc := SplitTest, cur := u.cur[..|u.cur| - 1]), v)
  {
    var n := |u.cur| - 1;
    assert u.cur[0..] == u.cur[..n] + [u.cur[n]] && u.cur[..n][0..] == u.cur[..n];
  }

  lemma ChildKeepsPending(x: Search, x': Search, w: nat, i: nat, v: nat)
    requires MakesChild(x, x', w, i) && Pending(x, v) && Resting(x.workers[i].pc)
    ensures Pending(x', v)
  {
    var u := x.workers[w];
    var j :| 0 <= j < |x.workers| && HoldsPending(x.workers[j], v);
    if j == w {
      SplitterPending(u, v);
    }
    assert HoldsPending(x'.workers[if j == w && v == u.cur[|u.cur| - 1] then i else j], v);
  }

  lemma ChildKeepsQueues(g: Problem, row: set<nat>, x: Search, x': Search, w: nat, i: nat)
    requires Control(x) && SearchInv(g, row, x) && MakesChild(x, x', w, i)
    ensures Resting(x.workers[i].pc)
    ensures forall j: nat, k: nat :: CurAt(g, x', j, k)
    ensures forall j: nat :: PositionAt(g, x', j)
    ensures forall j: nat, k: nat :: NextAt(g, row, x', j, k)
  {
    hide Dist, Over;
    assert WorkerAt(x, w) && WorkerAt(x, i);
    SplitterHoldsBarrier(x, w);
    forall j: nat, k: nat ensures CurAt(g, x', j, k) { assert CurAt(g, x, j, k); }
    forall j: nat ensures PositionAt(g, x', j) { assert PositionAt(g, x, j); }
    forall j: nat, k: nat ensures NextAt(g, row, x', j, k) { ChildKeepsNext(g, row, x, x', w, i, j, k); }
  }

  lemma ChildKeepsNext(g: Problem, row: set<nat>, x: Search, x': Search, w: nat, i: nat, j: nat, k: nat)
    requires Control(x) && SearchInv(g, row, x) && MakesChild(x, x', w, i)
    ensures NextAt(g, row, x', j, k)
  {
    hide Dist, Over;
    assert WorkerAt(x, w) && WorkerAt(x, i) && NextAt(g, row, x, j, k);
    SplitterHoldsBarrier(x, w);
    hide Control, FirstFree;
    assert SomeExpanding(x) by { assert Expanding(x.workers[w].pc); }
  }

  lemma ChildKeepsWorkers(g: Problem, row: set<nat>, x: Search, x': Search, w: nat, i: nat)
    requires Control(x) && SearchInv(g, row, x) && MakesChild(x, x', w, i)
    ensures forall j: nat :: StartAt(g, x', j)
    ensures forall j: nat, k: nat :: ScannedAt(g, x', j, k)
    ensures forall j: nat :: TargetAt(g, x', j)
  {
    var n := |x.workers[w].cur| - 1;
    assert WorkerAt(x, w) && WorkerAt(x, i) && CurAt(g, x, w, n);
    SplitterHoldsBarrier(x, w);
    forall j: nat ensures StartAt(g, x', j) { assert StartAt(g, x, j); }
    forall j: nat, k: nat ensures ScannedAt(g, x', j, k) { assert ScannedAt(g, x, j, k); }
    forall j: nat ensures TargetAt(g, x', j) { assert TargetAt(g, x, j); }
  }

  lemma ChildKeeps(g: Problem, row: set<nat>, x: Search, x': Search, w: nat, i: nat)
    requires Control(x) && SearchInv(g, row, x) && MakesChild(x, x', w, i)
    ensures SearchInv(g, row, x')
  {
    ChildKeepsQueues(g, row, x, x', w, i);
    ChildKeepsWorkers(g, row, x, x', w, i);
    forall v: nat ensures SoundAt(g, x', v) { assert SoundAt(g, x, v); }
    assert Expanding(x.workers[w].pc);
    forall v: nat, k: nat ensures CompleteAt(g, row, x', v, k) { assert CompleteAt(g, row, x, v, k); }
    forall v: nat, j: nat ensures ExpandedAt(g, row, x', v, j) {
      assert ExpandedAt(g, row, x, v, j);
      if Pending(x, v) {
        ChildKeepsPending(x, x', w, i, v);
      }
    }
    forall b: nat ensures HouseAt(g, row, x', b) {
      assert HouseAt(g, row, x, b);
      if b < |g.houses| && b != g.home && g.houses[b] in x.check && b !in row {
        var j :| 0 <= j < |x.workers| && Handles(g, x.workers[j], g.houses[b]);
        assert x'.workers[j] == x.workers[j];
      }
    }
  }

  // ---------- the barrier opens ----------

  /** What is pending when the barrier opens belongs to the next level. */
  lemma PendingIsNextLevel(g: Problem, row: set<nat>, x: Search, w: nat, v: nat)
    requires Control(x) && SearchInv(g, row, x) && !Over(g, row) && Pending(x, v)
    requires w < |x.workers| && x.workers[w].pc.Pass? && x.workers[w].dist == x.level
    ensures Dist(g.adj, Home(g), v, x.level + 1)
  {
    AllAtBarrier(x, w);
    var j :| 0 <= j < |x.workers| && HoldsPending(x.workers[j], v);
    assert WorkerAt(x, j);
    var k :| 0 <= k < |x.workers[j].next| && x.workers[j].next[k] == v;
    assert NextAt(g, row, x, j, k);
  }

  lemma NextLevelComplete(g: Problem, row: set<nat>, x: Search, w: nat, v: nat, k: nat)
    requires Control(x) && SearchInv(g, row, x) && !Over(g, row)
    requires w < |x.workers| && x.workers[w].pc.Pass? && x.workers[w].dist == x.level
    requires k <= x.level + 1 && Walk(g.adj, Home(g), v, k)
    ensures v in x.check
  {
    if k <= x.level {
      assert CompleteAt(g, row, x, v, k);
    } else {
      var z: nat :| Walk(g.adj, Home(g), z, k - 1) && Edge(g.adj, z, v);
      assert CompleteAt(g, row, x, z, k - 1);
      if Pending(x, z) {
        PendingIsNextLevel(g, row, x, w, z);
        assert false;
      }
      var j :| 0 <= j < |g.adj[z]| && g.adj[z][j] == v;
      assert ExpandedAt(g, row, x, z, j);
    }
  }

  lemma NobodyExpands(x: Search, x': Search, w: nat)
    requires Control(x) && Opens(x, x', w)
    ensures !SomeExpanding(x')
  {
    AllAtBarrier(x, w);
    forall j: nat | j < |x'.workers| ensures !Expanding(x'.workers[j].pc) { assert WorkerAt(x, j); }
  }

  lemma OpenKeepsWorkers(g: Problem, row: set<nat>, x: Search, x': Search, w: nat)
    requires Control(x) && SearchInv(g, row, x) && Opens(x, x', w)
    ensures forall j: nat, k: nat :: CurAt(g, x', j, k)
    ensures forall j: nat :: PositionAt(g, x', j)
    ensures forall j: nat, k: nat :: NextAt(g, row, x', j, k)
    ensures forall j: nat :: StartAt(g, x', j)
    ensures forall j: nat, k: nat :: ScannedAt(g, x', j, k)
    ensures forall j: nat :: TargetAt(g, x', j)
  {
    NobodyExpands(x, x', w);
    AllAtBarrier(x, w);
    assert forall j :: 0 <= j < |x'.workers| ==> !Expanding(x'.workers[j].pc);
    forall j: nat, k: nat ensures NextAt(g, row, x', j, k) { assert NextAt(g, row, x, j, k) && WorkerAt(x, j); }
    forall j: nat ensures StartAt(g, x', j) { assert StartAt(g, x, j); }
  }

  lemma OpenKeepsSearch(g: Problem, row: set<nat>, x: Search, x': Search, w: nat)
    requires Control(x) && SearchInv(g, row, x) && Opens(x, x', w)
    ensures SearchInv(g, row, x')
  {
    OpenKeepsWorkers(g, row, x, x', w);
    NobodyExpands(x, x', w);
    forall v: nat ensures SoundAt(g, x', v) { assert SoundAt(g, x, v); }
    forall v: nat, k: nat ensures CompleteAt(g, row, x', v, k) {
      if !Over(g, row) && k <= x.level + 1 && Walk(g.adj, Home(g), v, k) {
        NextLevelComplete(g, row, x, w, v, k);
      }
    }
    forall v: nat, j: nat ensures ExpandedAt(g, row, x', v, j) {
      assert ExpandedAt(g, row, x, v, j);
      if Pending(x, v) {
        PendingKept(x, x', w, v);
      }
    }
    forall j: nat | j < |x.workers| ensures !Expanding(x.workers[j].pc) {
      assert x.workers[j] == x'.workers[j] || j == w;
    }
    forall b: nat ensures HouseAt(g, row, x', b) { assert HouseAt(g, row, x, b); }
  }

  // ---------- every step ----------

  lemma VisitStep(g: Problem, row: set<nat>, x: Search, w: nat)
    requires ValidProblem(g) && Control(x) && SearchInv(g, row, x) && w < |x.workers| && x.workers[w].pc.Visit?
    ensures SearchInv(g, row, Step(g, row, x, w))
  {
    var u := x.workers[w];
    if u.pc.c >= |u.cur| {
      VisitDoneStep(g, row, x, w);
    } else {
      CurInGraph(g, row, x, w, u.pc.c);
      if u.pc.i >= |g.adj[u.cur[u.pc.c]]| {
        VisitNextStep(g, row, x, w);
      } else if Target(g, u) in x.check {
        VisitKnownStep(g, row, x, w);
      } else {
        VisitNewStep(g, row, x, w);
      }
    }
  }

  lemma MakeStepKeeps(g: Problem, row: set<nat>, x: Search, w: nat)
    requires Control(x) && SearchInv(g, row, x) && w < |x.workers| && x.workers[w].pc.SplitMake?
    ensures SearchInv(g, row, MakeStep(x, w))
  {
    var x', i := MakeStep(x, w), FirstFree(x.workers);
    if x.numFree <= 0 || x.workers[w].cur == [] || i == |x.workers| {
      forall k: nat ensures CurAt(g, x', w, k) { assert CurAt(g, x, w, k); }
      forall k: nat ensures NextAt(g, row, x', w, k) { assert NextAt(g, row, x, w, k); }
      MoveKeeps(g, row, row, x, x', w);
    } else {
      MakeMakesChild(x, w);
      ChildKeeps(g, row, x, x', w, i);
    }
  }

  lemma PassStepKeeps(g: Problem, row: set<nat>, x: Search, w: nat)
    requires Control(x) && SearchInv(g, row, x) && w < |x.workers| && x.workers[w].pc.Pass?
    ensures SearchInv(g, row, Step(g, row, x, w))
  {
    if x.workers[w].dist == x.level {
      PassOpens(x, w);
      OpenKeepsSearch(g, row, x, PassStep(x, w), w);
    } else {
      FollowStep(g, row, x, w);
    }
  }

  lemma StepSearch(g: Problem, row: set<nat>, x: Search, w: nat)
    requires ValidProblem(g) && Control(x) && SearchInv(g, row, x) && w < |x.workers|
    ensures SearchInv(g, row + BitOf(g, x, w), Step(g, row, x, w))
  {
    var u := x.workers[w];
    if !u.pc.SetBits? {
      assert row + BitOf(g, x, w) == row;
    }
    match u.pc
    case Idle => if u.busy { BeginStep(g, row, x, w); } else { RestSteps(g, row, x, w); }
    case Check => CheckStep(g, row, x, w);
    case SplitTest => SplitTestStep(g, row, x, w);
    case SplitMake => MakeStepKeeps(g, row, x, w);
    case Visit(_, _) => VisitStep(g, row, x, w);
    case Mark(_, _) =>
      assert PositionAt(g, x, w);
      MarkKeeps(g, row, x, Step(g, row, x, w), w, Target(g, u));
    case Record(_, _) => RecordStep(g, row, x, w);
    case SetBits(_, _) => SetBitsStep(g, row, x, w);
    case Finish => FinishStep(g, row, x, w);
    case Pass => PassStepKeeps(g, row, x, w);
    case Leave => LeaveStepKeeps(g, row, x, w);
    case _ => RestSteps(g, row, x, w);
  }
}
