/**
 What the meeting searches promise, for every connected graph, every set of distinct houses and
 every interleaving.
 */
module MeetingTheorems {
  import opened Graph
  import opened MeetingSearch
  import opened MeetingProof

  // ---------- the two recorded depths ----------

  /** On a vertex within reach of both, one of the two searches was there second and saw the other. */
  lemma CommonVertexMeets(g: Problem, s: State, a: nat, b: nat, v: nat, i: nat, j: nat)
    requires ValidProblem(g) && Inv(g, s) && a < |s.searches| && b < |s.searches| && a != b
    requires Dist(g.adj, g.houses[a], v, i) && i <= s.searches[a].depth
    requires Dist(g.adj, g.houses[b], v, j) && j <= s.searches[b].depth
    ensures (b in s.searches[a].info && s.searches[a].info[b].depth <= i)
         || (a in s.searches[b].info && s.searches[b].info[a].depth <= j)
  {
    assert CompleteAt(g, s, a, v, i) && CompleteAt(g, s, b, v, j) && OrderAt(g, s, a, b, v);
  }

  lemma DepthsAreTight(g: Problem, s: State, a: nat, b: nat, d: nat)
    requires ValidProblem(g) && Inv(g, s) && a < |s.searches| && b < |s.searches| && a != b
    requires b in s.searches[a].info && a in s.searches[b].info
    requires Dist(g.adj, g.houses[a], g.houses[b], d)
    ensures s.searches[a].info[b].depth + s.searches[b].info[a].depth <= d + 1
  {
    var d1, d2 := s.searches[a].info[b].depth, s.searches[b].info[a].depth;
    assert InfoAt(g, s, a, b) && InfoAt(g, s, b, a);
    if d1 + d2 > d + 1 {
      var k := if d1 - 1 < d then d1 - 1 else d;
      var v := DistSplit(g.adj, g.houses[a], g.houses[b], k, d - k);
      DistSymmetric(g.adj, v, g.houses[b], d - k);
      CommonVertexMeets(g, s, a, b, v, k, d - k);
      assert false;
    }
  }

  /** If a first meets b at depth D1 and b first meets a at depth D2, their distance d satisfies
      D1 + D2 - 1 <= d <= D1 + D2. */
  lemma MeetingBound(g: Problem, run: seq<State>, k: nat, a: nat, b: nat, d: nat)
    requires ValidProblem(g) && IsRun(g, run) && k < |run|
    requires a < |run[k].searches| && b < |run[k].searches| && a != b
    requires b in run[k].searches[a].info && a in run[k].searches[b].info
    requires a < |g.houses| && b < |g.houses| && Dist(g.adj, g.houses[a], g.houses[b], d)
    ensures var sum := run[k].searches[a].info[b].depth + run[k].searches[b].info[a].depth;
      sum - 1 <= d <= sum
  {
    var s := run[k];
    RunInv(g, run, k);
    DepthsAreTight(g, s, a, b, d);
    assert CloseAt(g, s, a, b);
    var n: nat :| n <= s.searches[a].info[b].depth + s.searches[b].info[a].depth
                  && Walk(g.adj, g.houses[a], g.houses[b], n);
    var e := DistAtMost(g.adj, g.houses[a], g.houses[b], n);
    DistUnique(g.adj, g.houses[a], g.houses[b], d, e);
  }

  /** Every recorded meeting is real: both searches have marked the vertex, at its true distance. */
  lemma MeetingsAreReal(g: Problem, run: seq<State>, k: nat, a: nat, b: nat)
    requires ValidProblem(g) && IsRun(g, run) && k < |run|
    requires a < |run[k].searches| && a < |g.houses| && b in run[k].searches[a].info
    ensures var i := run[k].searches[a].info[b];
      && b != a && i.vid < |run[k].flags| && {a, b} <= run[k].flags[i.vid]
      && Dist(g.adj, g.houses[a], i.vid, i.depth) && i.depth >= 1
  {
    RunInv(g, run, k);
    assert InfoAt(g, run[k], a, b);
  }

  // ---------- every search meets all others and stops ----------

  /** A search stops only when it has met every other one. */
  lemma StoppedHasMetAll(g: Problem, run: seq<State>, k: nat, a: nat, b: nat)
    requires ValidProblem(g) && IsRun(g, run) && k < |run|
    requires a < |run[k].searches| && run[k].searches[a].pc.Stopped? && b < |g.houses| && b != a
    ensures b in run[k].searches[a].info
  {
    RunInv(g, run, k);
    assert StopAt(g, run[k], a) && InfoAt(g, run[k], a, b);
  }

  /** When the program is over, every pair of houses has been pinned down to within one. */
  lemma AllPairsPinned(g: Problem, run: seq<State>, k: nat, a: nat, b: nat, d: nat)
    requires ValidProblem(g) && IsRun(g, run) && k < |run|
    requires forall c :: 0 <= c < |run[k].searches| ==> run[k].searches[c].pc.Stopped?
    requires a < |g.houses| && b < |g.houses| && a != b && Dist(g.adj, g.houses[a], g.houses[b], d)
    ensures a < |run[k].searches| && b < |run[k].searches| && b in run[k].searches[a].info
      && a in run[k].searches[b].info
    ensures var sum := run[k].searches[a].info[b].depth + run[k].searches[b].info[a].depth;
      sum - 1 <= d <= sum
  {
    RunInv(g, run, k);
    StoppedHasMetAll(g, run, k, a, b);
    StoppedHasMetAll(g, run, k, b, a);
    MeetingBound(g, run, k, a, b, d);
  }

  /** When nothing waits in the queue, everything reachable is marked. */
  lemma {:induction false} ExhaustedMarksAll(g: Problem, s: State, a: nat, v: nat, k: nat)
    requires ValidProblem(g) && Inv(g, s) && a < |s.searches| && !s.searches[a].pc.Stopped?
    requires forall x: nat :: !Waiting(s.searches[a], x)
    requires Walk(g.adj, g.houses[a], v, k)
    ensures Marked(s, a, v)
    decreases k
  {
    if k == 0 {
      assert HomeAt(g, s, a);
    } else {
      var w: nat :| Walk(g.adj, g.houses[a], w, k - 1) && Edge(g.adj, w, v);
      ExhaustedMarksAll(g, s, a, w, k - 1);
      var i :| 0 <= i < |g.adj[w]| && g.adj[w][i] == v;
      assert ExpandedAt(g, s, a, w, i);
    }
  }

  /** A search that runs out of vertices has met every other one, so its next fence stops it. */
  lemma ExhaustedHasMetAll(g: Problem, s: State, a: nat)
    requires ValidProblem(g) && Inv(g, s) && a < |s.searches| && !s.searches[a].pc.Stopped?
    requires forall x: nat :: !Waiting(s.searches[a], x)
    ensures s.searches[a].visited == FullFlag(g)
  {
    forall b: nat ensures b in s.searches[a].visited <==> b in FullFlag(g) {
      assert InfoAt(g, s, a, b);
      if b < |g.houses| && b != a {
        var hb := g.houses[b];
        assert Connected(g.adj, g.houses[a], hb);
        var k: nat :| Walk(g.adj, g.houses[a], hb, k);
        ExhaustedMarksAll(g, s, a, hb, k);
        assert HomeAt(g, s, b) && OrderAt(g, s, a, b, hb) && InfoAt(g, s, b, a);
        assert Dist(g.adj, hb, hb, 0);
      }
    }
  }

  // ---------- the work of a search is bounded ----------

  /** How many vertices search a has still to mark. */
  ghost function Unmarked(flags: seq<set<nat>>, a: nat): nat {
    if flags == [] then 0
    else Unmarked(flags[..|flags| - 1], a) + if a in flags[|flags| - 1] then 0 else 1
  }

  /** How many vertices wait in its queue. */
  ghost function Waits(queue: seq<Item>): nat {
    if queue == [] then 0 else Waits(queue[1..]) + if queue[0].Vertex? then 1 else 0
  }

  /** Where it stands between two dequeues. */
  ghost function Stage(g: Problem, w: Search): nat {
    match w.pc
    case Stopped => 0
    case Dequeue => if w.front < |w.queue| && w.queue[w.front].Vertex? then 1 else 2
    case Scan(u, i) => if u < |g.adj| && i <= |g.adj[u]| then 3 + |g.adj[u]| - i else 3
  }

  ghost function Queued(w: Search): nat {
    if w.front <= |w.queue| then Waits(w.queue[w.front..]) else 0
  }

  /** The remaining work of search a, compared lexicographically. */
  ghost predicate LessWork(g: Problem, s': State, s: State, a: nat)
    requires a < |s.searches| && a < |s'.searches|
  {
    var x', y', z' := Unmarked(s'.flags, a), Queued(s'.searches[a]), Stage(g, s'.searches[a]);
    var x, y, z := Unmarked(s.flags, a), Queued(s.searches[a]), Stage(g, s.searches[a]);
    x' < x || (x' == x && (y' < y || (y' == y && z' < z)))
  }

  lemma {:induction false} UnmarkedBy(flags: seq<set<nat>>, a: nat, v: nat, b: nat)
    requires v < |flags|
    ensures var flags' := flags[v := flags[v] + {b}];
      Unmarked(flags', a) == Unmarked(flags, a) - if a == b && a !in flags[v] then 1 else 0
  {
    var n, flags' := |flags| - 1, flags[v := flags[v] + {b}];
    if v == n {
      assert flags'[..n] == flags[..n];
    } else {
      UnmarkedBy(flags[..n], a, v, b);
      assert flags'[..n] == flags[..n][v := flags[v] + {b}];
    }
  }

  lemma {:induction false} WaitsSnoc(queue: seq<Item>, x: Item)
    ensures Waits(queue + [x]) == Waits(queue) + if x.Vertex? then 1 else 0
  {
    if queue == [] {
      assert queue + [x] == [x];
    } else {
      WaitsSnoc(queue[1..], x);
      assert (queue + [x])[1..] == queue[1..] + [x];
    }
  }

  lemma {:induction false} NoneWaits(queue: seq<Item>)
    requires Waits(queue) == 0
    ensures forall k :: 0 <= k < |queue| ==> !queue[k].Vertex?
  {
    if queue != [] {
      NoneWaits(queue[1..]);
    }
  }

  lemma FenceLessens(g: Problem, s: State, a: nat)
    requires ValidProblem(g) && Inv(g, s) && a < |s.searches| && s.searches[a].pc.Dequeue?
    requires s.searches[a].front < |s.searches[a].queue| && s.searches[a].queue[s.searches[a].front].Fence?
    ensures LessWork(g, Step(g, s, a), s, a)
  {
    var w, w' := s.searches[a], Step(g, s, a).searches[a];
    assert QueueAt(g, s, a, w.front) && QueueAt(g, s, a, w.front + 1);
    assert w'.queue[w'.front..] == w.queue[w.front..][1..] + [Fence(w.depth + 1)];
    WaitsSnoc(w.queue[w.front..][1..], Fence(w.depth + 1));
    if w.front + 1 == |w.queue| {
      ExhaustedHasMetAll(g, s, a);
    }
  }

  lemma VertexLessens(g: Problem, s: State, a: nat)
    requires ValidProblem(g) && Inv(g, s) && a < |s.searches| && s.searches[a].pc.Dequeue?
    requires s.searches[a].front < |s.searches[a].queue| && s.searches[a].queue[s.searches[a].front].Vertex?
    ensures LessWork(g, Step(g, s, a), s, a)
  {
    var w, w' := s.searches[a], Step(g, s, a).searches[a];
    assert QueueAt(g, s, a, w.front);
    assert w'.queue[w'.front..] == w.queue[w.front..][1..];
  }

  lemma ScanLessens(g: Problem, s: State, a: nat)
    requires ValidProblem(g) && Inv(g, s) && a < |s.searches| && s.searches[a].pc.Scan?
    ensures LessWork(g, Step(g, s, a), s, a)
  {
    var w := s.searches[a];
    var u, i := w.pc.u, w.pc.i;
    if i < |g.adj[u]| {
      UnmarkedBy(s.flags, a, g.adj[u][i], a);
    }
  }

  /** Every step of a search that has not stopped leaves it strictly less work: it makes finitely many steps,
      and by StoppedHasMetAll it has met all others when they are over. */
  lemma StepsLessen(g: Problem, run: seq<State>, k: nat, a: nat)
    requires ValidProblem(g) && IsRun(g, run) && k < |run| && a < |run[k].searches|
    requires !run[k].searches[a].pc.Stopped? && Shape(g, run[k])
    ensures LessWork(g, Step(g, run[k], a), run[k], a)
  {
    var s := run[k];
    RunInv(g, run, k);
    if s.searches[a].pc.Scan? {
      ScanLessens(g, s, a);
    } else {
      assert QueueAt(g, s, a, s.searches[a].front);
      if s.searches[a].queue[s.searches[a].front].Vertex? {
        VertexLessens(g, s, a);
      } else {
        FenceLessens(g, s, a);
      }
    }
  }

  /** The steps of the other searches do not add to it. */
  lemma OthersAddNoWork(g: Problem, s: State, a: nat, b: nat)
    requires Shape(g, s) && a < |s.searches| && b < |s.searches| && a != b
    ensures var s' := Step(g, s, b);
      && |s'.searches| == |s.searches| && s'.searches[a] == s.searches[a]
      && Unmarked(s'.flags, a) == Unmarked(s.flags, a)
  {
    var w := s.searches[b];
    if w.pc.Scan? && w.pc.i < |g.adj[w.pc.u]| {
      UnmarkedBy(s.flags, a, g.adj[w.pc.u][w.pc.i], b);
    }
  }
}
