/**
 The single-threaded search of Project1 and the loop over the houses, as the program runs with one
 house worker of one thread.  `rows` is the shared table of met houses, updated in place.
 */
module SingleSearch {
  import opened Graph
  import opened LevelSearch
  import opened LevelProof
  import HouseSearch
  import opened HouseTheorems

  // ---------- what the loops keep ----------

  /** Every marked vertex is at most `level` away. */
  ghost predicate MarkedAt(g: Problem, check: set<nat>, level: nat, v: nat)
    requires ValidProblem(g)
  {
    v in check ==> v < |g.adj| && exists e: nat :: e <= level && Dist(g.adj, Home(g), v, e)
  }

  /** Every vertex at most `level` away is marked. */
  ghost predicate CompleteUpTo(g: Problem, check: set<nat>, level: nat, v: nat, e: nat)
    requires ValidProblem(g)
  {
    e <= level && Dist(g.adj, Home(g), v, e) ==> v in check
  }

  /** `next` holds exactly the marked vertices at distance `level`. */
  ghost predicate FrontierAt(g: Problem, check: set<nat>, next: seq<nat>, level: nat, v: nat)
    requires ValidProblem(g)
  {
    v in next <==> v in check && Dist(g.adj, Home(g), v, level)
  }

  /** A marked house has a bit in the row of the start house. */
  ghost predicate MetAt(g: Problem, check: set<nat>, row: set<nat>, b: nat) {
    b < |g.houses| && b != g.home && g.houses[b] in check ==> b in row
  }

  /** Bits are only added, and each one added stands for a distance in the result. */
  ghost predicate BitsAt(g: Problem, before: seq<set<nat>>, rows: seq<set<nat>>, r: BFSResult, a: nat, b: nat)
    requires |before| == |rows| == |g.houses|
  {
    a < |rows| ==>
      && (b in before[a] ==> b in rows[a])
      && (b in rows[a] ==> b in before[a] || BitStandsFor(g.adj, g.houses, r, a, b))
  }

  ghost predicate BitStandsFor(adj: Adjacency, houses: seq<nat>, r: BFSResult, a: nat, b: nat) {
    a < |houses| && b < |houses| && a != b && exists d: nat :: Dist(adj, houses[a], houses[b], d) && Covers(r, d)
  }

  ghost predicate Sweep(g: Problem, before: seq<set<nat>>, rows: seq<set<nat>>, check: set<nat>, next: seq<nat>,
                        r: BFSResult, level: nat, reach: nat)
    requires ValidProblem(g)
  {
    && |before| == |rows| == |g.houses|
    && (forall v: nat :: MarkedAt(g, check, reach, v))
    && (forall v: nat, e: nat :: CompleteUpTo(g, check, level, v, e))
    && (forall v: nat :: FrontierAt(g, check, next, reach, v))
    && (forall b: nat :: MetAt(g, check, rows[g.home], b))
    && (forall a: nat, b: nat :: BitsAt(g, before, rows, r, a, b))
    && Genuine(g.adj, g.houses, r)
  }

  /** All neighbours of v from the i-th last on are marked. */
  ghost predicate ScannedFrom(g: Problem, check: set<nat>, v: nat, i: nat) {
    v < |g.adj| && forall j :: i <= j < |g.adj[v]| ==> g.adj[v][j] in check
  }

  // ---------- one vertex ----------

  lemma NewVertexDist(g: Problem, check: set<nat>, level: nat, u: nat, v: nat)
    requires ValidProblem(g) && Dist(g.adj, Home(g), u, level) && Edge(g.adj, u, v) && v !in check
    requires forall z: nat, e: nat :: CompleteUpTo(g, check, level, z, e)
    ensures Dist(g.adj, Home(g), v, level + 1)
  {
    WalkExtend(g.adj, Home(g), u, v, level);
    var d := DistAtMost(g.adj, Home(g), v, level + 1);
    assert CompleteUpTo(g, check, level, v, d);
  }

  /** Marking a new vertex keeps everything but the bit of the house that may stand on it. */
  lemma MarkKeepsSweep(g: Problem, before: seq<set<nat>>, rows: seq<set<nat>>, check: set<nat>, next: seq<nat>,
                       r: BFSResult, level: nat, v: nat)
    requires ValidProblem(g) && Sweep(g, before, rows, check, next, r, level, level + 1)
    requires v < |g.adj| && v !in check && Dist(g.adj, Home(g), v, level + 1) && v !in g.houses
    ensures Sweep(g, before, rows, check + {v}, next + [v], r, level, level + 1)
  {
    var d := level + 1;
    forall z: nat ensures MarkedAt(g, check + {v}, d, z) { assert MarkedAt(g, check, d, z); }
    forall z: nat, e: nat ensures CompleteUpTo(g, check + {v}, level, z, e) {
      assert CompleteUpTo(g, check, level, z, e);
    }
    forall z: nat ensures FrontierAt(g, check + {v}, next + [v], d, z) { assert FrontierAt(g, check, next, d, z); }
    forall b: nat ensures MetAt(g, check + {v}, rows[g.home], b) { assert MetAt(g, check, rows[g.home], b); }
  }

  /** Recording a distance keeps what the bits stand for. */
  lemma RecordKeepsBits(g: Problem, before: seq<set<nat>>, rows: seq<set<nat>>, r: BFSResult, d: nat, a: nat, b: nat)
    requires |before| == |rows| == |g.houses| && BitsAt(g, before, rows, r, a, b)
    ensures BitsAt(g, before, rows, Update(r, d), a, b)
  {
    if a < |rows| && b in rows[a] && b !in before[a] {
      var e: nat :| Dist(g.adj, g.houses[a], g.houses[b], e) && Covers(r, e);
      assert Covers(Update(r, d), e);
    }
  }

  lemma MeetKeepsSweep(g: Problem, before: seq<set<nat>>, rows: seq<set<nat>>, rows': seq<set<nat>>, check: set<nat>,
                       next: seq<nat>, r: BFSResult, level: nat, c: nat)
    requires ValidProblem(g) && Sweep(g, before, rows, check, next, r, level, level + 1)
    requires c < |g.houses| && g.houses[c] !in check && Dist(g.adj, Home(g), g.houses[c], level + 1)
    requires c != g.home
    requires rows' == rows[g.home := rows[g.home] + {c}][c := rows[c] + {g.home}]
    ensures Sweep(g, before, rows', check + {g.houses[c]}, next + [g.houses[c]], Update(r, level + 1), level, level + 1)
  {
    var v, d := g.houses[c], level + 1;
    DistSymmetric(g.adj, Home(g), v, d);
    assert PairDist(g.adj, g.houses, d);
    RecordedGenuine(g, r, d);
    forall z: nat ensures MarkedAt(g, check + {v}, d, z) { assert MarkedAt(g, check, d, z); }
    forall z: nat, e: nat ensures CompleteUpTo(g, check + {v}, level, z, e) {
      assert CompleteUpTo(g, check, level, z, e);
    }
    forall z: nat ensures FrontierAt(g, check + {v}, next + [v], d, z) { assert FrontierAt(g, check, next, d, z); }
    forall b: nat ensures MetAt(g, check + {v}, rows'[g.home], b) { assert MetAt(g, check, rows[g.home], b); }
    forall a: nat, b: nat ensures BitsAt(g, before, rows', Update(r, d), a, b) {
      assert BitsAt(g, before, rows, r, a, b);
      RecordKeepsBits(g, before, rows, r, d, a, b);
    }
  }

  /** VISIT_VERTEX. */
  method VisitVertex(g: Problem, rows: array<set<nat>>, check: set<nat>, next: seq<nat>, r: BFSResult, dist: nat,
                     v: nat,
                     ghost before: seq<set<nat>>, ghost u: nat)
    returns (check': set<nat>, next': seq<nat>, r': BFSResult)
    requires ValidProblem(g) && Sweep(g, before, rows[..], check, next, r, dist, dist + 1)
    requires Dist(g.adj, Home(g), u, dist) && Edge(g.adj, u, v)
    modifies rows
    ensures Sweep(g, before, rows[..], check', next', r', dist, dist + 1)
    ensures check' == check + {v} && (v in check ==> next' == next)
  {
    check', next', r' := check, next, r;
    if v !in check {
      NewVertexDist(g, check, dist, u, v);
      ghost var was := rows[..];
      next' := next + [v];
      check' := check + {v};
      var c := HouseIndex(g.houses, v);
      if c < |g.houses| {
        assert c != g.home by { assert Walk(g.adj, Home(g), Home(g), 0); }
        r' := Update(r, dist + 1);
        rows[g.home] := rows[g.home] + {c};
        rows[c] := rows[c] + {g.home};
        MeetKeepsSweep(g, before, was, rows[..], check, next, r, dist, c);
      } else {
        MarkKeepsSweep(g, before, was, check, next, r, dist, v);
      }
    }
  }

  // ---------- one level ----------

  /** At the end of a level everything at the next distance is marked. */
  lemma LevelComplete(g: Problem, check: set<nat>, cur: seq<nat>, level: nat, v: nat, e: nat)
    requires ValidProblem(g)
    requires forall z: nat, k: nat :: CompleteUpTo(g, check, level, z, k)
    requires forall z: nat :: Dist(g.adj, Home(g), z, level) ==> z in cur
    requires forall k: nat :: k < |cur| ==> ScannedFrom(g, check, cur[k], 0)
    ensures CompleteUpTo(g, check, level + 1, v, e)
  {
    assert CompleteUpTo(g, check, level, v, e);
    if e == level + 1 && Dist(g.adj, Home(g), v, e) {
      var u := DistSplit(g.adj, Home(g), v, level, 1);
      var w: nat :| Walk(g.adj, u, w, 0) && Edge(g.adj, w, v);
      assert Dist(g.adj, Home(g), u, level) && Edge(g.adj, u, v);
      var k: nat :| k < |cur| && cur[k] == u;
      assert ScannedFrom(g, check, cur[k], 0);
    }
  }

  lemma FrontierVertex(g: Problem, before: seq<set<nat>>, rows: seq<set<nat>>, check: set<nat>, cur: seq<nat>,
                       r: BFSResult,
                       dist: nat, v: nat)
    requires ValidProblem(g) && Sweep(g, before, rows, check, cur, r, dist, dist) && v in cur
    ensures v < |g.adj| && Dist(g.adj, Home(g), v, dist)
  {
    assert FrontierAt(g, check, cur, dist, v) && MarkedAt(g, check, dist, v);
  }

  /** When every neighbour of every vertex of a level has been visited, the next level is complete. */
  lemma EndLevel(g: Problem, before: seq<set<nat>>, rows0: seq<set<nat>>, rows: seq<set<nat>>, check0: set<nat>,
                 check: set<nat>,
                 cur: seq<nat>, next: seq<nat>, r0: BFSResult, r: BFSResult, dist: nat)
    requires ValidProblem(g) && Sweep(g, before, rows0, check0, cur, r0, dist, dist)
    requires Sweep(g, before, rows, check, next, r, dist, dist + 1)
    requires forall k: nat :: k < |cur| ==> ScannedFrom(g, check, cur[k], 0)
    ensures Sweep(g, before, rows, check, next, r, dist + 1, dist + 1)
  {
    forall z: nat ensures Dist(g.adj, Home(g), z, dist) ==> z in cur {
      assert FrontierAt(g, check0, cur, dist, z) && CompleteUpTo(g, check0, dist, z, dist);
    }
    var d := dist + 1;
    forall v: nat, e: nat ensures CompleteUpTo(g, check, d, v, e) { LevelComplete(g, check, cur, dist, v, e); }
  }

  /** The body of the level loop: every neighbour of every vertex of the level, the last neighbour first. */
  method SearchLevel(g: Problem, rows: array<set<nat>>, check: set<nat>, cur: seq<nat>, r: BFSResult, dist: nat,
                     ghost before: seq<set<nat>>)
    returns (check': set<nat>, next: seq<nat>, r': BFSResult)
    requires ValidProblem(g) && Sweep(g, before, rows[..], check, cur, r, dist, dist)
    modifies rows
    ensures Sweep(g, before, rows[..], check', next, r', dist + 1, dist + 1)
    ensures check <= check' && (check' == check ==> next == [])
  {
    hide Sweep, Dist;
    ghost var rows0 := rows[..];
    check', next, r' := check, [], r;
    BeginLevel(g, before, rows[..], check, cur, r, dist);
    var c := 0;
    while c < |cur|
      invariant c <= |cur| && check <= check'
      invariant Sweep(g, before, rows[..], check', next, r', dist, dist + 1)
      invariant forall k: nat :: k < c ==> ScannedFrom(g, check', cur[k], 0)
      invariant check' == check ==> next == []
    {
      var v := cur[c];
      FrontierVertex(g, before, rows0, check, cur, r, dist, v);
      var i: nat := |g.adj[v]|;
      while i > 0
        invariant i <= |g.adj[v]| && check <= check'
        invariant Sweep(g, before, rows[..], check', next, r', dist, dist + 1)
        invariant ScannedFrom(g, check', v, i)
        invariant forall k: nat :: k < c ==> ScannedFrom(g, check', cur[k], 0)
        invariant check' == check ==> next == []
      {
        i := i - 1;
        assert Edge(g.adj, v, g.adj[v][i]);
        check', next, r' := VisitVertex(g, rows, check', next, r', dist, g.adj[v][i], before, v);
      }
      c := c + 1;
    }
    EndLevel(g, before, rows0, rows[..], check, check', cur, next, r, r', dist);
  }

  lemma BeginLevel(g: Problem, before: seq<set<nat>>, rows: seq<set<nat>>, check: set<nat>, cur: seq<nat>,
                   r: BFSResult, dist: nat)
    requires ValidProblem(g) && Sweep(g, before, rows, check, cur, r, dist, dist)
    ensures Sweep(g, before, rows, check, [], r, dist, dist + 1)
  {
    var d := dist + 1;
    forall v: nat ensures MarkedAt(g, check, d, v) { assert MarkedAt(g, check, dist, v); }
    forall v: nat ensures FrontierAt(g, check, [], d, v) {
      assert MarkedAt(g, check, dist, v);
    }
  }

  // ---------- one house ----------

  lemma BeginSearch(g: Problem, rows: seq<set<nat>>)
    requires ValidProblem(g) && |rows| == |g.houses|
    ensures Sweep(g, rows, rows, {Home(g)}, [Home(g)], EMPTY_RESULT, 0, 0)
  {
    assert Walk(g.adj, Home(g), Home(g), 0);
    assert Dist(g.adj, Home(g), Home(g), 0);
  }

  /** When a level is empty, so is every later one. */
  lemma NothingBeyond(g: Problem, check: set<nat>, level: nat, v: nat, e: nat)
    requires ValidProblem(g) && Dist(g.adj, Home(g), v, e)
    requires forall z: nat, k: nat :: CompleteUpTo(g, check, level, z, k)
    requires forall z: nat :: FrontierAt(g, check, [], level, z)
    ensures v in check
  {
    forall z: nat ensures !Dist(g.adj, Home(g), z, level) {
      assert CompleteUpTo(g, check, level, z, level) && FrontierAt(g, check, [], level, z);
    }
    if e > level {
      var z := DistSplit(g.adj, Home(g), v, level, e - level);
      assert false;
    }
    assert CompleteUpTo(g, check, level, v, e);
  }

  /** A search that stops has met every house it can reach: either no house was left or no vertex. */
  lemma StoppedHasMet(g: Problem, before: seq<set<nat>>, rows: seq<set<nat>>, check: set<nat>, next: seq<nat>,
                      r: BFSResult, level: nat, b: nat)
    requires ValidProblem(g) && Sweep(g, before, rows, check, next, r, level, level)
    requires Over(g, rows[g.home]) || next == []
    requires b < |g.houses| && b != g.home && Connected(g.adj, Home(g), g.houses[b])
    ensures b in rows[g.home]
  {
    if !Over(g, rows[g.home]) {
      var k: nat :| Walk(g.adj, Home(g), g.houses[b], k);
      var e := DistAtMost(g.adj, Home(g), g.houses[b], k);
      NothingBeyond(g, check, level, g.houses[b], e);
      assert MetAt(g, check, rows[g.home], b);
    }
  }

  /** BFSSingleThread: afterwards the start house has a bit for every house it is connected with, and every
      bit that was added, in whatever row, stands for a distance in the result. */
  method SearchFrom(g: Problem, rows: array<set<nat>>) returns (r: BFSResult)
    requires ValidProblem(g) && rows.Length == |g.houses|
    modifies rows
    ensures Genuine(g.adj, g.houses, r)
    ensures forall a: nat, b: nat :: BitsAt(g, old(rows[..]), rows[..], r, a, b)
    ensures forall b: nat :: b < |g.houses| && b != g.home && Connected(g.adj, Home(g), g.houses[b]) ==>
      b in rows[g.home]
  {
    ghost var before := rows[..];
    r := EMPTY_RESULT;
    var check, next, dist := {g.houses[g.home]}, [g.houses[g.home]], 0;
    BeginSearch(g, before);
    while !Over(g, rows[g.home]) && next != []
      invariant Sweep(g, before, rows[..], check, next, r, dist, dist)
      decreases Vertices(|g.adj|) - check, |next|
    {
      ghost var seen := check;
      check, next, r := SearchLevel(g, rows, check, next, r, dist, before);
      dist := dist + 1;
      MarkedInGraph(g, check, dist);
      assert check != seen ==> Vertices(|g.adj|) - check < Vertices(|g.adj|) - seen;
    }
    forall b: nat | b < |g.houses| && b != g.home && Connected(g.adj, Home(g), g.houses[b]) ensures b in rows[g.home] {
      StoppedHasMet(g, before, rows[..], check, next, r, dist, b);
    }
  }

  lemma MarkedInGraph(g: Problem, check: set<nat>, level: nat)
    requires ValidProblem(g) && forall v: nat :: MarkedAt(g, check, level, v)
    ensures check <= Vertices(|g.adj|)
  {
    forall v | v in check ensures v in Vertices(|g.adj|) { assert MarkedAt(g, check, level, v); }
  }

  // ---------- all houses ----------

  ghost predicate HouseDone(g: HouseSearch.Input, rows: seq<set<nat>>, a: nat, b: nat) {
    a < |rows| && b < |g.houses| && a != b && a < |g.houses| && Connected(g.adj, g.houses[a], g.houses[b]) ==>
      b in rows[a]
  }

  ghost predicate RowAt(g: HouseSearch.Input, rows: seq<set<nat>>, r: BFSResult, a: nat, b: nat) {
    a < |rows| && b in rows[a] ==> BitStandsFor(g.adj, g.houses, r, a, b)
  }

  /** What the rows stand for survives a search and the merging of its result. */
  lemma MergeKeepsRow(g: HouseSearch.Input, p: LevelSearch.Problem, before: seq<set<nat>>, rows: seq<set<nat>>,
                      total: BFSResult,
                      r: BFSResult, a: nat, b: nat)
    requires p.adj == g.adj && p.houses == g.houses && |before| == |rows| == |g.houses|
    requires RowAt(g, before, total, a, b) && BitsAt(p, before, rows, r, a, b)
    ensures RowAt(g, rows, Merge(total, r), a, b)
  {
    if a < |rows| && b in rows[a] {
      if b in before[a] {
        var d: nat :| Dist(g.adj, g.houses[a], g.houses[b], d) && Covers(total, d);
        assert Covers(Merge(total, r), d);
      } else {
        var d: nat :| Dist(g.adj, g.houses[a], g.houses[b], d) && Covers(r, d);
        assert Covers(Merge(total, r), d);
      }
    }
  }

  lemma AllHousesAnswer(g: HouseSearch.Input, rows: seq<set<nat>>, r: BFSResult)
    requires HouseSearch.ValidInput(g) && |rows| == |g.houses| && Genuine(g.adj, g.houses, r)
    requires forall a: nat, b: nat :: RowAt(g, rows, r, a, b)
    requires forall a: nat, b: nat :: a < |g.houses| - 1 ==> HouseDone(g, rows, a, b)
    ensures AllPairsAnswer(g, r)
  {
    forall a: nat, b: nat, d: nat
      | a < |g.houses| && b < |g.houses| && a != b && Dist(g.adj, g.houses[a], g.houses[b], d)
      ensures Covers(r, d)
    {
      if a < b {
        BitGivesDistance(g, rows, r, a, b, d);
      } else {
        DistSymmetric(g.adj, g.houses[a], g.houses[b], d);
        BitGivesDistance(g, rows, r, b, a, d);
      }
    }
  }

  lemma BitGivesDistance(g: HouseSearch.Input, rows: seq<set<nat>>, r: BFSResult, a: nat, b: nat, d: nat)
    requires |rows| == |g.houses| && a < |g.houses| && b < |g.houses| && a != b
    requires RowAt(g, rows, r, a, b) && HouseDone(g, rows, a, b) && Dist(g.adj, g.houses[a], g.houses[b], d)
    ensures Covers(r, d)
  {
    var e: nat :| Dist(g.adj, g.houses[a], g.houses[b], e) && Covers(r, e);
    DistUnique(g.adj, g.houses[a], g.houses[b], d, e);
  }

  /** The program with one house worker of one thread. */
  method FindMinMax(g: HouseSearch.Input) returns (result: BFSResult)
    requires HouseSearch.ValidInput(g)
    ensures AllPairsAnswer(g, result)
  {
    var rows := new set<nat>[|g.houses|](_ => {});
    result := EMPTY_RESULT;
    var index := 0;
    while index < |g.houses| - 1
      invariant 0 <= index && (index <= |g.houses| - 1 || index == 0) && rows.Length == |g.houses|
      invariant Genuine(g.adj, g.houses, result)
      invariant forall a: nat, b: nat :: RowAt(g, rows[..], result, a, b)
      invariant forall a: nat, b: nat :: a < index ==> HouseDone(g, rows[..], a, b)
    {
      var p := HouseSearch.From(g, index);
      ghost var before, total := rows[..], result;
      var r := SearchFrom(p, rows);
      result := Merge(result, r);
      MergeGenuine(g, total, r);
      forall a: nat, b: nat ensures RowAt(g, rows[..], result, a, b) {
        MergeKeepsRow(g, p, before, rows[..], total, r, a, b);
      }
      forall a: nat, b: nat | a < index + 1 ensures HouseDone(g, rows[..], a, b) {
        if a < index { assert HouseDone(g, before, a, b) && BitsAt(p, before, rows[..], r, a, b); }
      }
      index := index + 1;
    }
    AllHousesAnswer(g, rows[..], result);
  }
}
