/**
 Undirected graphs given by adjacency lists, walks in them and shortest distances.
 */
module Graph {

  /** adj[u] lists the neighbours of vertex u. */
  type Adjacency = seq<seq<nat>>

  /** Every neighbour is a vertex and every edge is stored at both ends. */
  ghost predicate Symmetric(adj: Adjacency) {
    && (forall u, i :: 0 <= u < |adj| && 0 <= i < |adj[u]| ==> adj[u][i] < |adj|)
    && (forall u: nat, v: nat :: Edge(adj, u, v) ==> Edge(adj, v, u))
  }

  predicate Edge(adj: Adjacency, u: nat, v: nat) {
    u < |adj| && v < |adj| && v in adj[u]
  }

  /** There is a walk of exactly k edges from u to v. */
  ghost predicate Walk(adj: Adjacency, u: nat, v: nat, k: nat)
    decreases k
  {
    if k == 0 then u == v && u < |adj|
    else exists w: nat :: Walk(adj, u, w, k - 1) && Edge(adj, w, v)
  }

  /** d is the length of a shortest walk from u to v. */
  ghost predicate Dist(adj: Adjacency, u: nat, v: nat, d: nat) {
    Walk(adj, u, v, d) && forall k: nat :: k < d ==> !Walk(adj, u, v, k)
  }

  ghost predicate Connected(adj: Adjacency, u: nat, v: nat) {
    exists k: nat :: Walk(adj, u, v, k)
  }

  // ---------- walks ----------

  lemma {:induction false} WalkEnds(adj: Adjacency, u: nat, v: nat, k: nat)
    requires Walk(adj, u, v, k)
    ensures u < |adj| && v < |adj|
    decreases k
  {
    if k > 0 {
      var w: nat :| Walk(adj, u, w, k - 1) && Edge(adj, w, v);
      WalkEnds(adj, u, w, k - 1);
    }
  }

  lemma WalkExtend(adj: Adjacency, u: nat, w: nat, v: nat, k: nat)
    requires Walk(adj, u, w, k) && Edge(adj, w, v)
    ensures Walk(adj, u, v, k + 1)
  {
  }

  lemma {:induction false} WalkJoin(adj: Adjacency, u: nat, v: nat, w: nat, j: nat, k: nat)
    requires Walk(adj, u, v, j) && Walk(adj, v, w, k)
    ensures Walk(adj, u, w, j + k)
    decreases k
  {
    if k > 0 {
      var x: nat :| Walk(adj, v, x, k - 1) && Edge(adj, x, w);
      WalkJoin(adj, u, v, x, j, k - 1);
      WalkExtend(adj, u, x, w, j + k - 1);
    }
  }

  lemma {:induction false} WalkSplit(adj: Adjacency, u: nat, w: nat, j: nat, k: nat) returns (v: nat)
    requires Walk(adj, u, w, j + k)
    ensures Walk(adj, u, v, j) && Walk(adj, v, w, k)
    decreases k
  {
    if k == 0 {
      v := w;
      WalkEnds(adj, u, w, j);
    } else {
      var x: nat :| Walk(adj, u, x, j + k - 1) && Edge(adj, x, w);
      v := WalkSplit(adj, u, x, j, k - 1);
      WalkExtend(adj, v, x, w, k - 1);
    }
  }

  lemma {:induction false} WalkReverse(adj: Adjacency, u: nat, v: nat, k: nat)
    requires Symmetric(adj) && Walk(adj, u, v, k)
    ensures Walk(adj, v, u, k)
    decreases k
  {
    if k > 0 {
      var w: nat :| Walk(adj, u, w, k - 1) && Edge(adj, w, v);
      WalkReverse(adj, u, w, k - 1);
      assert Walk(adj, v, v, 0) && Edge(adj, v, w);
      WalkExtend(adj, v, v, w, 0);
      WalkJoin(adj, v, w, u, 1, k - 1);
    }
  }

  // ---------- distances ----------

  lemma {:induction false} DistAtMost(adj: Adjacency, u: nat, v: nat, k: nat) returns (d: nat)
    requires Walk(adj, u, v, k)
    ensures d <= k && Dist(adj, u, v, d)
    decreases k
  {
    if j: nat :| j < k && Walk(adj, u, v, j) {
      d := DistAtMost(adj, u, v, j);
    } else {
      d := k;
    }
  }

  lemma DistUnique(adj: Adjacency, u: nat, v: nat, d: nat, e: nat)
    requires Dist(adj, u, v, d) && Dist(adj, u, v, e)
    ensures d == e
  {
  }

  lemma DistSymmetric(adj: Adjacency, u: nat, v: nat, d: nat)
    requires Symmetric(adj) && Dist(adj, u, v, d)
    ensures Dist(adj, v, u, d)
  {
    WalkReverse(adj, u, v, d);
    forall k: nat | k < d ensures !Walk(adj, v, u, k) {
      if Walk(adj, v, u, k) {
        WalkReverse(adj, v, u, k);
      }
    }
  }

  /** A vertex j steps along a shortest walk is at distance j from one end and at the rest from the other. */
  lemma DistSplit(adj: Adjacency, u: nat, w: nat, j: nat, k: nat) returns (v: nat)
    requires Dist(adj, u, w, j + k)
    ensures Dist(adj, u, v, j) && Dist(adj, v, w, k)
  {
    v := WalkSplit(adj, u, w, j, k);
    forall i: nat | i < j ensures !Walk(adj, u, v, i) {
      if Walk(adj, u, v, i) {
        WalkJoin(adj, u, v, w, i, k);
      }
    }
    forall i: nat | i < k ensures !Walk(adj, v, w, i) {
      if Walk(adj, v, w, i) {
        WalkJoin(adj, u, v, w, j, i);
      }
    }
  }

  /** The vertices of the graph as a set. */
  ghost function Vertices(n: nat): (s: set<nat>)
    ensures |s| == n && forall v :: v in s <==> 0 <= v < n
  {
    if n == 0 then {} else Vertices(n - 1) + {n - 1}
  }

  /** Along a shortest walk of length d there are d + 1 different vertices. */
  lemma {:induction false} DistinctAlong(adj: Adjacency, u: nat, v: nat, d: nat) returns (s: set<nat>)
    requires Dist(adj, u, v, d)
    ensures |s| == d + 1 && s <= Vertices(|adj|)
    ensures forall x :: x in s ==> exists k: nat :: k <= d && Dist(adj, u, x, k)
    decreases d
  {
    WalkEnds(adj, u, v, d);
    if d == 0 {
      s := {v};
    } else {
      var w := DistSplit(adj, u, v, d - 1, 1);
      var t := DistinctAlong(adj, u, w, d - 1);
      s := t + {v};
    }
  }

  /** A distance is smaller than the number of vertices. */
  lemma DistBounded(adj: Adjacency, u: nat, v: nat, d: nat)
    requires Dist(adj, u, v, d)
    ensures d < |adj|
  {
    var s := DistinctAlong(adj, u, v, d);
    SubsetSize(s, Vertices(|adj|));
  }

  lemma {:induction false} SubsetSize(s: set<nat>, t: set<nat>)
    requires s <= t
    ensures |s| <= |t|
  {
    if s != {} {
      var x :| x in s;
      SubsetSize(s - {x}, t - {x});
    }
  }
}
