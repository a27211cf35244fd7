/**
 What every step of the meeting searches keeps.
 */
module MeetingProof {
  import opened Graph
  import opened MeetingSearch

  // ---------- the invariant ----------

  predicate Marked(s: State, a: nat, v: nat) {
    v < |s.flags| && a in s.flags[v]
  }

  /** The vertex waits in the queue, or its neighbours are being looked at. */
  ghost predicate Waiting(w: Search, v: nat) {
    (w.pc.Scan? && w.pc.u == v) || exists k :: w.front <= k < |w.queue| && w.queue[k] == Vertex(v)
  }

  /** The queue holds the rest of the current depth, its fence, and the next depth. */
  ghost predicate QueueAt(g: Problem, s: State, a: nat, k: nat) {
    a < |s.searches| && a < |g.houses| && !s.searches[a].pc.Stopped? ==>
      var w := s.searches[a];
      && w.front <= w.fence < |w.queue|
      && w.queue[w.fence] == Fence(w.depth)
      && (w.front <= k < |w.queue| && k != w.fence ==>
           && w.queue[k].Vertex?
           && Marked(s, a, w.queue[k].v)
           && Dist(g.adj, g.houses[a], w.queue[k].v, if k < w.fence then w.depth else w.depth + 1))
  }

  ghost predicate ScanAt(g: Problem, s: State, a: nat) {
    a < |s.searches| && a < |g.houses| && s.searches[a].pc.Scan? ==>
      && Marked(s, a, s.searches[a].pc.u)
      && Dist(g.adj, g.houses[a], s.searches[a].pc.u, s.searches[a].depth)
  }

  /** What is marked is at most one level ahead. */
  ghost predicate SoundAt(g: Problem, s: State, a: nat, v: nat) {
    a < |s.searches| && a < |g.houses| && Marked(s, a, v) ==>
      exists d: nat :: d <= s.searches[a].depth + 1 && Dist(g.adj, g.houses[a], v, d)
  }

  /** Everything up to the current depth is marked. */
  ghost predicate CompleteAt(g: Problem, s: State, a: nat, v: nat, k: nat) {
    a < |s.searches| && a < |g.houses| && k <= s.searches[a].depth && Walk(g.adj, g.houses[a], v, k) ==>
      Marked(s, a, v)
  }

  /** The neighbours of a vertex that has been dealt with are marked. */
  ghost predicate ExpandedAt(g: Problem, s: State, a: nat, v: nat, i: nat) {
    a < |s.searches| && Marked(s, a, v) && v < |g.adj| && i < |g.adj[v]| && !s.searches[a].pc.Stopped?
    && (!Waiting(s.searches[a], v) || (s.searches[a].pc.Scan? && s.searches[a].pc.u == v && i < s.searches[a].pc.i)) ==>
      Marked(s, a, g.adj[v][i])
  }

  ghost predicate InfoAt(g: Problem, s: State, a: nat, b: nat) {
    a < |s.searches| && a < |g.houses| ==>
      var w := s.searches[a];
      && (b in w.visited <==> b == a || b in w.info)
      && (b in w.info ==>
           && b != a && b < |g.houses|
           && Marked(s, a, w.info[b].vid) && Marked(s, b, w.info[b].vid)
           && 1 <= w.info[b].depth <= w.depth + 1
           && Dist(g.adj, g.houses[a], w.info[b].vid, w.info[b].depth))
  }

  /** Search a met b no later than it came to v. */
  ghost predicate MetBy(g: Problem, s: State, a: nat, b: nat, v: nat) {
    && a < |s.searches| && a < |g.houses| && b in s.searches[a].info
    && forall d: nat :: Dist(g.adj, g.houses[a], v, d) ==> s.searches[a].info[b].depth <= d
  }

  /** Of two searches that marked a vertex, the later one knows about the other. */
  ghost predicate OrderAt(g: Problem, s: State, a: nat, b: nat, v: nat) {
    a < |s.searches| && b < |s.searches| && a != b && Marked(s, a, v) && Marked(s, b, v) ==>
      MetBy(g, s, a, b, v) || MetBy(g, s, b, a, v)
  }

  /** Two searches that have met each other are no further apart than the sum of the two depths. */
  ghost predicate CloseAt(g: Problem, s: State, a: nat, b: nat) {
    a < |s.searches| && b < |s.searches| && a < |g.houses| && b < |g.houses|
    && b in s.searches[a].info && a in s.searches[b].info ==>
      exists k: nat :: k <= s.searches[a].info[b].depth + s.searches[b].info[a].depth
        && Walk(g.adj, g.houses[a], g.houses[b], k)
  }

  ghost predicate HomeAt(g: Problem, s: State, a: nat) {
    a < |s.searches| && a < |g.houses| ==> Marked(s, a, g.houses[a])
  }

  ghost predicate FlagsAt(g: Problem, s: State, v: nat) {
    v < |s.flags| ==> forall a :: a in s.flags[v] ==> a < |g.houses|
  }

  ghost predicate StopAt(g: Problem, s: State, a: nat) {
    a < |s.searches| && s.searches[a].pc.Stopped? ==> s.searches[a].visited == FullFlag(g)
  }

  ghost predicate Inv(g: Problem, s: State) {
    && Shape(g, s)
    && (forall a: nat, k: nat :: QueueAt(g, s, a, k))
    && (forall a: nat :: ScanAt(g, s, a))
    && (forall a: nat, v: nat :: SoundAt(g, s, a, v))
    && (forall a: nat, v: nat, k: nat :: CompleteAt(g, s, a, v, k))
    && (forall a: nat, v: nat, i: nat :: ExpandedAt(g, s, a, v, i))
    && (forall a: nat, b: nat :: InfoAt(g, s, a, b))
    && (forall a: nat, b: nat, v: nat :: OrderAt(g, s, a, b, v))
    && (forall a: nat, b: nat :: CloseAt(g, s, a, b))
    && (forall a: nat :: HomeAt(g, s, a))
    && (forall v: nat :: FlagsAt(g, s, v))
    && (forall a: nat :: StopAt(g, s, a))
  }

  lemma InitialInv(g: Problem)
    requires ValidProblem(g)
    ensures Inv(g, Initial(g))
  {
    var s := Initial(g);
    forall a: nat | a < |g.houses| ensures Dist(g.adj, g.houses[a], g.houses[a], 0) { }
    forall a: nat, v: nat ensures SoundAt(g, s, a, v) {
      if a < |s.searches| && Marked(s, a, v) {
        assert v == g.houses[a] && Dist(g.adj, g.houses[a], v, 0);
      }
    }
    forall a: nat, v: nat, i: nat ensures ExpandedAt(g, s, a, v, i) {
      if a < |s.searches| && Marked(s, a, v) {
        assert s.searches[a].queue[0] == Vertex(v);
      }
    }
  }

  // ---------- steps that mark nothing ----------

  lemma LocalKeeps(g: Problem, s: State, s': State, a: nat)
    requires Inv(g, s) && Shape(g, s') && a < |s.searches|
    requires s'.flags == s.flags && s'.searches == s.searches[a := s'.searches[a]]
    requires s'.searches[a].info == s.searches[a].info && s'.searches[a].visited == s.searches[a].visited
    requires s'.searches[a].depth >= s.searches[a].depth
    requires forall k: nat :: QueueAt(g, s', a, k)
    requires ScanAt(g, s', a) && StopAt(g, s', a)
    requires forall v: nat, k: nat :: CompleteAt(g, s', a, v, k)
    requires forall v: nat, i: nat :: ExpandedAt(g, s', a, v, i)
    ensures Inv(g, s')
  {
    forall b: nat, k: nat ensures QueueAt(g, s', b, k) { assert QueueAt(g, s, b, k); }
    forall b: nat ensures ScanAt(g, s', b) { assert ScanAt(g, s, b); }
    forall b: nat, v: nat ensures SoundAt(g, s', b, v) { assert SoundAt(g, s, b, v); }
    forall b: nat, v: nat, k: nat ensures CompleteAt(g, s', b, v, k) { assert CompleteAt(g, s, b, v, k); }
    forall b: nat, v: nat, i: nat ensures ExpandedAt(g, s', b, v, i) { assert ExpandedAt(g, s, b, v, i); }
    forall b: nat, c: nat ensures InfoAt(g, s', b, c) { assert InfoAt(g, s, b, c); }
    forall b: nat, c: nat, v: nat ensures OrderAt(g, s', b, c, v) {
      assert OrderAt(g, s, b, c, v);
      assert MetBy(g, s, b, c, v) ==> MetBy(g, s', b, c, v);
      assert MetBy(g, s, c, b, v) ==> MetBy(g, s', c, b, v);
    }
    forall b: nat, c: nat ensures CloseAt(g, s', b, c) { assert CloseAt(g, s, b, c); }
    forall b: nat ensures HomeAt(g, s', b) { assert HomeAt(g, s, b); }
    forall v: nat ensures FlagsAt(g, s', v) { assert FlagsAt(g, s, v); }
    forall b: nat ensures StopAt(g, s', b) { assert StopAt(g, s, b); }
  }

  lemma DequeueVertexStep(g: Problem, s: State, a: nat)
    requires ValidProblem(g) && Inv(g, s) && a < |s.searches| && s.searches[a].pc.Dequeue?
    requires s.searches[a].front < |s.searches[a].queue| && s.searches[a].queue[s.searches[a].front].Vertex?
    ensures Inv(g, Step(g, s, a))
  {
    var s', w := Step(g, s, a), s.searches[a];
    var u := w.queue[w.front].v;
    assert QueueAt(g, s, a, w.front);
    forall k: nat ensures QueueAt(g, s', a, k) { assert QueueAt(g, s, a, k); }
    forall v: nat, k: nat ensures CompleteAt(g, s', a, v, k) { assert CompleteAt(g, s, a, v, k); }
    forall v: nat, i: nat ensures ExpandedAt(g, s', a, v, i) {
      assert ExpandedAt(g, s, a, v, i);
      if v != u && Waiting(w, v) {
        var k :| w.front <= k < |w.queue| && w.queue[k] == Vertex(v);
        assert s'.searches[a].queue[k] == Vertex(v);
      }
    }
    LocalKeeps(g, s, s', a);
  }

  /** When the fence is reached, the next depth is complete as well. */
  lemma FenceCompletes(g: Problem, s: State, a: nat, v: nat, k: nat)
    requires ValidProblem(g) && Inv(g, s) && a < |s.searches| && s.searches[a].pc.Dequeue?
    requires s.searches[a].front == s.searches[a].fence
    requires k <= s.searches[a].depth + 1 && Walk(g.adj, g.houses[a], v, k)
    ensures Marked(s, a, v)
  {
    var w, h := s.searches[a], g.houses[a];
    if k <= w.depth {
      assert CompleteAt(g, s, a, v, k);
    } else {
      var x: nat :| Walk(g.adj, h, x, k - 1) && Edge(g.adj, x, v);
      assert CompleteAt(g, s, a, x, k - 1);
      var d := DistAtMost(g.adj, h, x, k - 1);
      forall q: nat | w.front <= q < |w.queue| ensures w.queue[q] != Vertex(x) {
        assert QueueAt(g, s, a, q);
      }
      var i :| 0 <= i < |g.adj[x]| && g.adj[x][i] == v;
      assert ExpandedAt(g, s, a, x, i);
    }
  }

  lemma DequeueFenceStep(g: Problem, s: State, a: nat)
    requires ValidProblem(g) && Inv(g, s) && a < |s.searches| && s.searches[a].pc.Dequeue?
    requires s.searches[a].front < |s.searches[a].queue| && s.searches[a].queue[s.searches[a].front].Fence?
    ensures Inv(g, Step(g, s, a))
  {
    var s', w := Step(g, s, a), s.searches[a];
    assert QueueAt(g, s, a, w.front);
    forall k: nat ensures QueueAt(g, s', a, k) { assert QueueAt(g, s, a, k); }
    forall v: nat, k: nat ensures CompleteAt(g, s', a, v, k) {
      if k <= w.depth + 1 && Walk(g.adj, g.houses[a], v, k) {
        FenceCompletes(g, s, a, v, k);
      }
    }
    forall v: nat, i: nat ensures ExpandedAt(g, s', a, v, i) {
      assert ExpandedAt(g, s, a, v, i);
      if Waiting(w, v) {
        var k :| w.front <= k < |w.queue| && w.queue[k] == Vertex(v);
        assert s'.searches[a].queue[k] == Vertex(v);
      }
    }
    LocalKeeps(g, s, s', a);
  }

  lemma ScanLocalStep(g: Problem, s: State, a: nat)
    requires ValidProblem(g) && Inv(g, s) && a < |s.searches| && s.searches[a].pc.Scan?
    requires var u, i := s.searches[a].pc.u, s.searches[a].pc.i; i == |g.adj[u]| || Marked(s, a, g.adj[u][i])
    ensures Inv(g, Step(g, s, a))
  {
    var s', w := Step(g, s, a), s.searches[a];
    forall k: nat ensures QueueAt(g, s', a, k) { assert QueueAt(g, s, a, k); }
    assert ScanAt(g, s, a);
    forall v: nat, k: nat ensures CompleteAt(g, s', a, v, k) { assert CompleteAt(g, s, a, v, k); }
    forall v: nat, i: nat ensures ExpandedAt(g, s', a, v, i) {
      assert ExpandedAt(g, s, a, v, i);
      if exists k :: w.front <= k < |w.queue| && w.queue[k] == Vertex(v) {
        var k :| w.front <= k < |w.queue| && w.queue[k] == Vertex(v);
        assert s'.searches[a].queue[k] == Vertex(v);
      }
    }
    LocalKeeps(g, s, s', a);
  }

  // ---------- the step that marks a vertex ----------

  /** Search a marks v, a neighbour of the vertex it scans. */
  ghost predicate Marks(g: Problem, s: State, s': State, a: nat, v: nat) {
    && ValidProblem(g) && Inv(g, s) && Shape(g, s') && a < |s.searches| && s.searches[a].pc.Scan?
    && var w := s.searches[a];
    && w.pc.i < |g.adj[w.pc.u]| && v == g.adj[w.pc.u][w.pc.i] && !Marked(s, a, v)
    && s'.flags == s.flags[v := s.flags[v] + {a}]
    && s'.searches == s.searches[a := s'.searches[a]]
    && s'.searches[a] ==
       Meet(w, s.flags[v] - w.visited, v).(pc := Scan(w.pc.u, w.pc.i + 1), queue := w.queue + [Vertex(v)])
  }

  lemma MarkedBy(g: Problem, s: State, s': State, a: nat, v: nat)
    requires Marks(g, s, s', a, v)
    ensures forall b: nat, x: nat :: Marked(s', b, x) <==> Marked(s, b, x) || (b == a && x == v)
  {
  }

  /** The vertex marked now is exactly one step beyond the one being scanned. */
  lemma MarkDistance(g: Problem, s: State, s': State, a: nat, v: nat)
    requires Marks(g, s, s', a, v)
    ensures Dist(g.adj, g.houses[a], v, s.searches[a].depth + 1)
  {
    var w, h := s.searches[a], g.houses[a];
    assert ScanAt(g, s, a);
    WalkExtend(g.adj, h, w.pc.u, v, w.depth);
    forall k: nat | k < w.depth + 1 ensures !Walk(g.adj, h, v, k) {
      assert CompleteAt(g, s, a, v, k);
    }
  }

  lemma MarkKeepsSearch(g: Problem, s: State, s': State, a: nat, v: nat)
    requires Marks(g, s, s', a, v)
    ensures forall b: nat, k: nat :: QueueAt(g, s', b, k)
    ensures forall b: nat :: ScanAt(g, s', b)
    ensures forall b: nat, x: nat :: SoundAt(g, s', b, x)
    ensures forall b: nat, x: nat, k: nat :: CompleteAt(g, s', b, x, k)
  {
    MarkedBy(g, s, s', a, v);
    MarkDistance(g, s, s', a, v);
    forall b: nat, k: nat ensures QueueAt(g, s', b, k) { assert QueueAt(g, s, b, k); }
    forall b: nat ensures ScanAt(g, s', b) { assert ScanAt(g, s, b); }
    forall b: nat, x: nat ensures SoundAt(g, s', b, x) { assert SoundAt(g, s, b, x); }
    forall b: nat, x: nat, k: nat ensures CompleteAt(g, s', b, x, k) { assert CompleteAt(g, s, b, x, k); }
  }

  lemma MarkKeepsExpanded(g: Problem, s: State, s': State, a: nat, v: nat, b: nat, x: nat, i: nat)
    requires Marks(g, s, s', a, v)
    ensures ExpandedAt(g, s', b, x, i)
  {
    MarkedBy(g, s, s', a, v);
    assert ExpandedAt(g, s, b, x, i);
    var w, w' := s.searches[a], s'.searches[a];
    assert QueueAt(g, s, a, 0) && ScanAt(g, s, a);
    assert w'.queue[|w.queue|] == Vertex(v);
    assert Waiting(w', v);
    if Waiting(w, x) && w.pc.u != x {
      var k :| w.front <= k < |w.queue| && w.queue[k] == Vertex(x);
      assert w'.queue[k] == Vertex(x);
      assert Waiting(w', x);
    }
  }

  lemma MarkKeepsInfo(g: Problem, s: State, s': State, a: nat, v: nat, b: nat, c: nat)
    requires Marks(g, s, s', a, v)
    ensures InfoAt(g, s', b, c)
  {
    MarkedBy(g, s, s', a, v);
    MarkDistance(g, s, s', a, v);
    assert InfoAt(g, s, b, c) && FlagsAt(g, s, v);
  }

  /** Whoever had marked v before is now known to a, at no greater depth. */
  lemma MarkMeets(g: Problem, s: State, s': State, a: nat, v: nat, b: nat)
    requires Marks(g, s, s', a, v) && b != a && Marked(s, b, v)
    ensures MetBy(g, s', a, b, v)
  {
    MarkDistance(g, s, s', a, v);
    assert InfoAt(g, s, a, b) && FlagsAt(g, s, v);
    forall d: nat | Dist(g.adj, g.houses[a], v, d) ensures s'.searches[a].info[b].depth <= d {
      DistUnique(g.adj, g.houses[a], v, d, s.searches[a].depth + 1);
    }
  }

  lemma MarkKeepsMetBy(g: Problem, s: State, s': State, a: nat, v: nat, b: nat, c: nat, x: nat)
    requires Marks(g, s, s', a, v) && MetBy(g, s, b, c, x)
    ensures MetBy(g, s', b, c, x)
  {
    assert InfoAt(g, s, a, c);
  }

  lemma MarkKeepsOrder(g: Problem, s: State, s': State, a: nat, v: nat, b: nat, c: nat, x: nat)
    requires Marks(g, s, s', a, v)
    ensures OrderAt(g, s', b, c, x)
  {
    MarkedBy(g, s, s', a, v);
    assert OrderAt(g, s, b, c, x);
    if b < |s.searches| && c < |s.searches| && b != c && Marked(s', b, x) && Marked(s', c, x) {
      if b == a && x == v {
        MarkMeets(g, s, s', a, v, c);
      } else if c == a && x == v {
        MarkMeets(g, s, s', a, v, b);
      } else if MetBy(g, s, b, c, x) {
        MarkKeepsMetBy(g, s, s', a, v, b, c, x);
      } else {
        MarkKeepsMetBy(g, s, s', a, v, c, b, x);
      }
    }
  }

  /** When a meets b second, the vertex where b met a first bounds their distance. */
  lemma MeetingIsClose(g: Problem, s: State, s': State, a: nat, v: nat, b: nat)
    requires Marks(g, s, s', a, v) && b < |s.searches| && b != a
    requires b in s'.searches[a].info && b !in s.searches[a].info && a in s.searches[b].info
    ensures exists k: nat ::
      && k <= s'.searches[a].info[b].depth + s.searches[b].info[a].depth
      && Walk(g.adj, g.houses[a], g.houses[b], k)
  {
    assert InfoAt(g, s, b, a) && InfoAt(g, s, a, b);
    var i := s.searches[b].info[a];
    assert SoundAt(g, s, a, i.vid);
    var d: nat :| d <= s.searches[a].depth + 1 && Dist(g.adj, g.houses[a], i.vid, d);
    WalkReverse(g.adj, g.houses[b], i.vid, i.depth);
    WalkJoin(g.adj, g.houses[a], i.vid, g.houses[b], d, i.depth);
  }

  lemma MarkKeepsClose(g: Problem, s: State, s': State, a: nat, v: nat, b: nat, c: nat)
    requires Marks(g, s, s', a, v)
    ensures CloseAt(g, s', b, c)
  {
    assert CloseAt(g, s, b, c) && InfoAt(g, s, a, b) && InfoAt(g, s, a, c) && FlagsAt(g, s, v);
    if b < |s.searches| && c < |s.searches| && c in s'.searches[b].info && b in s'.searches[c].info {
      assert InfoAt(g, s, b, c) && InfoAt(g, s, c, b);
      if b == a && c !in s.searches[a].info {
        MeetingIsClose(g, s, s', a, v, c);
      } else if c == a && b !in s.searches[a].info {
        MeetingIsClose(g, s, s', a, v, b);
        var k: nat :| k <= s'.searches[a].info[b].depth + s.searches[b].info[a].depth
                      && Walk(g.adj, g.houses[a], g.houses[b], k);
        WalkReverse(g.adj, g.houses[a], g.houses[b], k);
      }
    }
  }

  lemma MarkKeeps(g: Problem, s: State, s': State, a: nat, v: nat)
    requires Marks(g, s, s', a, v)
    ensures Inv(g, s')
  {
    MarkedBy(g, s, s', a, v);
    MarkKeepsSearch(g, s, s', a, v);
    forall b: nat, x: nat, i: nat ensures ExpandedAt(g, s', b, x, i) { MarkKeepsExpanded(g, s, s', a, v, b, x, i); }
    forall b: nat, c: nat ensures InfoAt(g, s', b, c) { MarkKeepsInfo(g, s, s', a, v, b, c); }
    forall b: nat, c: nat, x: nat ensures OrderAt(g, s', b, c, x) { MarkKeepsOrder(g, s, s', a, v, b, c, x); }
    forall b: nat, c: nat ensures CloseAt(g, s', b, c) { MarkKeepsClose(g, s, s', a, v, b, c); }
    forall b: nat ensures HomeAt(g, s', b) { assert HomeAt(g, s, b); }
    forall x: nat ensures FlagsAt(g, s', x) { assert FlagsAt(g, s, x); }
    forall b: nat ensures StopAt(g, s', b) { assert StopAt(g, s, b); }
  }

  // ---------- every run ----------

  lemma StepInv(g: Problem, s: State, a: nat)
    requires ValidProblem(g) && Inv(g, s) && a < |s.searches|
    ensures Inv(g, Step(g, s, a))
  {
    var w := s.searches[a];
    match w.pc
    case Stopped =>
    case Dequeue =>
      assert QueueAt(g, s, a, w.front);
      if w.queue[w.front].Vertex? {
        DequeueVertexStep(g, s, a);
      } else {
        DequeueFenceStep(g, s, a);
      }
    case Scan(u, i) =>
      if i == |g.adj[u]| || Marked(s, a, g.adj[u][i]) {
        ScanLocalStep(g, s, a);
      } else {
        MarkKeeps(g, s, Step(g, s, a), a, g.adj[u][i]);
      }
  }

  lemma {:induction false} RunInv(g: Problem, run: seq<State>, k: nat)
    requires ValidProblem(g) && IsRun(g, run) && k < |run|
    ensures Inv(g, run[k])
  {
    if k == 0 {
      InitialInv(g);
    } else {
      hide Step, Inv, ValidProblem;
      RunInv(g, run, k - 1);
      assert StepAt(g, run, k);
      var a: nat :| a < |run[k - 1].searches| && run[k] == Step(g, run[k - 1], a);
      StepInv(g, run[k - 1], a);
    }
  }
}
