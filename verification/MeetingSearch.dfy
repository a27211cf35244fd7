/**
 The meeting searches of Lab4: one breadth-first search per house, all marking the same vertices
 with an atomic fetch-and-or and recording where they first meet each other, as a transition system.
 One call of `Step` is one step of one search: dequeuing an item, or looking at one neighbour
 (the test of the own mark and the fetch-and-or; nobody else writes the own mark in between).
 */
module MeetingSearch {
  import opened Graph

  /** A queue entry: a vertex, or the fence that closes a depth. */
  datatype Item = Vertex(v: nat) | Fence(depth: nat)

  datatype VisitInfo = VisitInfo(vid: nat, depth: nat)

  datatype Pc = Dequeue | Scan(u: nat, i: nat) | Stopped

  /** queue[..front] has been dequeued; `fence` is a history variable, the position of the next fence. */
  datatype Search = Search(
    pc: Pc,
    queue: seq<Item>,
    front: nat,
    depth: nat,
    visited: set<nat>,              // the searches met so far, and itself
    info: map<nat, VisitInfo>,      // where each of them was first met
    fences: seq<nat>,
    fence: nat)

  /** `flags[v]` is the set of searches that have marked vertex v. */
  datatype State = State(flags: seq<set<nat>>, searches: seq<Search>)

  datatype Problem = Problem(adj: Adjacency, houses: seq<nat>)

  /** What the input promises: a connected undirected graph and distinct houses. */
  ghost predicate ValidProblem(g: Problem) {
    && Symmetric(g.adj)
    && (forall a :: 0 <= a < |g.houses| ==> g.houses[a] < |g.adj|)
    && (forall a, b :: 0 <= a < b < |g.houses| ==> g.houses[a] != g.houses[b])
    && (forall u: nat, v: nat :: u < |g.adj| && v < |g.adj| ==> Connected(g.adj, u, v))
  }

  /** The flags of the first n searches, OR-ed together. */
  function Flags(n: nat): (f: set<nat>)
    ensures forall a :: a in f <==> 0 <= a < n
  {
    if n == 0 then {} else Flags(n - 1) + {n - 1}
  }

  function FullFlag(g: Problem): set<nat> {
    Flags(|g.houses|)
  }

  function Initial(g: Problem): State {
    State(seq(|g.adj|, v => set a | 0 <= a < |g.houses| && g.houses[a] == v),
          seq(|g.houses|, a requires 0 <= a < |g.houses| =>
            Search(Dequeue, [Vertex(g.houses[a]), Fence(0)], 0, 0, {a}, map[], [0], 1)))
  }

  predicate Shape(g: Problem, s: State) {
    && |s.flags| == |g.adj|
    && |s.searches| == |g.houses|
    && (forall a :: 0 <= a < |s.searches| ==>
         s.searches[a].pc.Scan? ==> s.searches[a].pc.u < |g.adj| && s.searches[a].pc.i <= |g.adj[s.searches[a].pc.u]|)
    && (forall u, i :: 0 <= u < |g.adj| && 0 <= i < |g.adj[u]| ==> g.adj[u][i] < |g.adj|)
  }

  function DequeueStep(g: Problem, s: State, a: nat): State
    requires Shape(g, s) && a < |s.searches|
  {
    var w := s.searches[a];
    if w.front >= |w.queue| then s.(searches := s.searches[a := w.(pc := Stopped)])
    else match w.queue[w.front]
      case Vertex(v) =>
        if v < |g.adj| then s.(searches := s.searches[a := w.(pc := Scan(v, 0), front := w.front + 1)])
        else s
      case Fence(_) =>
        var w' := w.(front := w.front + 1, depth := w.depth + 1, queue := w.queue + [Fence(w.depth + 1)],
                     fences := w.fences + [w.front], fence := |w.queue|);
        s.(searches := s.searches[a := if w.visited == FullFlag(g) then w'.(pc := Stopped) else w'])
  }

  /** Record vertex v at the next depth for every search met here for the first time. */
  function Meet(w: Search, met: set<nat>, v: nat): Search {
    w.(visited := w.visited + met, info := w.info + map b | b in met :: VisitInfo(v, w.depth + 1))
  }

  function ScanStep(g: Problem, s: State, a: nat): State
    requires Shape(g, s) && a < |s.searches| && s.searches[a].pc.Scan?
  {
    var w := s.searches[a];
    var u, i := w.pc.u, w.pc.i;
    if i == |g.adj[u]| then s.(searches := s.searches[a := w.(pc := Dequeue)])
    else
      var v := g.adj[u][i];
      var w' := w.(pc := Scan(u, i + 1));
      if a in s.flags[v] then s.(searches := s.searches[a := w'])
      else
        var met := s.flags[v] - w.visited;
        State(s.flags[v := s.flags[v] + {a}],
              s.searches[a := Meet(w', met, v).(queue := w.queue + [Vertex(v)])])
  }

  function Step(g: Problem, s: State, a: nat): State
    requires Shape(g, s) && a < |s.searches|
  {
    match s.searches[a].pc
    case Dequeue => DequeueStep(g, s, a)
    case Scan(_, _) => ScanStep(g, s, a)
    case Stopped => s
  }

  ghost predicate Next(g: Problem, s: State, s': State) {
    Shape(g, s) && exists a: nat :: a < |s.searches| && s' == Step(g, s, a)
  }

  ghost predicate StepAt(g: Problem, run: seq<State>, k: nat) {
    0 < k < |run| ==> Next(g, run[k - 1], run[k])
  }

  /** Any interleaving of the searches. */
  ghost predicate IsRun(g: Problem, run: seq<State>) {
    && run != []
    && run[0] == Initial(g)
    && forall k: nat :: StepAt(g, run, k)
  }
}
