/**
 The whole of Project1: house workers take house indices from a shared counter, run a search from
 each house with a team of their own and merge what they find; all searches share the rows of
 "already met" bits.  The searches of different house workers interleave freely.
 */
module HouseSearch {
  import opened Graph
  import opened LevelSearch

  datatype Pc =
    | TestIndex      // while (g_house_index < houses.size() - 1), read without the lock
    | TakeIndex      // house_index = g_house_index++, under the lock
    | Searching
    | Merging        // result_.Update(...)
    | Ended

  datatype HouseWorker = HouseWorker(pc: Pc, threads: nat, house: nat, search: Search, result: BFSResult)

  /** `rows[a]` holds the houses that have a bit in visit_bitmap[a].  `searched` is a history variable:
      the houses whose search is complete. */
  datatype State = State(rows: seq<set<nat>>, houseIndex: int, workers: seq<HouseWorker>, searched: set<nat>)

  /** House worker k moves on, or worker w of the search it runs makes a step. */
  datatype Action = Dispatch(k: nat) | Work(k: nat, w: nat)

  datatype Input = Input(adj: Adjacency, houses: seq<nat>)

  function From(g: Input, a: nat): Problem {
    Problem(g.adj, g.houses, a)
  }

  ghost predicate ValidInput(g: Input) {
    && Symmetric(g.adj) && |g.adj| <= INT_MAX
    && (forall a :: 0 <= a < |g.houses| ==> g.houses[a] < |g.adj|)
    && (forall a, b :: 0 <= a < b < |g.houses| ==> g.houses[a] != g.houses[b])
  }

  const NO_SEARCH := Search([], {}, {}, {}, {}, {}, false, false, 0, EMPTY_RESULT, 0)

  /** One house worker for each entry of `teams`, with that many threads. */
  function Initial(g: Input, teams: seq<nat>): State {
    State(seq(|g.houses|, _ => {}), 0,
          seq(|teams|, k requires 0 <= k < |teams| => HouseWorker(TestIndex, teams[k], 0, NO_SEARCH, EMPTY_RESULT)), {})
  }

  predicate Enabled(g: Input, s: State, a: Action) {
    && |s.rows| == |g.houses|
    && a.k < |s.workers|
    && (a.Work? ==>
          var hw := s.workers[a.k];
          hw.pc.Searching? && hw.house < |s.rows| && a.w < |hw.search.workers|)
  }

  function Put(s: State, k: nat, hw: HouseWorker): State
    requires k < |s.workers|
  {
    s.(workers := s.workers[k := hw])
  }

  function DispatchStep(g: Input, s: State, k: nat): State
    requires k < |s.workers|
  {
    var hw := s.workers[k];
    match hw.pc
    case TestIndex => Put(s, k, hw.(pc := if s.houseIndex < |g.houses| - 1 then TakeIndex else Ended))
    case TakeIndex =>
      var index := s.houseIndex;
      var hw' :=
        if 0 <= index < |g.houses| - 1 && hw.threads > 0 then
          hw.(pc := Searching, house := index, search := LevelSearch.Initial(From(g, index), hw.threads))
        else hw.(pc := Ended);
      Put(s, k, hw').(houseIndex := index + 1)
    case Searching => if Finished(hw.search) then Put(s, k, hw.(pc := Merging)) else s
    case Merging =>
      Put(s, k, hw.(pc := TestIndex, result := Merge(hw.result, hw.search.result)))
        .(searched := s.searched + {hw.house})
    case Ended => s
  }

  /** Set the bits of a newly met house in both rows. */
  function Meet(rows: seq<set<nat>>, a: nat, bits: set<nat>): (r: seq<set<nat>>)
    ensures |r| == |rows|
  {
    seq(|rows|, c requires 0 <= c < |rows| =>
      rows[c] + (if c == a then bits else {}) + (if c in bits then {a} else {}))
  }

  function WorkStep(g: Input, s: State, k: nat, w: nat): State
    requires Enabled(g, s, Work(k, w))
  {
    var hw := s.workers[k];
    var p := From(g, hw.house);
    Put(s, k, hw.(search := LevelSearch.Step(p, s.rows[hw.house], hw.search, w)))
      .(rows := Meet(s.rows, hw.house, BitOf(p, hw.search, w)))
  }

  function Step(g: Input, s: State, a: Action): State
    requires Enabled(g, s, a)
  {
    match a
    case Dispatch(k) => DispatchStep(g, s, k)
    case Work(k, w) => WorkStep(g, s, k, w)
  }

  /** What `main` prints after joining all house workers. */
  function JoinAll(workers: seq<HouseWorker>): BFSResult {
    if workers == [] then EMPTY_RESULT
    else Merge(JoinAll(workers[..|workers| - 1]), workers[|workers| - 1].result)
  }

  ghost predicate Next(g: Input, s: State, s': State) {
    exists a :: Enabled(g, s, a) && s' == Step(g, s, a)
  }

  ghost predicate StepAt(g: Input, run: seq<State>, k: nat) {
    0 < k < |run| ==> Next(g, run[k - 1], run[k])
  }

  ghost predicate IsRun(g: Input, teams: seq<nat>, run: seq<State>) {
    && run != []
    && run[0] == Initial(g, teams)
    && forall k: nat :: StepAt(g, run, k)
  }
}
