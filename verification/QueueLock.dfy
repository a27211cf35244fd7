/**
 The CLH queue lock of Lab6 guarding a counter.  Every thread allocates a cell, swaps it into the tail
 of the queue, spins on the cell of its predecessor, frees that cell, increments the counter (a load and
 a store) and releases by setting its own cell.  An allocation may return any address that is not live,
 so freed addresses come back.  Every access to shared memory is one step; one to a dead cell sets `fault`.
 */
module QueueLock {
  import opened Optional

  datatype Pc =
    | Outside    // x = malloc
    | Init       // *x = 0
    | Swap       // old_one = swap(&tail, x)
    | Spin       // while (*old_one == 0)
    | FreeOld
    | Load       // g_counter++
    | Store
    | Release    // *x = 1

  /** `ticket` is a history variable: the position of the thread's last swap in the order of all swaps. */
  datatype Thread = Thread(pc: Pc, x: nat, previous: nat, register: int, ticket: nat)

  /** History variables: `order` and `cells` hold thread and cell of every swap, `passed` how many threads
      have got through the lock and `released` how many have let go of it. */
  datatype State = State(
    heap: map<nat, int>, tail: Option<nat>, counter: int, threads: seq<Thread>, fault: bool,
    order: seq<nat>, cells: seq<nat>, passed: nat, released: nat)

  /** Thread t makes its next step; an allocation returns address p. */
  datatype Action = Action(t: nat, p: nat)

  function Initial(n: nat): State {
    State(map[], None, 0, seq(n, _ => Thread(Outside, 0, 0, 0, 0)), false, [], [], 0, 0)
  }

  predicate Enabled(s: State, a: Action) {
    a.t < |s.threads| && (s.threads[a.t].pc.Outside? ==> a.p !in s.heap)
  }

  function Put(s: State, t: nat, u: Thread): State
    requires t < |s.threads|
  {
    s.(threads := s.threads[t := u])
  }

  function Fail(s: State): State {
    s.(fault := true)
  }

  function Step(s: State, a: Action): State
    requires Enabled(s, a)
  {
    var u := s.threads[a.t];
    match u.pc
    case Outside => Put(s, a.t, u.(pc := Init, x := a.p)).(heap := s.heap[a.p := -1])
    case Init => if u.x in s.heap then Put(s, a.t, u.(pc := Swap)).(heap := s.heap[u.x := 0]) else Fail(s)
    case Swap =>
      var u' := u.(ticket := |s.order|);
      Put(s, a.t, if s.tail.None? then u'.(pc := Load) else u'.(pc := Spin, previous := s.tail.value))
        .(tail := Some(u.x), order := s.order + [a.t], cells := s.cells + [u.x],
          passed := if s.tail.None? then s.passed + 1 else s.passed)
    case Spin =>
      if u.previous !in s.heap then Fail(s)
      else if s.heap[u.previous] == 0 then s
      else Put(s, a.t, u.(pc := FreeOld))
    case FreeOld =>
      if u.previous !in s.heap then Fail(s)
      else Put(s, a.t, u.(pc := Load)).(heap := s.heap - {u.previous}, passed := s.passed + 1)
    case Load => Put(s, a.t, u.(pc := Store, register := s.counter))
    case Store => Put(s, a.t, u.(pc := Release)).(counter := u.register + 1)
    case Release =>
      if u.x in s.heap then Put(s, a.t, u.(pc := Outside)).(heap := s.heap[u.x := 1], released := s.released + 1)
      else Fail(s)
  }

  ghost predicate Next(s: State, s': State) {
    exists a :: Enabled(s, a) && s' == Step(s, a)
  }

  ghost predicate StepAt(run: seq<State>, k: nat) {
    0 < k < |run| ==> Next(run[k - 1], run[k])
  }

  ghost predicate IsRun(n: nat, run: seq<State>) {
    run != [] && run[0] == Initial(n) && forall k: nat :: StepAt(run, k)
  }

  // ---------- the invariant ----------

  predicate Inside(pc: Pc) { pc.Load? || pc.Store? || pc.Release? }

  predicate Queued(pc: Pc) { pc.Spin? || pc.FreeOld? || Inside(pc) }

  predicate Private(pc: Pc) { pc.Init? || pc.Swap? }

  ghost predicate ThreadAt(s: State, t: nat)
    requires |s.cells| == |s.order|
  {
    t < |s.threads| ==>
      var u := s.threads[t];
      && (Queued(u.pc) ==>
           && s.released <= u.ticket < |s.order|
           && s.order[u.ticket] == t && s.cells[u.ticket] == u.x)
      && (u.pc.Spin? || u.pc.FreeOld? ==> 0 < u.ticket && s.passed <= u.ticket && s.cells[u.ticket - 1] == u.previous)
      && (u.pc.FreeOld? ==> u.ticket == s.released)
      && (Inside(u.pc) ==> u.ticket < s.passed)
      && (u.pc.Store? ==> u.register == s.counter)
      && (Private(u.pc) ==> u.x in s.heap)
      && (u.pc.Swap? ==> s.heap[u.x] == 0)
  }

  /** The swap in position k belongs to a thread that is still in the queue, unless it has released the lock. */
  ghost predicate OrderAt(s: State, k: nat) {
    k < |s.order| ==>
      && s.order[k] < |s.threads|
      && (s.released <= k ==> Queued(s.threads[s.order[k]].pc) && s.threads[s.order[k]].ticket == k)
      && (s.released <= k < s.passed ==> Inside(s.threads[s.order[k]].pc))
  }

  /** The cell of a swap lives until the successor has passed, and says whether the lock was released. */
  ghost predicate CellAt(s: State, k: nat) {
    k < |s.cells| && s.passed <= k + 1 ==>
      s.cells[k] in s.heap && s.heap[s.cells[k]] == (if k < s.released then 1 else 0)
  }

  ghost predicate ApartAt(s: State, j: nat, k: nat) {
    j < k < |s.cells| && s.passed <= j + 1 ==> s.cells[j] != s.cells[k]
  }

  ghost predicate PrivateAt(s: State, t: nat, k: nat) {
    t < |s.threads| && k < |s.cells| && Private(s.threads[t].pc) && s.passed <= k + 1 ==> s.cells[k] != s.threads[t].x
  }

  ghost predicate OwnAt(s: State, t: nat, u: nat) {
    t < u < |s.threads| && Private(s.threads[t].pc) && Private(s.threads[u].pc) ==> s.threads[t].x != s.threads[u].x
  }

  /** Nothing is live but the cells of the queue and those not yet in it. */
  ghost predicate LiveAt(s: State, p: nat) {
    p in s.heap ==>
      || (exists k :: 0 <= k < |s.cells| && s.passed <= k + 1 && s.cells[k] == p)
      || (exists t :: 0 <= t < |s.threads| && Private(s.threads[t].pc) && s.threads[t].x == p)
  }

  /** Somebody stored and has not released yet. */
  predicate Stored(s: State) {
    s.released < |s.order| && s.order[s.released] < |s.threads| && s.threads[s.order[s.released]].pc.Release?
  }

  ghost predicate Inv(s: State) {
    && !s.fault && |s.cells| == |s.order|
    && s.released <= s.passed <= s.released + 1 && s.passed <= |s.order|
    && (s.order != [] ==> s.passed > 0)
    && s.tail == (if s.cells == [] then None else Some(s.cells[|s.cells| - 1]))
    && s.counter == s.released + (if Stored(s) then 1 else 0)
    && (forall t: nat :: ThreadAt(s, t))
    && (forall k: nat :: OrderAt(s, k))
    && (forall k: nat :: CellAt(s, k))
    && (forall j: nat, k: nat :: ApartAt(s, j, k))
    && (forall t: nat, k: nat :: PrivateAt(s, t, k))
    && (forall t: nat, u: nat :: OwnAt(s, t, u))
    && (forall p: nat :: LiveAt(s, p))
  }
}

module QueueLockProof {
  import opened Optional
  import opened QueueLock

  lemma InitialInv(n: nat)
    ensures Inv(Initial(n))
  {
  }

  lemma AllocateStep(s: State, a: Action)
    requires Inv(s) && Enabled(s, a) && s.threads[a.t].pc.Outside?
    ensures Inv(Step(s, a))
  {
    var s' := Step(s, a);
    forall t: nat ensures ThreadAt(s', t) { assert ThreadAt(s, t); }
    forall k: nat ensures OrderAt(s', k) { assert OrderAt(s, k); }
    forall k: nat ensures CellAt(s', k) { assert CellAt(s, k); }
    forall j: nat, k: nat ensures ApartAt(s', j, k) { assert ApartAt(s, j, k); }
    forall t: nat, k: nat ensures PrivateAt(s', t, k) { assert PrivateAt(s, t, k) && CellAt(s, k); }
    forall t: nat, u: nat ensures OwnAt(s', t, u) { assert OwnAt(s, t, u) && ThreadAt(s, t) && ThreadAt(s, u); }
    forall p: nat ensures LiveAt(s', p) { AllocateKeepsLive(s, a, p); }
    assert OrderAt(s, s.released);
  }

  lemma AllocateKeepsLive(s: State, a: Action, p: nat)
    requires Inv(s) && Enabled(s, a) && s.threads[a.t].pc.Outside?
    ensures LiveAt(Step(s, a), p)
  {
    var s' := Step(s, a);
    assert LiveAt(s, p);
    assert Private(s'.threads[a.t].pc) && s'.threads[a.t].x == a.p;
    if p in s.heap && exists t :: 0 <= t < |s.threads| && Private(s.threads[t].pc) && s.threads[t].x == p {
      var t :| 0 <= t < |s.threads| && Private(s.threads[t].pc) && s.threads[t].x == p;
      assert s'.threads[t] == s.threads[t];
    }
  }

  /** A thread that keeps its cell changes nothing about what is live. */
  lemma SameLive(s: State, s': State, t: nat, p: nat)
    requires LiveAt(s, p) && t < |s.threads| && |s'.threads| == |s.threads|
      && s'.threads == s.threads[t := s'.threads[t]]
    requires s'.cells == s.cells && s'.passed == s.passed && s'.heap.Keys == s.heap.Keys
    requires Private(s.threads[t].pc) ==> Private(s'.threads[t].pc) && s'.threads[t].x == s.threads[t].x
    ensures LiveAt(s', p)
  {
    if p in s.heap && exists j :: 0 <= j < |s.threads| && Private(s.threads[j].pc) && s.threads[j].x == p {
      var j :| 0 <= j < |s.threads| && Private(s.threads[j].pc) && s.threads[j].x == p;
      assert Private(s'.threads[j].pc) && s'.threads[j].x == p;
    }
  }

  lemma InitStep(s: State, a: Action)
    requires Inv(s) && Enabled(s, a) && s.threads[a.t].pc.Init?
    ensures Inv(Step(s, a))
  {
    var s' := Step(s, a);
    assert ThreadAt(s, a.t);
    forall t: nat ensures ThreadAt(s', t) { assert ThreadAt(s, t) && OwnAt(s, t, a.t) && OwnAt(s, a.t, t); }
    forall k: nat ensures OrderAt(s', k) { assert OrderAt(s, k); }
    forall k: nat ensures CellAt(s', k) { assert CellAt(s, k) && PrivateAt(s, a.t, k); }
    forall j: nat, k: nat ensures ApartAt(s', j, k) { assert ApartAt(s, j, k); }
    forall t: nat, k: nat ensures PrivateAt(s', t, k) { assert PrivateAt(s, t, k); }
    forall t: nat, u: nat ensures OwnAt(s', t, u) { assert OwnAt(s, t, u); }
    forall p: nat ensures LiveAt(s', p) { assert LiveAt(s, p); SameLive(s, s', a.t, p); }
    assert OrderAt(s, s.released);
  }

  lemma SwapKeepsLive(s: State, a: Action, p: nat)
    requires Inv(s) && Enabled(s, a) && s.threads[a.t].pc.Swap?
    ensures LiveAt(Step(s, a), p)
  {
    var s' := Step(s, a);
    assert LiveAt(s, p);
    if p in s.heap {
      if k :| 0 <= k < |s.cells| && s.passed <= k + 1 && s.cells[k] == p {
        assert s'.cells[k] == p;
      } else {
        var t :| 0 <= t < |s.threads| && Private(s.threads[t].pc) && s.threads[t].x == p;
        if t == a.t {
          assert s'.cells[|s.cells|] == p;
        } else {
          assert s'.threads[t] == s.threads[t];
        }
      }
    }
  }

  lemma SwapStep(s: State, a: Action)
    requires Inv(s) && Enabled(s, a) && s.threads[a.t].pc.Swap?
    ensures Inv(Step(s, a))
  {
    var s' := Step(s, a);
    assert ThreadAt(s, a.t);
    forall t: nat ensures ThreadAt(s', t) { assert ThreadAt(s, t); }
    forall k: nat ensures OrderAt(s', k) { assert OrderAt(s, k); }
    forall k: nat ensures CellAt(s', k) { assert CellAt(s, k); }
    forall j: nat, k: nat ensures ApartAt(s', j, k) { assert ApartAt(s, j, k) && PrivateAt(s, a.t, j); }
    forall t: nat, k: nat ensures PrivateAt(s', t, k) {
      assert PrivateAt(s, t, k) && OwnAt(s, t, a.t) && OwnAt(s, a.t, t);
    }
    forall t: nat, u: nat ensures OwnAt(s', t, u) { assert OwnAt(s, t, u); }
    forall p: nat ensures LiveAt(s', p) { SwapKeepsLive(s, a, p); }
    assert OrderAt(s, s.released);
  }

  lemma SpinStep(s: State, a: Action)
    requires Inv(s) && Enabled(s, a) && s.threads[a.t].pc.Spin?
    ensures Inv(Step(s, a))
  {
    var s' := Step(s, a);
    assert ThreadAt(s, a.t);
    assert CellAt(s, s.threads[a.t].ticket - 1);
    forall t: nat ensures ThreadAt(s', t) { assert ThreadAt(s, t); }
    forall k: nat ensures OrderAt(s', k) { assert OrderAt(s, k); }
    forall k: nat ensures CellAt(s', k) { assert CellAt(s, k); }
    forall j: nat, k: nat ensures ApartAt(s', j, k) { assert ApartAt(s, j, k); }
    forall t: nat, k: nat ensures PrivateAt(s', t, k) { assert PrivateAt(s, t, k); }
    forall t: nat, u: nat ensures OwnAt(s', t, u) { assert OwnAt(s, t, u); }
    forall p: nat ensures LiveAt(s', p) { assert LiveAt(s, p); SameLive(s, s', a.t, p); }
    assert OrderAt(s, s.released);
  }

  lemma FreeKeepsLive(s: State, a: Action, p: nat)
    requires Inv(s) && Enabled(s, a) && s.threads[a.t].pc.FreeOld?
    ensures LiveAt(Step(s, a), p)
  {
    var s', u := Step(s, a), s.threads[a.t];
    assert ThreadAt(s, a.t) && LiveAt(s, p);
    if p in s'.heap {
      if k :| 0 <= k < |s.cells| && s.passed <= k + 1 && s.cells[k] == p {
        assert k != u.ticket - 1;
        assert s'.passed <= k + 1 && s'.cells[k] == p;
      } else {
        var t :| 0 <= t < |s.threads| && Private(s.threads[t].pc) && s.threads[t].x == p;
        assert s'.threads[t] == s.threads[t];
      }
    }
  }

  lemma FreeStep(s: State, a: Action)
    requires Inv(s) && Enabled(s, a) && s.threads[a.t].pc.FreeOld?
    ensures Inv(Step(s, a))
  {
    var s', u := Step(s, a), s.threads[a.t];
    assert ThreadAt(s, a.t);
    assert CellAt(s, u.ticket - 1) && OrderAt(s, u.ticket);
    forall t: nat ensures ThreadAt(s', t) {
      assert ThreadAt(s, t) && PrivateAt(s, t, u.ticket - 1);
    }
    forall k: nat ensures OrderAt(s', k) { assert OrderAt(s, k); }
    forall k: nat ensures CellAt(s', k) { assert CellAt(s, k) && ApartAt(s, u.ticket - 1, k); }
    forall j: nat, k: nat ensures ApartAt(s', j, k) { assert ApartAt(s, j, k); }
    forall t: nat, k: nat ensures PrivateAt(s', t, k) { assert PrivateAt(s, t, k); }
    forall t: nat, v: nat ensures OwnAt(s', t, v) { assert OwnAt(s, t, v); }
    forall p: nat ensures LiveAt(s', p) { FreeKeepsLive(s, a, p); }
    assert OrderAt(s, s.released);
  }

  lemma CountStep(s: State, a: Action)
    requires Inv(s) && Enabled(s, a) && (s.threads[a.t].pc.Load? || s.threads[a.t].pc.Store?)
    ensures Inv(Step(s, a))
  {
    var s' := Step(s, a);
    assert ThreadAt(s, a.t);
    forall t: nat ensures ThreadAt(s', t) { assert ThreadAt(s, t); }
    forall k: nat ensures OrderAt(s', k) { assert OrderAt(s, k); }
    forall k: nat ensures CellAt(s', k) { assert CellAt(s, k); }
    forall j: nat, k: nat ensures ApartAt(s', j, k) { assert ApartAt(s, j, k); }
    forall t: nat, k: nat ensures PrivateAt(s', t, k) { assert PrivateAt(s, t, k); }
    forall t: nat, u: nat ensures OwnAt(s', t, u) { assert OwnAt(s, t, u); }
    forall p: nat ensures LiveAt(s', p) { assert LiveAt(s, p); SameLive(s, s', a.t, p); }
    assert OrderAt(s, s.released);
  }

  lemma ReleaseStep(s: State, a: Action)
    requires Inv(s) && Enabled(s, a) && s.threads[a.t].pc.Release?
    ensures Inv(Step(s, a))
  {
    var s', u := Step(s, a), s.threads[a.t];
    assert ThreadAt(s, a.t);
    assert CellAt(s, u.ticket);
    forall t: nat ensures ThreadAt(s', t) { assert ThreadAt(s, t) && PrivateAt(s, t, u.ticket); }
    forall k: nat ensures OrderAt(s', k) { assert OrderAt(s, k); }
    forall k: nat ensures CellAt(s', k) { assert CellAt(s, k) && ApartAt(s, u.ticket, k) && ApartAt(s, k, u.ticket); }
    forall j: nat, k: nat ensures ApartAt(s', j, k) { assert ApartAt(s, j, k); }
    forall t: nat, k: nat ensures PrivateAt(s', t, k) { assert PrivateAt(s, t, k); }
    forall t: nat, v: nat ensures OwnAt(s', t, v) { assert OwnAt(s, t, v); }
    forall p: nat ensures LiveAt(s', p) { assert LiveAt(s, p); SameLive(s, s', a.t, p); }
    assert OrderAt(s, s.released) && OrderAt(s, s'.released);
    if s'.released < |s.order| {
      assert ThreadAt(s, s.order[s'.released]);
    }
  }

  lemma StepInv(s: State, a: Action)
    requires Inv(s) && Enabled(s, a)
    ensures Inv(Step(s, a))
  {
    match s.threads[a.t].pc
    case Outside => AllocateStep(s, a);
    case Init => InitStep(s, a);
    case Swap => SwapStep(s, a);
    case Spin => SpinStep(s, a);
    case FreeOld => FreeStep(s, a);
    case Load => CountStep(s, a);
    case Store => CountStep(s, a);
    case Release => ReleaseStep(s, a);
  }

  lemma {:induction false} RunInv(n: nat, run: seq<State>, k: nat)
    requires IsRun(n, run) && k < |run|
    ensures Inv(run[k])
  {
    if k == 0 {
      InitialInv(n);
    } else {
      RunInv(n, run, k - 1);
      assert StepAt(run, k);
      var a :| Enabled(run[k - 1], a) && run[k] == Step(run[k - 1], a);
      StepInv(run[k - 1], a);
    }
  }

  // ---------- what the lock promises ----------

  /** No run touches or frees a dead cell. */
  lemma RunsNeverFault(n: nat, run: seq<State>, k: nat)
    requires IsRun(n, run) && k < |run|
    ensures !run[k].fault
  {
    RunInv(n, run, k);
  }

  /** A cell is freed by the successor of its owner, while it is live and after the owner has released it. */
  lemma FreedBySuccessor(n: nat, run: seq<State>, k: nat, t: nat)
    requires IsRun(n, run) && k < |run| && t < |run[k].threads| && run[k].threads[t].pc.FreeOld?
    ensures var s, u := run[k], run[k].threads[t];
      && 0 < u.ticket < |s.cells| == |s.order| && s.order[u.ticket] == t
      && u.previous == s.cells[u.ticket - 1] && u.ticket - 1 < s.released
      && u.previous in s.heap && s.heap[u.previous] == 1
  {
    RunInv(n, run, k);
    assert ThreadAt(run[k], t) && CellAt(run[k], run[k].threads[t].ticket - 1);
  }

  /** Only that step takes a cell out of the heap, and it takes no other: the cell of the last thread released. */
  lemma FreedOnce(n: nat, run: seq<State>, k: nat, p: nat)
    requires IsRun(n, run) && 0 < k < |run| && p in run[k - 1].heap && p !in run[k].heap
    ensures run[k].passed == run[k - 1].passed + 1 && 0 < run[k - 1].released == run[k - 1].passed
    ensures run[k - 1].released <= |run[k - 1].cells| && p == run[k - 1].cells[run[k - 1].released - 1]
  {
    RunInv(n, run, k - 1);
    assert StepAt(run, k);
    var a :| Enabled(run[k - 1], a) && run[k] == Step(run[k - 1], a);
    assert ThreadAt(run[k - 1], a.t);
  }

  lemma MutualExclusion(n: nat, run: seq<State>, k: nat, t: nat, u: nat)
    requires IsRun(n, run) && k < |run| && t < |run[k].threads| && u < |run[k].threads|
    requires Inside(run[k].threads[t].pc) && Inside(run[k].threads[u].pc)
    ensures t == u
  {
    RunInv(n, run, k);
    assert ThreadAt(run[k], t) && ThreadAt(run[k], u);
  }

  /** The lock is granted in the order of the swaps: whoever is inside made the swap that follows those of
      the threads that have released. */
  lemma FirstComeFirstServed(n: nat, run: seq<State>, k: nat, t: nat)
    requires IsRun(n, run) && k < |run| && t < |run[k].threads| && Inside(run[k].threads[t].pc)
    ensures run[k].released < |run[k].order| && run[k].order[run[k].released] == t
  {
    RunInv(n, run, k);
    assert ThreadAt(run[k], t);
  }

  /** No increment is lost: outside all critical sections the counter is the number of sections completed. */
  lemma CounterExact(n: nat, run: seq<State>, k: nat)
    requires IsRun(n, run) && k < |run|
    requires forall t :: 0 <= t < |run[k].threads| ==> !Inside(run[k].threads[t].pc)
    ensures run[k].counter == run[k].released
  {
    RunInv(n, run, k);
  }

  /** When everybody is outside, every swap has been served and exactly one cell, the last, is still live. */
  lemma OneCellRemains(n: nat, run: seq<State>, k: nat)
    requires IsRun(n, run) && k < |run|
    requires forall t :: 0 <= t < |run[k].threads| ==> run[k].threads[t].pc.Outside?
    ensures run[k].released == |run[k].order| == run[k].counter
    ensures run[k].heap.Keys == if run[k].tail.None? then {} else {run[k].tail.value}
  {
    var s := run[k];
    RunInv(n, run, k);
    assert OrderAt(s, s.released);
    if s.cells != [] {
      assert CellAt(s, |s.cells| - 1);
    }
    forall p: nat ensures p in s.heap <==> s.tail == Some(p) { assert LiveAt(s, p); }
  }

  /** The thread whose step takes it out of its present state, for every state with somebody in the queue. */
  lemma QueueMovesOn(n: nat, run: seq<State>, k: nat) returns (a: Action)
    requires IsRun(n, run) && k < |run| && run[k].released < |run[k].order|
    ensures Enabled(run[k], a) && Step(run[k], a).threads[a.t].pc != run[k].threads[a.t].pc
    ensures a.t == run[k].order[run[k].released]
  {
    var s := run[k];
    RunInv(n, run, k);
    assert OrderAt(s, s.released);
    a := Action(s.order[s.released], 0);
    assert ThreadAt(s, a.t);
    StepInv(s, a);
    if s.threads[a.t].pc.Spin? {
      assert CellAt(s, s.released - 1);
    }
  }
}
