/**
 A thread of the lock-coupling list that runs while nobody else holds a lock returns.
 */
module FineGrainedAlone {
  import opened Optional
  import opened SetSpec
  import opened FineGrainedList
  import opened FineGrainedProof

  ghost predicate UnheldAt(s: State, t: nat, n: nat) {
    n < |s.heap| ==> s.heap[n].owner == FREE || s.heap[n].owner == t
  }

  /** No other thread holds a lock. */
  ghost predicate Unhindered(s: State, t: nat) {
    forall n: nat :: UnheldAt(s, t, n)
  }

  /** A step of thread t inside its operation. */
  function StepOf(s: State, t: nat): State
    requires Shape(s) && t < |s.threads|
  {
    Step(s, Action(t, Contains(0)))
  }

  // ---------- a measure ----------

  /** The loop that goes hand over hand. */
  predicate Walking(pc: Pc) {
    pc.LockCurr? || pc.Test? || pc.UnlockBehind? || pc.Advance?
  }

  function Phase(pc: Pc): nat {
    if pc.LockHead? then 3 else if pc.ReadFirst? then 2 else if Walking(pc) then 1 else 0
  }

  /** How many keys the walk can still pass. */
  function Distance(s: State, t: nat): nat
    requires Shape(s) && t < |s.threads|
  {
    var d := if Walking(s.threads[t].pc) then INT_MAX - s.heap[s.threads[t].curr].key else 0;
    if d < 0 then 0 else d
  }

  function Stage(pc: Pc): nat {
    match pc
    case LockCurr => 4
    case Test => 3
    case UnlockBehind => 2
    case Advance => 1
    case Link => 7
    case SetNext => 6
    case ReadNext => 7
    case Unlink => 6
    case UnlockPrev => 5
    case UnlockCurr => 4
    case Free => 3
    case Return => 2
    case _ => 0
  }

  /** A step of the thread brings it closer to its return. */
  ghost predicate Closer(s: State, s': State, t: nat) {
    && Shape(s) && t < |s.threads| && Shape(s') && t < |s'.threads|
    && var pc, pc' := s.threads[t].pc, s'.threads[t].pc;
    && Phase(pc') <= Phase(pc)
    && (Phase(pc') == Phase(pc) ==>
         Distance(s', t) < Distance(s, t) || (Distance(s', t) == Distance(s, t) && Stage(pc') < Stage(pc)))
  }

  // ---------- one step ----------

  lemma LocksAreFree(s: State, t: nat)
    requires Inv(s) && t < |s.threads| && Unhindered(s, t)
    ensures s.threads[t].pc.LockHead? ==> s.heap[s.threads[t].prev].owner == FREE
    ensures s.threads[t].pc.LockCurr? ==> s.heap[s.threads[t].curr].owner == FREE
  {
    var u := s.threads[t];
    assert OwnerAt(s, u.prev) && OwnerAt(s, u.curr) && UnheldAt(s, t, u.prev) && UnheldAt(s, t, u.curr);
    if u.pc.LockCurr? {
      var p := AdjacentPosition(s, t);
    }
    hide Inv, Unhindered;
  }

  lemma LockCloser(s: State, t: nat)
    requires Inv(s) && t < |s.threads| && Unhindered(s, t)
    requires var pc := s.threads[t].pc; pc.LockHead? || pc.LockCurr? || pc.ReadFirst?
    ensures Closer(s, StepOf(s, t), t)
  {
    StepInv(s, Action(t, Contains(0)));
    LocksAreFree(s, t);
    assert Shape(s) && Shape(StepOf(s, t)) && !StepOf(s, t).fault;
    hide Inv, Unhindered;
  }

  lemma TestCloser(s: State, t: nat)
    requires Inv(s) && t < |s.threads| && (s.threads[t].pc.Test? || s.threads[t].pc.UnlockBehind?)
    ensures Closer(s, StepOf(s, t), t)
  {
    StepInv(s, Action(t, Contains(0)));
    assert Shape(s) && Shape(StepOf(s, t)) && !StepOf(s, t).fault;
    hide Inv;
  }

  lemma AdvanceCloser(s: State, t: nat)
    requires Inv(s) && t < |s.threads| && s.threads[t].pc.Advance?
    ensures Closer(s, StepOf(s, t), t)
  {
    StepInv(s, Action(t, Contains(0)));
    assert ThreadAt(s, t);
    var p := LockedIsWhole(s, t, s.threads[t].curr);
    assert SortedAt(s, p, p + 1) && SortedAt(s, p + 1, |s.chain| - 1);
    assert Shape(s) && Shape(StepOf(s, t)) && !StepOf(s, t).fault;
    hide Inv;
  }

  lemma WritesCloser(s: State, t: nat)
    requires Inv(s) && t < |s.threads|
    requires var pc := s.threads[t].pc; pc.Link? || pc.SetNext? || pc.ReadNext? || pc.Unlink?
    ensures Closer(s, StepOf(s, t), t)
  {
    StepInv(s, Action(t, Contains(0)));
    assert Shape(s) && Shape(StepOf(s, t)) && !StepOf(s, t).fault;
    hide Inv;
  }

  lemma UnlockCloser(s: State, t: nat)
    requires Inv(s) && t < |s.threads|
    requires var pc := s.threads[t].pc; pc.UnlockPrev? || pc.UnlockCurr? || pc.Free? || pc.Return?
    ensures Closer(s, StepOf(s, t), t)
  {
    StepInv(s, Action(t, Contains(0)));
    assert Shape(s) && Shape(StepOf(s, t)) && !StepOf(s, t).fault;
    hide Inv;
  }

  lemma StaysUnhindered(s: State, t: nat, n: nat)
    requires Shape(s) && t < |s.threads| && UnheldAt(s, t, n) && !s.threads[t].pc.Outside?
    ensures UnheldAt(StepOf(s, t), t, n)
  {
    hide InsertAfter, RemoveFrom;
    match s.threads[t].pc
    case LockHead =>
    case LockCurr =>
    case Test => hide SetOwner, SetNextOf;
    case Link => hide SetOwner;
    case SetNext => hide SetOwner;
    case Unlink => hide SetOwner;
    case _ => hide TestStep, SetNextOf;
  }

  lemma AloneStep(s: State, t: nat)
    requires Inv(s) && t < |s.threads| && Unhindered(s, t) && !s.threads[t].pc.Outside?
    ensures Inv(StepOf(s, t)) && Closer(s, StepOf(s, t), t) && Unhindered(StepOf(s, t), t)
  {
    StepInv(s, Action(t, Contains(0)));
    forall n: nat ensures UnheldAt(StepOf(s, t), t, n) {
      assert UnheldAt(s, t, n);
      StaysUnhindered(s, t, n);
    }
    hide Inv, Closer, Unhindered, StepOf;
    match s.threads[t].pc
    case LockHead => LockCloser(s, t);
    case ReadFirst => LockCloser(s, t);
    case LockCurr => LockCloser(s, t);
    case Test => TestCloser(s, t);
    case UnlockBehind => TestCloser(s, t);
    case Advance => AdvanceCloser(s, t);
    case UnlockPrev => UnlockCloser(s, t);
    case UnlockCurr => UnlockCloser(s, t);
    case Free => UnlockCloser(s, t);
    case Return => UnlockCloser(s, t);
    case _ => WritesCloser(s, t);
  }

  // ---------- the return ----------

  ghost predicate StepOfAt(run: seq<State>, t: nat, k: nat) {
    0 < k < |run| ==> Shape(run[k - 1]) && t < |run[k - 1].threads| && run[k] == StepOf(run[k - 1], t)
  }

  lemma {:induction false} AloneFrom(s: State, t: nat) returns (run: seq<State>)
    requires Inv(s) && t < |s.threads| && Unhindered(s, t)
    ensures run != [] && run[0] == s && forall k: nat :: StepOfAt(run, t, k)
    ensures var last := run[|run| - 1]; t < |last.threads| && last.threads[t].pc.Outside?
    decreases Phase(s.threads[t].pc), Distance(s, t), Stage(s.threads[t].pc)
  {
    if s.threads[t].pc.Outside? {
      run := [s];
    } else {
      AloneStep(s, t);
      hide Inv, StepOf, Unhindered;
      var rest := AloneFrom(StepOf(s, t), t);
      run := [s] + rest;
      forall k: nat ensures StepOfAt(run, t, k) {
        if k > 1 { assert StepOfAt(rest, t, k - 1); }
      }
    }
  }

  /** From every reachable state in which no other thread holds a lock, a thread that runs alone comes out of its
      operation. */
  lemma ReturnsAlone(run: seq<State>, k: nat, t: nat) returns (alone: seq<State>)
    requires IsRun(run) && k < |run| && t < |run[k].threads| && Unhindered(run[k], t)
    ensures alone != [] && alone[0] == run[k] && forall j: nat :: StepOfAt(alone, t, j)
    ensures var last := alone[|alone| - 1]; t < |last.threads| && last.threads[t].pc.Outside?
  {
    RunInv(run, k);
    alone := AloneFrom(run[k], t);
  }
}
