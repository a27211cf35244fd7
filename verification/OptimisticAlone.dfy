/**
 A thread of the optimistic list that runs while nobody else holds a lock returns: it retries at most once.
 */
module OptimisticAlone {
  import opened SetSpec
  import opened OptimisticList
  import opened OptimisticProof

  ghost predicate UnheldAt(s: State, t: nat, n: nat) {
    n < |s.heap| ==> s.heap[n].owner == FREE || s.heap[n].owner == t
  }

  /** No other thread holds a lock. */
  ghost predicate Unhindered(s: State, t: nat) {
    forall n: nat :: UnheldAt(s, t, n)
  }

  /** A step of thread t inside its operation. */
  function StepOf(s: State, t: nat): State
    requires Shape(s) && t < |s.threads|
  {
    Step(s, Action(t, Contains(0)))
  }

  // ---------- a measure ----------

  /** The thread will not fail its validation: what it has found is linked and neighbouring, and a validation under way
      has not passed it. */
  ghost predicate Straight(s: State, t: nat)
    requires Shape(s) && t < |s.threads|
  {
    var u := s.threads[t];
    match u.pc
    case Walk => u.prev in s.chain && s.heap[u.prev].next == u.curr
    case LockPrev => u.prev in s.chain && s.heap[u.prev].next == u.curr
    case LockCurr => u.prev in s.chain && s.heap[u.prev].next == u.curr
    case BeginValidate => u.prev in s.chain && s.heap[u.prev].next == u.curr
    case Validate =>
      && u.prev in s.chain && s.heap[u.prev].next == u.curr
      && u.it in s.chain && s.heap[u.it].key <= s.heap[u.prev].key
    case RetryUnlockPrev => false
    case RetryUnlockCurr => false
    case _ => true
  }

  function Stage(pc: Pc): nat {
    match pc
    case Begin => 12
    case Walk => 11
    case LockPrev => 10
    case LockCurr => 9
    case BeginValidate => 8
    case Validate => 7
    case RetryUnlockPrev => 6
    case RetryUnlockCurr => 5
    case Decide => 6
    case SetNext => 5
    case ReadNext => 5
    case Link => 4
    case Unlink => 4
    case UnlockPrev => 3
    case UnlockCurr => 2
    case Return => 1
    case Outside => 0
  }

  /** How many keys the walk under way can still pass. */
  function Distance(s: State, t: nat): nat
    requires Shape(s) && t < |s.threads|
  {
    var u := s.threads[t];
    var d := if u.pc.Walk? then INT_MAX - s.heap[u.curr].key
             else if u.pc.Validate? then INT_MAX - s.heap[u.it].key else 0;
    if d < 0 then 0 else d
  }

  /** A step of the thread brings it closer to its return. */
  ghost predicate Closer(s: State, s': State, t: nat) {
    && Shape(s) && t < |s.threads| && Shape(s') && t < |s'.threads|
    && (Straight(s, t) ==> Straight(s', t))
    && (Straight(s', t) == Straight(s, t) ==>
         var pc, pc' := s.threads[t].pc, s'.threads[t].pc;
         Stage(pc') < Stage(pc) || (Stage(pc') == Stage(pc) && Distance(s', t) < Distance(s, t)))
  }

  // ---------- one step ----------

  lemma LocksAreFree(s: State, t: nat)
    requires Inv(s) && t < |s.threads| && Unhindered(s, t)
    ensures s.threads[t].pc.LockPrev? ==> s.heap[s.threads[t].prev].owner == FREE
    ensures s.threads[t].pc.LockCurr? ==> s.heap[s.threads[t].curr].owner == FREE
  {
    var u := s.threads[t];
    assert ThreadAt(s, t) && OwnerAt(s, u.prev) && OwnerAt(s, u.curr);
    assert UnheldAt(s, t, u.prev) && UnheldAt(s, t, u.curr);
    hide Inv, Unhindered;
  }

  /** The node after one in the chain. */
  lemma NextInChain(s: State, n: nat)
    requires Inv(s) && n in s.chain && n != TAIL
    ensures n < |s.heap| && s.heap[n].next in s.chain && s.heap[n].key < s.heap[s.heap[n].next].key <= INT_MAX
    ensures forall m :: m in s.chain && m < |s.heap| && s.heap[n].key < s.heap[m].key ==>
      s.heap[s.heap[n].next].key <= s.heap[m].key
  {
    var p := Index(s.chain, n);
    assert LinkAt(s, p) && SortedAt(s, p, p + 1) && SortedAt(s, p + 1, |s.chain| - 1);
    forall m | m in s.chain && m < |s.heap| && s.heap[n].key < s.heap[m].key
      ensures s.heap[s.heap[n].next].key <= s.heap[m].key
    {
      var q := Index(s.chain, m);
      assert SortedAt(s, q, p) && SortedAt(s, p + 1, q);
    }
  }

  lemma BeginCloser(s: State, t: nat)
    requires Inv(s) && t < |s.threads| && s.threads[t].pc.Begin?
    ensures Closer(s, StepOf(s, t), t)
  {
    StepInv(s, Action(t, Contains(0)));
    assert StepOf(s, t).chain[0] == HEAD;
  }

  lemma WalkCloser(s: State, t: nat)
    requires Inv(s) && t < |s.threads| && s.threads[t].pc.Walk?
    ensures Closer(s, StepOf(s, t), t)
  {
    StepInv(s, Action(t, Contains(0)));
    var u, s' := s.threads[t], StepOf(s, t);
    assert ThreadAt(s, t);
    if s.heap[u.curr].key < u.op.key {
      NextAlive(s, u.curr, 0);
      AliveInHeap(s, s.heap[u.curr].next, 0);
      if Straight(s, t) {
        NextInChain(s, u.prev);
      }
    }
    assert Shape(s) && Shape(s');
    hide Inv;
  }

  lemma ValidateCloser(s: State, t: nat)
    requires Inv(s) && t < |s.threads| && s.threads[t].pc.Validate?
    ensures Closer(s, StepOf(s, t), t)
  {
    StepInv(s, Action(t, Contains(0)));
    var u, s' := s.threads[t], StepOf(s, t);
    assert ThreadAt(s, t) && ValidationAt(s, t);
    if Straight(s, t) && u.it != u.prev {
      SameKeySameNode(s, u.it, u.prev);
      NextInChain(s, u.it);
    }
    if s.heap[u.it].key <= s.heap[u.prev].key && u.it != u.prev {
      AliveInHeap(s, u.it, u.mark);
      NextAlive(s, u.it, u.mark);
      AliveInHeap(s, s.heap[u.it].next, u.mark);
    }
    assert Shape(s) && Shape(s');
    hide Inv;
  }

  lemma SameKeySameNode(s: State, m: nat, n: nat)
    requires Inv(s) && m in s.chain && n in s.chain && m != n
    ensures m < |s.heap| && n < |s.heap| && s.heap[m].key != s.heap[n].key
  {
    var p, q := Index(s.chain, m), Index(s.chain, n);
    assert SortedAt(s, p, q) && SortedAt(s, q, p);
  }

  lemma LockCloser(s: State, t: nat)
    requires Inv(s) && t < |s.threads| && Unhindered(s, t) && (s.threads[t].pc.LockPrev? || s.threads[t].pc.LockCurr?)
    ensures Closer(s, StepOf(s, t), t)
  {
    StepInv(s, Action(t, Contains(0)));
    LocksAreFree(s, t);
    assert Shape(s) && Shape(StepOf(s, t));
    hide Inv, Unhindered;
  }

  lemma BeginValidateCloser(s: State, t: nat)
    requires Inv(s) && t < |s.threads| && s.threads[t].pc.BeginValidate?
    ensures Closer(s, StepOf(s, t), t)
  {
    StepInv(s, Action(t, Contains(0)));
    assert s.chain[0] == HEAD;
    if Straight(s, t) {
      assert SortedAt(s, 0, Index(s.chain, s.threads[t].prev));
    }
    assert Shape(s) && Shape(StepOf(s, t));
    hide Inv;
  }

  predicate Retries(pc: Pc) {
    pc.RetryUnlockPrev? || pc.RetryUnlockCurr?
  }

  lemma RetryCloser(s: State, t: nat)
    requires Inv(s) && t < |s.threads| && Retries(s.threads[t].pc)
    ensures Closer(s, StepOf(s, t), t)
  {
    StepInv(s, Action(t, Contains(0)));
    assert Shape(s) && Shape(StepOf(s, t));
    hide Inv;
  }

  lemma ValidatedCloser(s: State, t: nat)
    requires Inv(s) && t < |s.threads| && Validated(s.threads[t].pc)
    ensures Closer(s, StepOf(s, t), t)
  {
    StepInv(s, Action(t, Contains(0)));
    assert Shape(s) && Shape(StepOf(s, t));
    hide Inv;
  }

  lemma EffectiveCloser(s: State, t: nat)
    requires Inv(s) && t < |s.threads| && Effective(s.threads[t].pc)
    ensures Closer(s, StepOf(s, t), t)
  {
    StepInv(s, Action(t, Contains(0)));
    assert Shape(s) && Shape(StepOf(s, t));
    hide Inv;
  }

  lemma StaysUnhindered(s: State, t: nat, n: nat)
    requires Shape(s) && t < |s.threads| && UnheldAt(s, t, n) && !s.threads[t].pc.Outside?
    ensures UnheldAt(StepOf(s, t), t, n)
  {
    hide InsertAfter, RemoveFrom;
  }

  lemma AloneStep(s: State, t: nat)
    requires Inv(s) && t < |s.threads| && Unhindered(s, t) && !s.threads[t].pc.Outside?
    ensures Inv(StepOf(s, t)) && Closer(s, StepOf(s, t), t) && Unhindered(StepOf(s, t), t)
  {
    StepInv(s, Action(t, Contains(0)));
    forall n: nat ensures UnheldAt(StepOf(s, t), t, n) {
      assert UnheldAt(s, t, n);
      StaysUnhindered(s, t, n);
    }
    hide Inv, Closer, Unhindered, StepOf;
    match s.threads[t].pc
    case Begin => BeginCloser(s, t);
    case Walk => WalkCloser(s, t);
    case Validate => ValidateCloser(s, t);
    case LockPrev => LockCloser(s, t);
    case LockCurr => LockCloser(s, t);
    case BeginValidate => BeginValidateCloser(s, t);
    case RetryUnlockPrev => RetryCloser(s, t);
    case RetryUnlockCurr => RetryCloser(s, t);
    case UnlockPrev => EffectiveCloser(s, t);
    case UnlockCurr => EffectiveCloser(s, t);
    case Return => EffectiveCloser(s, t);
    case _ => ValidatedCloser(s, t);
  }

  // ---------- the return ----------

  ghost predicate StepOfAt(run: seq<State>, t: nat, k: nat) {
    0 < k < |run| ==> Shape(run[k - 1]) && t < |run[k - 1].threads| && run[k] == StepOf(run[k - 1], t)
  }

  lemma {:induction false} AloneFrom(s: State, t: nat) returns (run: seq<State>)
    requires Inv(s) && t < |s.threads| && Unhindered(s, t)
    ensures run != [] && run[0] == s && forall k: nat :: StepOfAt(run, t, k)
    ensures var last := run[|run| - 1]; t < |last.threads| && last.threads[t].pc.Outside?
    decreases !Straight(s, t), Stage(s.threads[t].pc), Distance(s, t)
  {
    if s.threads[t].pc.Outside? {
      run := [s];
    } else {
      AloneStep(s, t);
      hide Inv, StepOf, Unhindered;
      var rest := AloneFrom(StepOf(s, t), t);
      run := [s] + rest;
      forall k: nat ensures StepOfAt(run, t, k) {
        if k > 1 { assert StepOfAt(rest, t, k - 1); }
      }
    }
  }

  /** From every reachable state in which no other thread holds a lock, a thread that runs alone comes out of its
      operation: neither its walks nor its retries go on for ever. */
  lemma ReturnsAlone(run: seq<State>, k: nat, t: nat) returns (alone: seq<State>)
    requires IsRun(run) && k < |run| && t < |run[k].threads| && Unhindered(run[k], t)
    ensures alone != [] && alone[0] == run[k] && forall j: nat :: StepOfAt(alone, t, j)
    ensures var last := alone[|alone| - 1]; t < |last.threads| && last.threads[t].pc.Outside?
  {
    RunInv(run, k);
    alone := AloneFrom(run[k], t);
  }
}
