/**
 The lock-coupling list keeps its structure in every run.
 */
module FineGrainedProof {
  import opened Optional
  import opened SetSpec
  import opened FineGrainedList

  // ---------- the invariant ----------

  predicate HoldsPrev(pc: Pc) {
    pc.ReadFirst? || pc.LockCurr? || pc.Test? || pc.UnlockBehind? || pc.Link? || pc.SetNext?
    || pc.ReadNext? || pc.Unlink? || pc.UnlockPrev?
  }

  predicate HoldsCurr(pc: Pc) {
    pc.Test? || pc.UnlockBehind? || pc.Advance? || pc.Link? || pc.SetNext?
    || pc.ReadNext? || pc.Unlink? || pc.UnlockPrev? || pc.UnlockCurr?
  }

  /** `prev` is locked and `curr` is its successor. */
  predicate Adjacent(pc: Pc) {
    pc.LockCurr? || pc.Test? || pc.UnlockBehind? || pc.Link? || pc.ReadNext? || pc.Unlink?
  }

  /** The thread has unlinked `curr` and not freed it yet. */
  predicate Detached(u: Thread) {
    MustFree(u) && (u.pc.UnlockPrev? || u.pc.UnlockCurr? || u.pc.Free?)
  }

  /** list_add has allocated its node and has not linked it. */
  predicate Private(u: Thread) {
    u.op.Add? && !u.pc.Outside? && !Effective(u.pc)
  }

  /** The new node is linked and its `next` is still unset. */
  ghost predicate HalfLinked(s: State, n: nat, c: nat) {
    exists t :: 0 <= t < |s.threads| && s.threads[t].pc.SetNext? && s.threads[t].node == n && s.threads[t].curr == c
  }

  ghost predicate LinkAt(s: State, p: nat)
    requires Shape(s)
  {
    p < |s.chain| ==>
      && s.chain[p] < |s.heap|
      && !s.heap[s.chain[p]].freed
      && (p + 1 < |s.chain| ==>
           s.heap[s.chain[p]].next == Some(s.chain[p + 1]) || HalfLinked(s, s.chain[p], s.chain[p + 1]))
  }

  ghost predicate SortedAt(s: State, p: nat, q: nat)
    requires Shape(s)
  {
    p < q < |s.chain| ==>
      s.chain[p] < |s.heap| && s.chain[q] < |s.heap| && s.heap[s.chain[p]].key < s.heap[s.chain[q]].key
  }

  ghost predicate ChainInv(s: State)
    requires Shape(s)
  {
    && |s.chain| >= 2
    && s.chain[0] == HEAD && s.chain[|s.chain| - 1] == TAIL
    && s.heap[HEAD].key == INT_MIN && s.heap[TAIL].key == INT_MAX
    && (forall p: nat :: LinkAt(s, p))
    && (forall p: nat, q: nat :: SortedAt(s, p, q))
  }

  ghost predicate ThreadAt(s: State, t: nat)
    requires Shape(s)
  {
    t < |s.threads| ==>
      var u := s.threads[t];
      && ValidOp(u.op)
      && (u.pc.LockHead? || u.pc.ReadFirst? ==> u.prev == HEAD)
      && (HoldsPrev(u.pc) ==> s.heap[u.prev].owner == t && u.prev in s.chain && s.heap[u.prev].key < u.op.key)
      && (HoldsCurr(u.pc) ==> s.heap[u.curr].owner == t && !s.heap[u.curr].freed)
      && (HoldsPrev(u.pc) && HoldsCurr(u.pc) ==> u.prev != u.curr)
      && (Adjacent(u.pc) ==> s.heap[u.prev].next == Some(u.curr) && u.curr in s.chain)
      && (u.pc.UnlockBehind? || u.pc.Advance? ==> u.curr in s.chain && s.heap[u.curr].key < u.op.key)
  }

  ghost predicate EffectAt(s: State, t: nat)
    requires Shape(s)
  {
    t < |s.threads| ==>
      var u := s.threads[t];
      && (Private(u) ==> u.node !in s.chain)
      && (Private(u) || u.pc.SetNext? ==>
           s.heap[u.node].key == u.op.key && s.heap[u.node].next == None && s.heap[u.node].owner == FREE
             && !s.heap[u.node].freed)
      && (u.pc.Link? || u.pc.SetNext? ==> u.op.Add? && u.op.key < s.heap[u.curr].key)
      && (u.pc.SetNext? ==> s.heap[u.prev].next == Some(u.node) && u.curr in s.chain)
      && (u.pc.ReadNext? || u.pc.Unlink? ==> u.op.Remove? && s.heap[u.curr].key == u.op.key)
      && (u.pc.Unlink? ==> s.heap[u.curr].next == Some(u.succ))
      && (Detached(u) ==> u.curr !in s.chain && !s.heap[u.curr].freed)
      && (u.pc.Free? ==> MustFree(u) && s.heap[u.curr].owner == FREE)
  }

  /** The nodes only one thread can touch are pairwise different. */
  ghost predicate PairAt(s: State, t: nat, j: nat) {
    t < |s.threads| && j < |s.threads| && t != j ==>
      var u, w := s.threads[t], s.threads[j];
      && ((Private(u) || u.pc.SetNext?) && (Private(w) || w.pc.SetNext?) ==> u.node != w.node)
      && (Private(u) && Detached(w) ==> u.node != w.curr)
      && (Detached(u) && Detached(w) ==> u.curr != w.curr)
  }

  ghost predicate OwnerAt(s: State, n: nat)
    requires Shape(s)
  {
    n < |s.heap| && s.heap[n].owner != FREE ==>
      && 0 <= s.heap[n].owner < |s.threads|
      && var u := s.threads[s.heap[n].owner];
      (HoldsPrev(u.pc) && u.prev == n) || (HoldsCurr(u.pc) && u.curr == n)
  }

  ghost predicate Inv(s: State) {
    && Shape(s)
    && !s.fault
    && ChainInv(s)
    && (forall t: nat :: ThreadAt(s, t))
    && (forall t: nat :: EffectAt(s, t))
    && (forall t: nat, j: nat :: PairAt(s, t, j))
    && (forall n: nat :: OwnerAt(s, n))
  }

  lemma InitialInv(n: nat)
    ensures Inv(Initial(n))
  {
  }

  // ---------- positions ----------

  lemma PositionUnique(s: State, p: nat, q: nat)
    requires Inv(s) && p < |s.chain| && q < |s.chain| && s.chain[p] == s.chain[q]
    ensures p == q
  {
    assert SortedAt(s, p, q) && SortedAt(s, q, p);
  }

  lemma HalfLinkedNodes(s: State)
    requires Inv(s)
    ensures forall n: nat, c :: HalfLinked(s, n, c) ==>
      n < |s.heap| && s.heap[n].next == None && s.heap[n].owner == FREE
  {
    forall t: nat | t < |s.threads| && s.threads[t].pc.SetNext?
      ensures s.heap[s.threads[t].node].next == None && s.heap[s.threads[t].node].owner == FREE
    {
      assert EffectAt(s, t);
    }
  }

  /** A linked node that some thread has locked has its `next` set. */
  lemma LockedIsWhole(s: State, t: nat, n: nat) returns (p: nat)
    requires Inv(s) && n in s.chain && n < |s.heap| && s.heap[n].owner == t && n != TAIL
    ensures p == Index(s.chain, n) && p + 1 < |s.chain| && s.heap[n].next == Some(s.chain[p + 1])
  {
    p := Index(s.chain, n);
    HalfLinkedNodes(s);
    assert LinkAt(s, p);
  }

  /** Where `prev` and `curr` of an adjacent pair stand. */
  lemma AdjacentPosition(s: State, t: nat) returns (p: nat)
    requires Inv(s) && t < |s.threads| && Adjacent(s.threads[t].pc)
    ensures p + 1 < |s.chain| && p == Index(s.chain, s.threads[t].prev)
    ensures s.chain[p] == s.threads[t].prev && s.chain[p + 1] == s.threads[t].curr
    ensures Index(s.chain, s.threads[t].curr) == p + 1
    ensures s.heap[s.threads[t].prev].key < s.heap[s.threads[t].curr].key
  {
    var u := s.threads[t];
    assert ThreadAt(s, t);
    p := LockedIsWhole(s, t, u.prev);
    assert SortedAt(s, p, p + 1);
    PositionUnique(s, p + 1, Index(s.chain, u.curr));
  }

  // ---------- steps that change only locals ----------

  lemma LocalStep(s: State, s': State, t: nat)
    requires Inv(s) && Shape(s') && t < |s.threads|
    requires |s'.threads| == |s.threads| && s' == s.(threads := s.threads[t := s'.threads[t]])
    requires ThreadAt(s', t) && EffectAt(s', t)
    requires s'.threads[t].node == s.threads[t].node
    requires Private(s'.threads[t]) ==> Private(s.threads[t])
    requires !s.threads[t].pc.SetNext? && !s'.threads[t].pc.SetNext?
    requires !Detached(s.threads[t]) && !Detached(s'.threads[t])
    requires forall n: nat :: OwnerAt(s', n)
    ensures Inv(s')
  {
    forall p: nat ensures LinkAt(s', p) {
      assert LinkAt(s, p);
      if p + 1 < |s.chain| && HalfLinked(s, s.chain[p], s.chain[p + 1]) {
        HalfLinkedKept(s, s', t, s.chain[p], s.chain[p + 1]);
      }
    }
    forall p: nat, q: nat ensures SortedAt(s', p, q) { assert SortedAt(s, p, q); }
    forall j: nat ensures ThreadAt(s', j) { assert ThreadAt(s, j); }
    forall j: nat ensures EffectAt(s', j) { assert EffectAt(s, j); }
    forall i: nat, j: nat ensures PairAt(s', i, j) { assert PairAt(s, i, j); }
  }

  lemma ReadFirstStep(s: State, a: Action)
    requires Inv(s) && Enabled(s, a) && s.threads[a.t].pc.ReadFirst?
    ensures Inv(Step(s, a))
  {
    var s' := Step(s, a);
    assert ThreadAt(s, a.t) && EffectAt(s, a.t);
    var p := LockedIsWhole(s, a.t, HEAD);
    forall n: nat ensures OwnerAt(s', n) { assert OwnerAt(s, n); }
    LocalStep(s, s', a.t);
  }

  lemma TestKeepsThread(s: State, t: nat)
    requires Inv(s) && t < |s.threads| && s.threads[t].pc.Test?
    ensures var s', u := TestStep(s, t), s.threads[t];
      && Shape(s') && |s'.threads| == |s.threads|
      && s' == s.(threads := s.threads[t := u.(pc := s'.threads[t].pc, answer := s'.threads[t].answer)])
      && HoldsPrev(s'.threads[t].pc) && HoldsCurr(s'.threads[t].pc)
      && ThreadAt(s', t) && EffectAt(s', t)
      && (Private(s'.threads[t]) ==> Private(u)) && !Detached(s'.threads[t]) && !s'.threads[t].pc.SetNext?
  {
    assert ThreadAt(s, t) && EffectAt(s, t);
  }

  lemma TestStepKeeps(s: State, a: Action)
    requires Inv(s) && Enabled(s, a) && s.threads[a.t].pc.Test?
    ensures Inv(Step(s, a))
  {
    var s' := TestStep(s, a.t);
    TestKeepsThread(s, a.t);
    forall n: nat ensures OwnerAt(s', n) { assert OwnerAt(s, n); }
    LocalStep(s, s', a.t);
  }

  lemma AdvanceStep(s: State, a: Action)
    requires Inv(s) && Enabled(s, a) && s.threads[a.t].pc.Advance?
    ensures Inv(Step(s, a))
  {
    var s' := Step(s, a);
    assert ThreadAt(s, a.t) && EffectAt(s, a.t);
    var p := LockedIsWhole(s, a.t, s.threads[a.t].curr);
    forall n: nat ensures OwnerAt(s', n) { assert OwnerAt(s, n); }
    LocalStep(s, s', a.t);
  }

  lemma ReadNextStep(s: State, a: Action)
    requires Inv(s) && Enabled(s, a) && s.threads[a.t].pc.ReadNext?
    ensures Inv(Step(s, a))
  {
    var s' := Step(s, a);
    assert ThreadAt(s, a.t) && EffectAt(s, a.t);
    var p := LockedIsWhole(s, a.t, s.threads[a.t].curr);
    forall n: nat ensures OwnerAt(s', n) { assert OwnerAt(s, n); }
    LocalStep(s, s', a.t);
  }

  lemma ReturnStep(s: State, a: Action)
    requires Inv(s) && Enabled(s, a) && s.threads[a.t].pc.Return?
    ensures Inv(Step(s, a))
  {
    var s' := Step(s, a);
    assert ThreadAt(s, a.t) && EffectAt(s, a.t);
    forall n: nat ensures OwnerAt(s', n) { assert OwnerAt(s, n); }
    LocalStep(s, s', a.t);
  }

  // ---------- lock steps ----------

  lemma OwnerStep(s: State, s': State, t: nat, n: nat)
    requires Inv(s) && Shape(s') && t < |s.threads| && n < |s.heap|
    requires |s'.threads| == |s.threads| && |s'.heap| == |s.heap|
    requires s' == s.(threads := s.threads[t := s.threads[t].(pc := s'.threads[t].pc)],
                      heap := s.heap[n := s.heap[n].(owner := s'.heap[n].owner)])
    requires ThreadAt(s', t)
    requires forall j: nat :: EffectAt(s', j)
    requires Private(s'.threads[t]) ==> Private(s.threads[t])
    requires Detached(s'.threads[t]) ==> Detached(s.threads[t])
    requires !s.threads[t].pc.SetNext? && !s'.threads[t].pc.SetNext?
    requires s.heap[n].owner == FREE || s.heap[n].owner == t
    requires forall m: nat :: OwnerAt(s', m)
    ensures Inv(s')
  {
    forall p: nat ensures LinkAt(s', p) {
      assert LinkAt(s, p);
      if p + 1 < |s.chain| && HalfLinked(s, s.chain[p], s.chain[p + 1]) {
        HalfLinkedKept(s, s', t, s.chain[p], s.chain[p + 1]);
      }
    }
    forall p: nat, q: nat ensures SortedAt(s', p, q) { assert SortedAt(s, p, q); }
    forall j: nat ensures ThreadAt(s', j) { assert ThreadAt(s, j); }
    forall i: nat, j: nat ensures PairAt(s', i, j) { assert PairAt(s, i, j); }
  }

  lemma LockHeadStep(s: State, a: Action)
    requires Inv(s) && Enabled(s, a) && s.threads[a.t].pc.LockHead?
    ensures Inv(Step(s, a))
  {
    var s' := Step(s, a);
    assert ThreadAt(s, a.t) && EffectAt(s, a.t) && LinkAt(s, 0);
    if s.heap[HEAD].owner == FREE {
      forall m: nat ensures OwnerAt(s', m) { assert OwnerAt(s, m); }
      forall j: nat ensures EffectAt(s', j) { if j != a.t { LockKeepsEffect(s, s', a.t, HEAD, j); } }
      OwnerStep(s, s', a.t, HEAD);
    }
  }

  /** The node a thread waits for is not one that another thread has half linked. */
  lemma WantedIsWhole(s: State, t: nat, j: nat)
    requires Inv(s) && t < |s.threads| && s.threads[t].pc.LockCurr?
    requires j < |s.threads| && s.threads[j].pc.SetNext?
    ensures s.threads[t].curr != s.threads[j].node
  {
    assert ThreadAt(s, t) && ThreadAt(s, j) && EffectAt(s, j);
    var p := AdjacentPosition(s, t);
    var q := LockedIsWhole(s, j, s.threads[j].prev);
    if s.chain[p + 1] == s.chain[q + 1] {
      PositionUnique(s, p + 1, q + 1);
    }
  }

  lemma LockCurrKeepsEffect(s: State, a: Action, s': State, j: nat)
    requires Inv(s) && Enabled(s, a) && s.threads[a.t].pc.LockCurr? && s' == Step(s, a) && Shape(s')
    requires s.heap[s.threads[a.t].curr].owner == FREE && !s.heap[s.threads[a.t].curr].freed
    ensures EffectAt(s', j)
  {
    assert EffectAt(s, j) && ThreadAt(s, j) && ThreadAt(s, a.t);
    if j < |s.threads| && s.threads[j].pc.SetNext? {
      WantedIsWhole(s, a.t, j);
    }
  }

  lemma LockCurrStep(s: State, a: Action)
    requires Inv(s) && Enabled(s, a) && s.threads[a.t].pc.LockCurr?
    ensures Inv(Step(s, a))
  {
    var s', u := Step(s, a), s.threads[a.t];
    assert ThreadAt(s, a.t) && EffectAt(s, a.t);
    var p := AdjacentPosition(s, a.t);
    assert LinkAt(s, p + 1);
    if s.heap[u.curr].owner == FREE {
      forall m: nat ensures OwnerAt(s', m) { assert OwnerAt(s, m); }
      forall j: nat ensures EffectAt(s', j) { LockCurrKeepsEffect(s, a, s', j); }
      OwnerStep(s, s', a.t, u.curr);
    }
  }

  /** Releasing a lock, or taking that of the head, changes nothing about pending effects. */
  lemma LockKeepsEffect(s: State, s': State, t: nat, n: nat, j: nat)
    requires Inv(s) && Shape(s') && t < |s.threads| && n < |s.heap| && |s'.threads| == |s.threads|
      && |s'.heap| == |s.heap|
    requires s' == s.(threads := s.threads[t := s.threads[t].(pc := s'.threads[t].pc)],
                      heap := s.heap[n := s.heap[n].(owner := s'.heap[n].owner)])
    requires n == HEAD || s'.heap[n].owner == FREE
    requires j != t
    ensures EffectAt(s', j)
  {
    assert EffectAt(s, j) && ThreadAt(s, j) && LinkAt(s, 0);
    hide Inv;
  }

  lemma UnlockBehindStep(s: State, a: Action)
    requires Inv(s) && Enabled(s, a) && s.threads[a.t].pc.UnlockBehind?
    ensures Inv(Step(s, a))
  {
    var s', u := Step(s, a), s.threads[a.t];
    assert ThreadAt(s, a.t) && EffectAt(s, a.t) && LinkAt(s, Index(s.chain, u.prev));
    forall m: nat ensures OwnerAt(s', m) { assert OwnerAt(s, m); }
    forall j: nat ensures EffectAt(s', j) { if j != a.t { LockKeepsEffect(s, s', a.t, u.prev, j); } }
    OwnerStep(s, s', a.t, u.prev);
  }

  lemma UnlockPrevStep(s: State, a: Action)
    requires Inv(s) && Enabled(s, a) && s.threads[a.t].pc.UnlockPrev?
    ensures Inv(Step(s, a))
  {
    var s', u := Step(s, a), s.threads[a.t];
    assert ThreadAt(s, a.t) && EffectAt(s, a.t) && LinkAt(s, Index(s.chain, u.prev));
    forall m: nat ensures OwnerAt(s', m) { assert OwnerAt(s, m); }
    forall j: nat ensures EffectAt(s', j) { if j != a.t { LockKeepsEffect(s, s', a.t, u.prev, j); } }
    OwnerStep(s, s', a.t, u.prev);
  }

  lemma UnlockCurrStep(s: State, a: Action)
    requires Inv(s) && Enabled(s, a) && s.threads[a.t].pc.UnlockCurr?
    ensures Inv(Step(s, a))
  {
    var s', u := Step(s, a), s.threads[a.t];
    assert ThreadAt(s, a.t) && EffectAt(s, a.t);
    forall m: nat ensures OwnerAt(s', m) { assert OwnerAt(s, m); }
    forall j: nat ensures EffectAt(s', j) { if j != a.t { LockKeepsEffect(s, s', a.t, u.curr, j); } }
    OwnerStep(s, s', a.t, u.curr);
  }

  // ---------- allocation ----------

  lemma LinkedInHeap(s: State)
    requires Inv(s)
    ensures forall n :: n in s.chain ==> n < |s.heap| && !s.heap[n].freed
  {
    forall p: nat | p < |s.chain| ensures s.chain[p] < |s.heap| && !s.heap[s.chain[p]].freed { assert LinkAt(s, p); }
  }

  lemma CallKeepsChain(s: State, s': State, t: nat, node: Node)
    requires Inv(s) && Shape(s') && t < |s.threads| && s.threads[t].pc.Outside?
    requires s'.heap == s.heap || s'.heap == s.heap + [node]
    requires |s'.threads| == |s.threads| && s'.threads == s.threads[t := s'.threads[t]] && s'.chain == s.chain
    ensures ChainInv(s')
  {
    LinkedInHeap(s);
    forall p: nat ensures LinkAt(s', p) {
      assert LinkAt(s, p);
      if p + 1 < |s.chain| && HalfLinked(s, s.chain[p], s.chain[p + 1]) {
        HalfLinkedKept(s, s', t, s.chain[p], s.chain[p + 1]);
      }
    }
    forall p: nat, q: nat ensures SortedAt(s', p, q) { assert SortedAt(s, p, q); }
  }

  lemma CallKeepsThread(s: State, s': State, t: nat, op: Op, j: nat)
    requires Inv(s) && t < |s.threads| && s.threads[t].pc.Outside? && ValidOp(op) && s' == CallStep(s, t, op)
      && Shape(s')
    ensures ThreadAt(s', j)
    ensures EffectAt(s', j)
  {
    LinkedInHeap(s);
    assert ThreadAt(s, j) && EffectAt(s, j);
  }

  lemma CallStepKeeps(s: State, a: Action)
    requires Inv(s) && Enabled(s, a) && s.threads[a.t].pc.Outside?
    ensures Inv(Step(s, a))
  {
    var s' := CallStep(s, a.t, a.op);
    CallKeepsChain(s, s', a.t, Node(a.op.key, None, FREE, false));
    forall j: nat ensures ThreadAt(s', j) { CallKeepsThread(s, s', a.t, a.op, j); }
    forall j: nat ensures EffectAt(s', j) { CallKeepsThread(s, s', a.t, a.op, j); }
    forall i: nat, j: nat ensures PairAt(s', i, j) { assert PairAt(s, i, j); }
    forall n: nat ensures OwnerAt(s', n) { assert OwnerAt(s, n); }
  }

  // ---------- the two writes of list_add ----------

  /** The first write of list_add leads from s to s'. */
  ghost predicate Links(s: State, t: nat, s': State) {
    && Inv(s) && t < |s.threads| && s.threads[t].pc.Link? && Shape(s') && !s'.fault
    && var u := s.threads[t];
    && s'.threads == s.threads[t := u.(pc := SetNext)]
    && s'.heap == s.heap[u.prev := s.heap[u.prev].(next := Some(u.node))]
    && s'.chain == InsertAfter(s.chain, u.prev, u.node)
  }

  /** A half-linked pair stays half linked while its thread does not move. */
  lemma HalfLinkedKept(s: State, s': State, t: nat, n: nat, c: nat)
    requires HalfLinked(s, n, c) && t < |s.threads| && |s'.threads| == |s.threads|
    requires s'.threads == s.threads[t := s'.threads[t]]
    requires s.threads[t].pc.SetNext? ==> s.threads[t].node != n
    ensures HalfLinked(s', n, c)
  {
    var j :| 0 <= j < |s.threads| && s.threads[j].pc.SetNext? && s.threads[j].node == n && s.threads[j].curr == c;
    assert s'.threads[j] == s.threads[j];
  }

  /** A link away from the new node stays, at whatever position it is found now. */
  lemma LinkElsewhere(s: State, t: nat, s': State, r: nat, q: nat)
    requires Links(s, t, s') && LinkAt(s, r) && r < |s.chain| && q < |s'.chain|
    requires s'.chain[q] == s.chain[r] != s.threads[t].prev
    requires q + 1 < |s'.chain| ==> r + 1 < |s.chain| && s'.chain[q + 1] == s.chain[r + 1]
    ensures LinkAt(s', q)
  {
    assert Shape(s) && ThreadAt(s, t);
    hide Inv, InsertAfter;
    if r + 1 < |s.chain| && HalfLinked(s, s.chain[r], s.chain[r + 1]) {
      HalfLinkedKept(s, s', t, s.chain[r], s.chain[r + 1]);
    }
  }

  lemma LinkKeepsLinks(s: State, t: nat, s': State, q: nat)
    requires Links(s, t, s')
    ensures LinkAt(s', q)
  {
    var u := s.threads[t];
    assert EffectAt(s, t);
    LinkedInHeap(s);
    var p := AdjacentPosition(s, t);
    if q == p + 1 {
      assert s'.threads[t].pc.SetNext? && s'.threads[t].node == u.node && s'.threads[t].curr == u.curr;
    } else if q != p && q < |s'.chain| {
      var r := if q < p then q else q - 1;
      assert LinkAt(s, r) && SortedAt(s, r, p) && SortedAt(s, p, r);
      LinkElsewhere(s, t, s', r, q);
    }
  }

  ghost predicate SameKeys(s: State, s': State) {
    |s'.heap| == |s.heap| && forall n :: 0 <= n < |s.heap| ==> s'.heap[n].key == s.heap[n].key
  }

  /** A node put between its neighbours keeps the order, at one pair of positions. */
  lemma InsertedOrder(s: State, s': State, p: nat, n: nat, q: nat, r: nat)
    requires Shape(s) && Shape(s') && SameKeys(s, s') && p + 1 < |s.chain| && n < |s.heap|
    requires s'.chain == s.chain[..p + 1] + [n] + s.chain[p + 1..]
    requires s.chain[p] < |s.heap| && s.chain[p + 1] < |s.heap|
    requires s.heap[s.chain[p]].key < s.heap[n].key < s.heap[s.chain[p + 1]].key
    requires SortedAt(s, q, p)
    requires r > 0 ==> SortedAt(s, p + 1, r - 1)
    requires SortedAt(s, if q <= p then q else q - 1, if r <= p then r else r - 1)
    ensures SortedAt(s', q, r)
  {
  }

  lemma LinkKeepsOrder(s: State, t: nat, s': State, q: nat, r: nat)
    requires Links(s, t, s')
    ensures SortedAt(s', q, r)
  {
    assert ThreadAt(s, t) && EffectAt(s, t);
    var p := AdjacentPosition(s, t);
    assert SortedAt(s, q, p) && (r > 0 ==> SortedAt(s, p + 1, r - 1));
    assert SortedAt(s, if q <= p then q else q - 1, if r <= p then r else r - 1);
    assert LinkAt(s, p) && LinkAt(s, p + 1);
    hide Inv, SortedAt;
    InsertedOrder(s, s', p, s.threads[t].node, q, r);
  }

  lemma LinkedMembers(s: State, t: nat, s': State)
    requires Links(s, t, s')
    ensures forall n :: n in s'.chain <==> n in s.chain || n == s.threads[t].node
    ensures |s'.chain| >= 2 && s'.chain[0] == HEAD && s'.chain[|s'.chain| - 1] == TAIL
  {
    var p := AdjacentPosition(s, t);
    assert s.chain == s.chain[..p + 1] + s.chain[p + 1..];
  }

  lemma LinkKeepsThread(s: State, t: nat, s': State, j: nat)
    requires Links(s, t, s')
    ensures ThreadAt(s', j)
  {
    LinkedMembers(s, t, s');
    assert ThreadAt(s, t) && EffectAt(s, t) && ThreadAt(s, j);
    hide Inv, InsertAfter;
  }

  lemma LinkKeepsEffect(s: State, t: nat, s': State, j: nat)
    requires Links(s, t, s')
    ensures EffectAt(s', j)
  {
    LinkedMembers(s, t, s');
    assert ThreadAt(s, t) && EffectAt(s, t) && ThreadAt(s, j) && EffectAt(s, j);
    assert PairAt(s, j, t) && PairAt(s, t, j);
    hide Inv, InsertAfter;
  }

  lemma LinkStep(s: State, a: Action)
    requires Inv(s) && Enabled(s, a) && s.threads[a.t].pc.Link?
    ensures Inv(Step(s, a))
  {
    assert ThreadAt(s, a.t);
    LinkedInHeap(s);
    LinkKeeps(s, a.t, Step(s, a));
  }

  lemma LinkKeeps(s: State, t: nat, s': State)
    requires Links(s, t, s')
    ensures Inv(s')
  {
    assert ThreadAt(s, t) && EffectAt(s, t);
    LinkedMembers(s, t, s');
    forall q: nat ensures LinkAt(s', q) { LinkKeepsLinks(s, t, s', q); }
    forall q: nat, r: nat ensures SortedAt(s', q, r) { LinkKeepsOrder(s, t, s', q, r); }
    forall j: nat ensures ThreadAt(s', j) { LinkKeepsThread(s, t, s', j); }
    forall j: nat ensures EffectAt(s', j) { LinkKeepsEffect(s, t, s', j); }
    forall i: nat, j: nat ensures PairAt(s', i, j) { assert PairAt(s, i, j); }
    forall n: nat ensures OwnerAt(s', n) { assert OwnerAt(s, n); }
  }

  /** The half-linked node sits between `prev` and `curr`. */
  lemma HalfLinkedPosition(s: State, t: nat) returns (p: nat)
    requires Inv(s) && t < |s.threads| && s.threads[t].pc.SetNext?
    ensures p + 2 < |s.chain| && s.chain[p] == s.threads[t].prev
    ensures s.chain[p + 1] == s.threads[t].node && s.chain[p + 2] == s.threads[t].curr
  {
    var u := s.threads[t];
    assert ThreadAt(s, t) && EffectAt(s, t);
    p := LockedIsWhole(s, t, u.prev);
    assert LinkAt(s, p + 1);
    var j :| 0 <= j < |s.threads| && s.threads[j].pc.SetNext? && s.threads[j].node == s.chain[p + 1]
             && s.threads[j].curr == s.chain[p + 2];
    assert PairAt(s, t, j);
  }

  ghost predicate SetsNext(s: State, t: nat, s': State) {
    && Inv(s) && t < |s.threads| && s.threads[t].pc.SetNext? && Shape(s') && !s'.fault
    && var u := s.threads[t];
    && s'.threads == s.threads[t := u.(pc := UnlockPrev, answer := true)]
    && s'.heap == s.heap[u.node := s.heap[u.node].(next := Some(u.curr))]
    && s'.chain == s.chain
  }

  lemma SetNextKeepsLinks(s: State, t: nat, s': State, q: nat)
    requires SetsNext(s, t, s')
    ensures LinkAt(s', q)
  {
    assert EffectAt(s, t);
    var p := HalfLinkedPosition(s, t);
    assert LinkAt(s, q);
    if q < |s.chain| && q != p + 1 {
      assert SortedAt(s, q, p + 1) && SortedAt(s, p + 1, q);
      if q + 1 < |s.chain| && HalfLinked(s, s.chain[q], s.chain[q + 1]) {
        HalfLinkedKept(s, s', t, s.chain[q], s.chain[q + 1]);
      }
    }
  }

  lemma SetNextKeepsEffect(s: State, t: nat, s': State, j: nat)
    requires SetsNext(s, t, s')
    ensures EffectAt(s', j)
  {
    assert ThreadAt(s, t) && EffectAt(s, t);
    assert EffectAt(s, j) && ThreadAt(s, j) && PairAt(s, t, j);
  }

  lemma SetNextKeeps(s: State, t: nat, s': State)
    requires SetsNext(s, t, s')
    ensures Inv(s')
  {
    assert ThreadAt(s, t) && EffectAt(s, t);
    forall q: nat ensures LinkAt(s', q) { SetNextKeepsLinks(s, t, s', q); }
    forall q: nat, r: nat ensures SortedAt(s', q, r) { assert SortedAt(s, q, r); }
    forall j: nat ensures ThreadAt(s', j) { assert ThreadAt(s, j); }
    forall j: nat ensures EffectAt(s', j) { SetNextKeepsEffect(s, t, s', j); }
    forall i: nat, j: nat ensures PairAt(s', i, j) { assert PairAt(s, i, j); }
    forall n: nat ensures OwnerAt(s', n) { assert OwnerAt(s, n); }
  }

  lemma SetNextStep(s: State, a: Action)
    requires Inv(s) && Enabled(s, a) && s.threads[a.t].pc.SetNext?
    ensures Inv(Step(s, a))
  {
    assert EffectAt(s, a.t);
    SetNextKeeps(s, a.t, Step(s, a));
  }

  // ---------- list_remove ----------

  ghost predicate Unlinks(s: State, t: nat, s': State) {
    && Inv(s) && t < |s.threads| && s.threads[t].pc.Unlink? && Shape(s') && !s'.fault
    && var u := s.threads[t];
    && s'.threads == s.threads[t := u.(pc := UnlockPrev, answer := true)]
    && s'.heap == s.heap[u.prev := s.heap[u.prev].(next := Some(u.succ))]
    && s'.chain == RemoveFrom(s.chain, u.curr)
  }

  lemma UnlinkKeepsLinks(s: State, t: nat, s': State, q: nat)
    requires Unlinks(s, t, s')
    ensures LinkAt(s', q)
  {
    var u := s.threads[t];
    assert ThreadAt(s, t) && EffectAt(s, t);
    LinkedInHeap(s);
    var p := AdjacentPosition(s, t);
    var r := LockedIsWhole(s, t, u.curr);
    if q != p {
      var o := if q < p then q else q + 1;
      assert LinkAt(s, o) && SortedAt(s, o, p) && SortedAt(s, p, o);
      if o + 1 < |s.chain| && HalfLinked(s, s.chain[o], s.chain[o + 1]) {
        HalfLinkedKept(s, s', t, s.chain[o], s.chain[o + 1]);
      }
    }
  }

  lemma UnlinkedMembers(s: State, t: nat, s': State)
    requires Unlinks(s, t, s')
    ensures forall n :: n in s.chain <==> n in s'.chain || n == s.threads[t].curr
    ensures s.threads[t].curr !in s'.chain
  {
    var p := AdjacentPosition(s, t);
    assert s.chain == s.chain[..p + 1] + [s.chain[p + 1]] + s.chain[p + 2..];
    forall q: nat | q < |s.chain| && q != p + 1 ensures s.chain[q] != s.threads[t].curr {
      assert SortedAt(s, q, p + 1) && SortedAt(s, p + 1, q);
    }
  }

  lemma UnlinkKeepsOrder(s: State, t: nat, s': State)
    requires Unlinks(s, t, s')
    ensures |s'.chain| >= 2 && s'.chain[0] == HEAD && s'.chain[|s'.chain| - 1] == TAIL
    ensures forall q: nat, r: nat :: SortedAt(s', q, r)
  {
    assert EffectAt(s, t) && ThreadAt(s, t);
    var p := AdjacentPosition(s, t);
    var r0 := LockedIsWhole(s, t, s.threads[t].curr);
    forall q: nat, r: nat ensures SortedAt(s', q, r) {
      assert SortedAt(s, if q <= p then q else q + 1, if r <= p then r else r + 1);
    }
  }

  /** Nobody else holds or awaits the node being unlinked. */
  lemma UnlinkKeepsThread(s: State, t: nat, s': State, j: nat)
    requires Unlinks(s, t, s')
    ensures ThreadAt(s', j)
  {
    UnlinkedMembers(s, t, s');
    assert ThreadAt(s, t) && EffectAt(s, t) && ThreadAt(s, j);
    if j < |s.threads| && j != t && Adjacent(s.threads[j].pc) {
      var p := AdjacentPosition(s, t);
      var q := AdjacentPosition(s, j);
    }
  }

  lemma UnlinkKeepsEffect(s: State, t: nat, s': State, j: nat)
    requires Unlinks(s, t, s')
    ensures EffectAt(s', j)
  {
    UnlinkedMembers(s, t, s');
    assert ThreadAt(s, t) && EffectAt(s, t) && ThreadAt(s, j) && EffectAt(s, j);
    if j < |s.threads| && s.threads[j].pc.SetNext? {
      var q := HalfLinkedPosition(s, j);
    }
  }

  lemma UnlinkKeeps(s: State, t: nat, s': State)
    requires Unlinks(s, t, s')
    ensures Inv(s')
  {
    assert ThreadAt(s, t) && EffectAt(s, t);
    UnlinkKeepsOrder(s, t, s');
    forall q: nat ensures LinkAt(s', q) { UnlinkKeepsLinks(s, t, s', q); }
    forall j: nat ensures ThreadAt(s', j) { UnlinkKeepsThread(s, t, s', j); }
    forall j: nat ensures EffectAt(s', j) { UnlinkKeepsEffect(s, t, s', j); }
    forall i: nat, j: nat ensures PairAt(s', i, j) { assert PairAt(s, i, j) && EffectAt(s, i) && EffectAt(s, j); }
    forall n: nat ensures OwnerAt(s', n) { assert OwnerAt(s, n); }
  }

  lemma UnlinkStep(s: State, a: Action)
    requires Inv(s) && Enabled(s, a) && s.threads[a.t].pc.Unlink?
    ensures Inv(Step(s, a))
  {
    assert ThreadAt(s, a.t);
    LinkedInHeap(s);
    UnlinkKeeps(s, a.t, Step(s, a));
  }

  ghost predicate Frees(s: State, t: nat, s': State) {
    && Inv(s) && t < |s.threads| && s.threads[t].pc.Free? && Shape(s') && !s'.fault
    && var u := s.threads[t];
    && s'.threads == s.threads[t := u.(pc := Return)]
    && s'.heap == s.heap[u.curr := s.heap[u.curr].(freed := true)]
    && s'.chain == s.chain
  }

  lemma FreeKeeps(s: State, t: nat, s': State)
    requires Frees(s, t, s')
    ensures Inv(s')
  {
    assert ThreadAt(s, t) && EffectAt(s, t);
    forall q: nat ensures LinkAt(s', q) {
      assert LinkAt(s, q);
      if q + 1 < |s.chain| && HalfLinked(s, s.chain[q], s.chain[q + 1]) {
        HalfLinkedKept(s, s', t, s.chain[q], s.chain[q + 1]);
      }
    }
    forall q: nat, r: nat ensures SortedAt(s', q, r) { assert SortedAt(s, q, r); }
    forall j: nat ensures ThreadAt(s', j) { assert ThreadAt(s, j); }
    forall j: nat ensures EffectAt(s', j) {
      assert EffectAt(s, j) && PairAt(s, j, t);
      if j < |s.threads| && s.threads[j].pc.SetNext? {
        var q := HalfLinkedPosition(s, j);
      }
    }
    forall i: nat, j: nat ensures PairAt(s', i, j) { assert PairAt(s, i, j); }
    forall n: nat ensures OwnerAt(s', n) { assert OwnerAt(s, n); }
  }

  lemma FreeStep(s: State, a: Action)
    requires Inv(s) && Enabled(s, a) && s.threads[a.t].pc.Free?
    ensures Inv(Step(s, a))
  {
    assert EffectAt(s, a.t);
    FreeKeeps(s, a.t, Step(s, a));
  }

  // ---------- every run ----------

  lemma StepInv(s: State, a: Action)
    requires Inv(s) && Enabled(s, a)
    ensures Inv(Step(s, a))
  {
    match s.threads[a.t].pc
    case Outside => CallStepKeeps(s, a);
    case LockHead => LockHeadStep(s, a);
    case ReadFirst => ReadFirstStep(s, a);
    case LockCurr => LockCurrStep(s, a);
    case Test => TestStepKeeps(s, a);
    case UnlockBehind => UnlockBehindStep(s, a);
    case Advance => AdvanceStep(s, a);
    case Link => LinkStep(s, a);
    case SetNext => SetNextStep(s, a);
    case ReadNext => ReadNextStep(s, a);
    case Unlink => UnlinkStep(s, a);
    case UnlockPrev => UnlockPrevStep(s, a);
    case UnlockCurr => UnlockCurrStep(s, a);
    case Free => FreeStep(s, a);
    case Return => ReturnStep(s, a);
  }

  lemma {:induction false} RunInv(run: seq<State>, k: nat)
    requires IsRun(run) && k < |run|
    ensures Inv(run[k])
  {
    if k == 0 {
      var n: nat :| run[0] == Initial(n);
      InitialInv(n);
    } else {
      RunInv(run, k - 1);
      assert StepAt(run, k);
      var a :| Enabled(run[k - 1], a) && run[k] == Step(run[k - 1], a);
      StepInv(run[k - 1], a);
    }
  }
}
