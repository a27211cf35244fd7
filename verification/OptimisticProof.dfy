/**
 The optimistic list keeps its structure in every run and refines the atomic set.
 */
module OptimisticProof {
  import opened SetSpec
  import opened OptimisticList

  // ---------- the invariant ----------

  /** The node is linked, or was removed no earlier than the m-th removal. */
  ghost predicate Alive(s: State, n: nat, m: nat) {
    n in s.chain || (m <= |s.removed| && n in s.removed[m..])
  }

  ghost predicate LinkAt(s: State, p: nat)
    requires Shape(s)
  {
    p < |s.chain| ==>
      && s.chain[p] < |s.heap|
      && (p + 1 < |s.chain| ==> s.heap[s.chain[p]].next == s.chain[p + 1])
  }

  ghost predicate SortedAt(s: State, p: nat, q: nat)
    requires Shape(s)
  {
    p < q < |s.chain| ==>
      s.chain[p] < |s.heap| && s.chain[q] < |s.heap| && s.heap[s.chain[p]].key < s.heap[s.chain[q]].key
  }

  /** A removed node points at a node that is linked or was removed later. */
  ghost predicate RemovedAt(s: State, k: nat)
    requires Shape(s)
  {
    k < |s.removed| ==>
      && s.removed[k] < |s.heap|
      && s.removed[k] !in s.chain
      && Alive(s, s.heap[s.removed[k]].next, k + 1)
      && s.heap[s.removed[k]].key < s.heap[s.heap[s.removed[k]].next].key
      && s.heap[s.removed[k]].key < INT_MAX
  }

  ghost predicate DistinctAt(s: State, j: nat, k: nat) {
    j < k < |s.removed| ==> s.removed[j] != s.removed[k]
  }

  ghost predicate StructureInv(s: State)
    requires Shape(s)
  {
    && |s.chain| >= 2
    && s.chain[0] == HEAD && s.chain[|s.chain| - 1] == TAIL
    && s.heap[HEAD].key == INT_MIN && s.heap[TAIL].key == INT_MAX
    && (forall p: nat :: LinkAt(s, p))
    && (forall p: nat, q: nat :: SortedAt(s, p, q))
    && (forall k: nat :: RemovedAt(s, k))
    && (forall j: nat, k: nat :: DistinctAt(s, j, k))
  }

  predicate Located(pc: Pc) {
    !pc.Outside? && !pc.Begin? && !pc.Return?
  }

  predicate HoldsPrev(pc: Pc) {
    pc.LockCurr? || pc.BeginValidate? || pc.Validate? || pc.RetryUnlockPrev? || pc.UnlockPrev? || Validated(pc)
  }

  predicate HoldsCurr(pc: Pc) {
    pc.BeginValidate? || pc.Validate? || pc.RetryUnlockPrev? || pc.RetryUnlockCurr?
    || pc.UnlockPrev? || pc.UnlockCurr? || Validated(pc)
  }

  predicate Validated(pc: Pc) {
    pc.Decide? || pc.SetNext? || pc.Link? || pc.ReadNext? || pc.Unlink?
  }

  /** list_add has allocated its node and has not linked it. */
  predicate Private(u: Thread) {
    u.op.Add? && !u.pc.Outside? && !Effective(u.pc)
  }

  ghost predicate ThreadAt(s: State, t: nat)
    requires Shape(s)
  {
    t < |s.threads| ==>
      var u := s.threads[t];
      && ValidOp(u.op)
      && (Private(u) ==> u.node !in s.chain && u.node !in s.removed && s.heap[u.node].key == u.op.key)
      && (Located(u.pc) ==>
           && Alive(s, u.prev, 0) && Alive(s, u.curr, 0)
           && s.heap[u.prev].key < u.op.key
           && s.heap[u.prev].key < s.heap[u.curr].key
           && (!u.pc.Walk? ==> u.op.key <= s.heap[u.curr].key))
      && (HoldsPrev(u.pc) ==> s.heap[u.prev].owner == t)
      && (HoldsCurr(u.pc) ==> s.heap[u.curr].owner == t)
  }

  ghost predicate ValidationAt(s: State, t: nat)
    requires Shape(s)
  {
    t < |s.threads| ==>
      var u := s.threads[t];
      && (u.pc.Validate? ==> u.mark <= |s.removed| && Alive(s, u.it, u.mark) && u.prev !in s.removed[u.mark..])
      && (Validated(u.pc) ==> u.prev in s.chain && s.heap[u.prev].next == u.curr)
      && (u.pc.SetNext? || u.pc.Link? ==> u.op.Add? && u.op.key < s.heap[u.curr].key)
      && (u.pc.Link? ==> s.heap[u.node].next == u.curr)
      && (u.pc.ReadNext? || u.pc.Unlink? ==> u.op.Remove? && u.op.key == s.heap[u.curr].key)
      && (u.pc.Unlink? ==> s.heap[u.curr].next == u.succ)
  }

  ghost predicate PrivateAt(s: State, t: nat, j: nat) {
    t < j < |s.threads| && Private(s.threads[t]) && Private(s.threads[j]) ==> s.threads[t].node != s.threads[j].node
  }

  /** A locked node is locked by a thread that knows it. */
  ghost predicate OwnerAt(s: State, n: nat)
    requires Shape(s)
  {
    n < |s.heap| && s.heap[n].owner != FREE ==>
      && 0 <= s.heap[n].owner < |s.threads|
      && var u := s.threads[s.heap[n].owner];
      (HoldsPrev(u.pc) && u.prev == n) || (HoldsCurr(u.pc) && u.curr == n)
  }

  ghost predicate Inv(s: State) {
    && Shape(s)
    && StructureInv(s)
    && (forall t: nat :: ThreadAt(s, t))
    && (forall t: nat :: ValidationAt(s, t))
    && (forall t: nat, j: nat :: PrivateAt(s, t, j))
    && (forall n: nat :: OwnerAt(s, n))
  }

  lemma InitialInv(n: nat)
    ensures Inv(Initial(n))
  {
  }

  // ---------- structure ----------

  /** Following `next` from a node alive since the mark leads to one alive since the mark, with a larger key. */
  lemma NextAlive(s: State, n: nat, m: nat)
    requires Shape(s) && StructureInv(s) && Alive(s, n, m) && n != TAIL
    ensures n < |s.heap| && Alive(s, s.heap[n].next, m) && s.heap[n].key < s.heap[s.heap[n].next].key
  {
    if n in s.chain {
      var p := Index(s.chain, n);
      assert LinkAt(s, p) && SortedAt(s, p, p + 1);
    } else {
      var k :| m <= k < |s.removed| && s.removed[k] == n;
      assert RemovedAt(s, k);
    }
  }

  lemma AliveInHeap(s: State, n: nat, m: nat)
    requires Shape(s) && StructureInv(s) && Alive(s, n, m)
    ensures n < |s.heap| && s.heap[n].key <= INT_MAX && (s.heap[n].key < INT_MAX ==> n != TAIL)
  {
    if n in s.chain {
      var p := Index(s.chain, n);
      assert LinkAt(s, p) && SortedAt(s, p, |s.chain| - 1);
    } else {
      var k :| m <= k < |s.removed| && s.removed[k] == n;
      assert RemovedAt(s, k);
    }
  }

  // ---------- steps that change only locals ----------

  /** Thread t moves on; heap and history stay. */
  lemma LocalStep(s: State, s': State, t: nat)
    requires Inv(s) && Shape(s') && t < |s.threads|
    requires |s'.threads| == |s.threads| && s' == s.(threads := s.threads[t := s'.threads[t]])
    requires ThreadAt(s', t) && ValidationAt(s', t)
    requires Private(s'.threads[t]) ==> Private(s.threads[t])
    requires s'.threads[t].node == s.threads[t].node
    requires HoldsPrev(s'.threads[t].pc) == HoldsPrev(s.threads[t].pc)
    requires HoldsCurr(s'.threads[t].pc) == HoldsCurr(s.threads[t].pc)
    requires HoldsPrev(s.threads[t].pc) ==> s'.threads[t].prev == s.threads[t].prev
    requires HoldsCurr(s.threads[t].pc) ==> s'.threads[t].curr == s.threads[t].curr
    ensures Inv(s')
  {
    forall p: nat ensures LinkAt(s', p) { assert LinkAt(s, p); }
    forall p: nat, q: nat ensures SortedAt(s', p, q) { assert SortedAt(s, p, q); }
    forall k: nat ensures RemovedAt(s', k) { assert RemovedAt(s, k); }
    forall j: nat, k: nat ensures DistinctAt(s', j, k) { assert DistinctAt(s, j, k); }
    forall j: nat ensures ThreadAt(s', j) { assert ThreadAt(s, j); }
    forall j: nat ensures ValidationAt(s', j) { assert ValidationAt(s, j); }
    forall i: nat, j: nat ensures PrivateAt(s', i, j) { assert PrivateAt(s, i, j); }
    forall n: nat ensures OwnerAt(s', n) { assert OwnerAt(s, n); }
  }

  lemma BeginStep(s: State, a: Action)
    requires Inv(s) && Enabled(s, a) && s.threads[a.t].pc.Begin?
    ensures Inv(Step(s, a))
  {
    assert ThreadAt(s, a.t);
    assert s.chain[0] == HEAD;
    NextAlive(s, HEAD, 0);
    LocalStep(s, Step(s, a), a.t);
  }

  lemma WalkStep(s: State, a: Action)
    requires Inv(s) && Enabled(s, a) && s.threads[a.t].pc.Walk?
    ensures Inv(Step(s, a))
  {
    var u := s.threads[a.t];
    assert ThreadAt(s, a.t);
    AliveInHeap(s, u.curr, 0);
    if s.heap[u.curr].key < u.op.key {
      NextAlive(s, u.curr, 0);
    }
    LocalStep(s, Step(s, a), a.t);
  }

  lemma BeginValidateStep(s: State, a: Action)
    requires Inv(s) && Enabled(s, a) && s.threads[a.t].pc.BeginValidate?
    ensures Inv(Step(s, a))
  {
    assert ThreadAt(s, a.t);
    assert s.chain[0] == HEAD;
    LocalStep(s, Step(s, a), a.t);
  }

  /** When the validation walk meets `prev`, that node is linked right now. */
  lemma MetIsLinked(s: State, t: nat)
    requires Inv(s) && t < |s.threads| && s.threads[t].pc.Validate? && s.threads[t].it == s.threads[t].prev
    ensures s.threads[t].prev in s.chain
  {
    assert ValidationAt(s, t);
  }

  lemma ValidateStepKeeps(s: State, a: Action)
    requires Inv(s) && Enabled(s, a) && s.threads[a.t].pc.Validate?
    ensures Inv(Step(s, a))
  {
    var u := s.threads[a.t];
    assert ThreadAt(s, a.t) && ValidationAt(s, a.t);
    AliveInHeap(s, u.it, u.mark);
    if s.heap[u.it].key <= s.heap[u.prev].key && u.it != u.prev {
      NextAlive(s, u.it, u.mark);
    }
    LocalStep(s, Step(s, a), a.t);
  }

  lemma OtherLocalSteps(s: State, a: Action)
    requires Inv(s) && Enabled(s, a)
    requires var pc := s.threads[a.t].pc; pc.Decide? || pc.ReadNext? || pc.Return?
    ensures Inv(Step(s, a))
  {
    assert ThreadAt(s, a.t) && ValidationAt(s, a.t);
    LocalStep(s, Step(s, a), a.t);
  }

  lemma PublishedInHeap(s: State)
    requires Shape(s) && StructureInv(s)
    ensures forall n :: n in s.chain || n in s.removed ==> n < |s.heap|
  {
    forall p: nat | p < |s.chain| ensures s.chain[p] < |s.heap| { assert LinkAt(s, p); }
    forall k: nat | k < |s.removed| ensures s.removed[k] < |s.heap| { assert RemovedAt(s, k); }
  }

  lemma CallKeepsStructure(s: State, s': State, node: Node)
    requires Shape(s) && StructureInv(s) && Shape(s')
    requires s'.heap == s.heap || s'.heap == s.heap + [node]
    requires s'.chain == s.chain && s'.removed == s.removed
    ensures StructureInv(s')
  {
    forall p: nat ensures LinkAt(s', p) { assert LinkAt(s, p); }
    forall p: nat, q: nat ensures SortedAt(s', p, q) { assert SortedAt(s, p, q); }
    forall k: nat ensures RemovedAt(s', k) { assert RemovedAt(s, k); }
    forall j: nat, k: nat ensures DistinctAt(s', j, k) { assert DistinctAt(s, j, k); }
  }

  /** The caller starts on its operation, with a fresh node for an add. */
  ghost predicate CallsOp(s: State, t: nat, op: Op, s': State) {
    && Shape(s) && Shape(s') && t < |s.threads| && s.threads[t].pc.Outside? && ValidOp(op)
    && s'.chain == s.chain && s'.removed == s.removed && |s'.threads| == |s.threads|
    && s'.threads == s.threads[t := s'.threads[t]] && s'.threads[t].pc.Begin? && s'.threads[t].op == op
    && (op.Add? ==> s'.heap == s.heap + [Node(op.key, HEAD, FREE)] && s'.threads[t].node == |s.heap|)
    && (!op.Add? ==> s'.heap == s.heap)
  }

  lemma CallKeepsThread(s: State, t: nat, op: Op, s': State, j: nat)
    requires Inv(s) && CallsOp(s, t, op, s')
    ensures ThreadAt(s', j)
  {
    PublishedInHeap(s);
    assert ThreadAt(s, j);
    hide Inv;
  }

  lemma CallKeepsValidation(s: State, t: nat, op: Op, s': State, j: nat)
    requires Inv(s) && CallsOp(s, t, op, s')
    ensures ValidationAt(s', j)
  {
    assert ValidationAt(s, j);
    hide Inv;
  }

  lemma CallStepKeeps(s: State, a: Action)
    requires Inv(s) && Enabled(s, a) && s.threads[a.t].pc.Outside?
    ensures Inv(Step(s, a))
  {
    var s' := Step(s, a);
    CallKeepsStructure(s, s', Node(a.op.key, HEAD, FREE));
    forall j: nat ensures ThreadAt(s', j) { CallKeepsThread(s, a.t, a.op, s', j); }
    forall j: nat ensures ValidationAt(s', j) { CallKeepsValidation(s, a.t, a.op, s', j); }
    forall i: nat, j: nat ensures PrivateAt(s', i, j) { assert PrivateAt(s, i, j); }
    forall n: nat ensures OwnerAt(s', n) { assert OwnerAt(s, n); }
  }

  // ---------- lock steps ----------

  /** Thread t takes or releases the lock of node n. */
  lemma OwnerStep(s: State, s': State, t: nat, n: nat)
    requires Inv(s) && Shape(s') && t < |s.threads| && n < |s.heap|
    requires |s'.threads| == |s.threads| && |s'.heap| == |s.heap|
    requires s' == s.(threads := s.threads[t := s.threads[t].(pc := s'.threads[t].pc)],
                      heap := s.heap[n := s.heap[n].(owner := s'.heap[n].owner)])
    requires ThreadAt(s', t) && ValidationAt(s', t)
    requires Private(s'.threads[t]) ==> Private(s.threads[t])
    requires s.heap[n].owner == FREE || s.heap[n].owner == t
    requires forall m: nat :: OwnerAt(s', m)
    ensures Inv(s')
  {
    forall p: nat ensures LinkAt(s', p) { assert LinkAt(s, p); }
    forall p: nat, q: nat ensures SortedAt(s', p, q) { assert SortedAt(s, p, q); }
    forall k: nat ensures RemovedAt(s', k) { assert RemovedAt(s, k); }
    forall j: nat, k: nat ensures DistinctAt(s', j, k) { assert DistinctAt(s, j, k); }
    forall j: nat ensures ThreadAt(s', j) { assert ThreadAt(s, j); }
    forall j: nat ensures ValidationAt(s', j) { assert ValidationAt(s, j); }
    forall i: nat, j: nat ensures PrivateAt(s', i, j) { assert PrivateAt(s, i, j); }
  }

  lemma LockPrevStep(s: State, a: Action)
    requires Inv(s) && Enabled(s, a) && s.threads[a.t].pc.LockPrev?
    ensures Inv(Step(s, a))
  {
    var s', n := Step(s, a), s.threads[a.t].prev;
    assert ThreadAt(s, a.t) && ValidationAt(s, a.t);
    if s.heap[n].owner == FREE {
      forall m: nat ensures OwnerAt(s', m) { assert OwnerAt(s, m); }
      OwnerStep(s, s', a.t, n);
    }
  }

  lemma LockCurrStep(s: State, a: Action)
    requires Inv(s) && Enabled(s, a) && s.threads[a.t].pc.LockCurr?
    ensures Inv(Step(s, a))
  {
    var s', n := Step(s, a), s.threads[a.t].curr;
    assert ThreadAt(s, a.t) && ValidationAt(s, a.t);
    if s.heap[n].owner == FREE {
      forall m: nat ensures OwnerAt(s', m) { assert OwnerAt(s, m); }
      OwnerStep(s, s', a.t, n);
    }
  }

  lemma UnlockSteps(s: State, a: Action)
    requires Inv(s) && Enabled(s, a) && (s.threads[a.t].pc.UnlockPrev? || s.threads[a.t].pc.UnlockCurr?)
    ensures Inv(Step(s, a))
  {
    var s', u := Step(s, a), s.threads[a.t];
    assert ThreadAt(s, a.t) && ValidationAt(s, a.t);
    forall m: nat ensures OwnerAt(s', m) { assert OwnerAt(s, m); }
    OwnerStep(s, s', a.t, if u.pc.UnlockPrev? then u.prev else u.curr);
  }

  lemma RetrySteps(s: State, a: Action)
    requires Inv(s) && Enabled(s, a) && (s.threads[a.t].pc.RetryUnlockPrev? || s.threads[a.t].pc.RetryUnlockCurr?)
    ensures Inv(Step(s, a))
  {
    if s.threads[a.t].pc.RetryUnlockPrev? {
      RetryPrevStep(s, a);
    } else {
      RetryCurrStep(s, a);
    }
  }

  lemma RetryPrevStep(s: State, a: Action)
    requires Inv(s) && Enabled(s, a) && s.threads[a.t].pc.RetryUnlockPrev?
    ensures Inv(Step(s, a))
  {
    var s' := Step(s, a);
    assert ThreadAt(s, a.t) && ValidationAt(s, a.t);
    forall m: nat ensures OwnerAt(s', m) { assert OwnerAt(s, m); }
    OwnerStep(s, s', a.t, s.threads[a.t].prev);
  }

  lemma RetryCurrStep(s: State, a: Action)
    requires Inv(s) && Enabled(s, a) && s.threads[a.t].pc.RetryUnlockCurr?
    ensures Inv(Step(s, a))
  {
    var s' := Step(s, a);
    assert ThreadAt(s, a.t) && ValidationAt(s, a.t);
    forall m: nat ensures OwnerAt(s', m) { assert OwnerAt(s, m); }
    OwnerStep(s, s', a.t, s.threads[a.t].curr);
  }

  // ---------- writes of next ----------

  ghost predicate SetsNext(s: State, t: nat, s': State) {
    && Shape(s) && Shape(s') && t < |s.threads| && s.threads[t].pc.SetNext?
    && var u := s.threads[t];
    s' == s.(threads := s.threads[t := u.(pc := Link)], heap := s.heap[u.node := s.heap[u.node].(next := u.curr)])
  }

  lemma SetNextKeepsStructure(s: State, t: nat, s': State)
    requires Inv(s) && SetsNext(s, t, s')
    ensures StructureInv(s')
  {
    assert ThreadAt(s, t) && ValidationAt(s, t);
    forall p: nat ensures LinkAt(s', p) { assert LinkAt(s, p); }
    forall p: nat, q: nat ensures SortedAt(s', p, q) { assert SortedAt(s, p, q); }
    forall k: nat ensures RemovedAt(s', k) { assert RemovedAt(s, k); }
    forall j: nat, k: nat ensures DistinctAt(s', j, k) { assert DistinctAt(s, j, k); }
  }

  lemma SetNextKeepsValidation(s: State, t: nat, s': State, j: nat)
    requires Inv(s) && SetsNext(s, t, s')
    ensures ValidationAt(s', j)
  {
    assert ThreadAt(s, t) && ValidationAt(s, t);
    assert ValidationAt(s, j) && ThreadAt(s, j) && PrivateAt(s, j, t) && PrivateAt(s, t, j);
    hide Inv;
  }

  /** node->next = curr: nobody else can see the node yet. */
  lemma SetNextStep(s: State, a: Action)
    requires Inv(s) && Enabled(s, a) && s.threads[a.t].pc.SetNext?
    ensures Inv(Step(s, a))
  {
    var s' := Step(s, a);
    assert SetsNext(s, a.t, s');
    hide Step;
    SetNextKeepsStructure(s, a.t, s');
    forall j: nat ensures ThreadAt(s', j) { assert ThreadAt(s, j); }
    forall j: nat ensures ValidationAt(s', j) { SetNextKeepsValidation(s, a.t, s', j); }
    forall i: nat, j: nat ensures PrivateAt(s', i, j) { assert PrivateAt(s, i, j); }
    forall n: nat ensures OwnerAt(s', n) { assert OwnerAt(s, n); }
  }

  /** Where `prev` and `curr` of a validated thread stand in the chain. */
  lemma ValidatedPosition(s: State, t: nat) returns (p: nat)
    requires Inv(s) && t < |s.threads| && Validated(s.threads[t].pc)
    ensures p + 1 < |s.chain| && p == Index(s.chain, s.threads[t].prev)
    ensures s.chain[p] == s.threads[t].prev && s.chain[p + 1] == s.threads[t].curr
    ensures Index(s.chain, s.threads[t].curr) == p + 1
    ensures s.heap[s.threads[t].curr].key < INT_MAX ==> p + 2 < |s.chain|
  {
    var u := s.threads[t];
    assert ThreadAt(s, t) && ValidationAt(s, t);
    p := Index(s.chain, u.prev);
    assert LinkAt(s, p) && SortedAt(s, p, |s.chain| - 1);
    var q := Index(s.chain, u.curr);
    assert SortedAt(s, q, p + 1) && SortedAt(s, p + 1, q);
  }

  ghost predicate Links(s: State, t: nat, s': State)
    requires Shape(s)
  {
    && t < |s.threads| && s.threads[t].pc.Link? && Shape(s')
    && var u := s.threads[t];
    && s'.heap == s.heap[u.prev := s.heap[u.prev].(next := u.node)]
    && s'.chain == InsertAfter(s.chain, u.prev, u.node)
    && s'.removed == s.removed
  }

  lemma LinkKeepsLinks(s: State, t: nat, s': State, q: nat)
    requires Inv(s) && Links(s, t, s')
    ensures LinkAt(s', q)
  {
    assert ThreadAt(s, t) && ValidationAt(s, t);
    var p := ValidatedPosition(s, t);
    if q <= p {
      assert LinkAt(s, q) && SortedAt(s, q, p);
    } else if q > p + 1 {
      assert LinkAt(s, q - 1) && SortedAt(s, p, q - 1);
    }
  }

  ghost predicate SameKeys(s: State, s': State) {
    |s'.heap| == |s.heap| && forall n :: 0 <= n < |s.heap| ==> s'.heap[n].key == s.heap[n].key
  }

  /** A node put between its neighbours keeps the order, at one pair of positions. */
  lemma InsertedOrder(s: State, s': State, p: nat, n: nat, q: nat, r: nat)
    requires Shape(s) && Shape(s') && SameKeys(s, s') && p + 1 < |s.chain| && n < |s.heap|
    requires s'.chain == s.chain[..p + 1] + [n] + s.chain[p + 1..]
    requires s.chain[p] < |s.heap| && s.chain[p + 1] < |s.heap|
    requires s.heap[s.chain[p]].key < s.heap[n].key < s.heap[s.chain[p + 1]].key
    requires SortedAt(s, q, p)
    requires r > 0 ==> SortedAt(s, p + 1, r - 1)
    requires SortedAt(s, if q <= p then q else q - 1, if r <= p then r else r - 1)
    ensures SortedAt(s', q, r)
  {
  }

  lemma LinkKeepsOrder(s: State, t: nat, s': State, q: nat, r: nat)
    requires Inv(s) && Links(s, t, s')
    ensures SortedAt(s', q, r)
  {
    assert ThreadAt(s, t) && ValidationAt(s, t);
    var p := ValidatedPosition(s, t);
    assert SortedAt(s, q, p) && (r > 0 ==> SortedAt(s, p + 1, r - 1));
    assert SortedAt(s, if q <= p then q else q - 1, if r <= p then r else r - 1);
    hide Inv, SortedAt;
    InsertedOrder(s, s', p, s.threads[t].node, q, r);
  }

  lemma LinkedMembers(s: State, t: nat, s': State)
    requires Inv(s) && Links(s, t, s')
    ensures forall n :: n in s'.chain <==> n in s.chain || n == s.threads[t].node
    ensures |s'.chain| >= 2 && s'.chain[0] == HEAD && s'.chain[|s'.chain| - 1] == TAIL
  {
    var p := ValidatedPosition(s, t);
    assert s.chain == s.chain[..p + 1] + s.chain[p + 1..];
  }

  lemma LinkKeepsStructure(s: State, t: nat, s': State)
    requires Inv(s) && Links(s, t, s')
    ensures StructureInv(s')
    ensures forall n :: n in s'.chain <==> n in s.chain || n == s.threads[t].node
  {
    assert ThreadAt(s, t) && ValidationAt(s, t);
    LinkedMembers(s, t, s');
    hide InsertAfter;
    forall q: nat ensures LinkAt(s', q) { LinkKeepsLinks(s, t, s', q); }
    forall q: nat, r: nat ensures SortedAt(s', q, r) { LinkKeepsOrder(s, t, s', q, r); }
    forall k: nat ensures RemovedAt(s', k) { assert RemovedAt(s, k); }
    forall j: nat, k: nat ensures DistinctAt(s', j, k) { assert DistinctAt(s, j, k); }
  }

  lemma LinkKeepsThread(s: State, t: nat, s': State, j: nat)
    requires Inv(s) && Links(s, t, s')
    requires s'.threads == s.threads[t := s.threads[t].(pc := UnlockPrev, answer := true)]
    ensures ThreadAt(s', j)
  {
    assert ThreadAt(s, t) && ValidationAt(s, t);
    LinkedMembers(s, t, s');
    assert ThreadAt(s, j) && PrivateAt(s, j, t) && PrivateAt(s, t, j);
    hide Inv, InsertAfter;
  }

  lemma LinkKeepsValidation(s: State, t: nat, s': State, j: nat)
    requires Inv(s) && Links(s, t, s')
    requires s'.threads == s.threads[t := s.threads[t].(pc := UnlockPrev, answer := true)]
    ensures ValidationAt(s', j)
  {
    assert ThreadAt(s, t) && ValidationAt(s, t);
    LinkedMembers(s, t, s');
    assert ValidationAt(s, j) && ThreadAt(s, j);
    hide Inv, InsertAfter;
  }

  lemma LinkStep(s: State, a: Action)
    requires Inv(s) && Enabled(s, a) && s.threads[a.t].pc.Link?
    ensures Inv(Step(s, a))
  {
    var s' := Step(s, a);
    assert ThreadAt(s, a.t) && ValidationAt(s, a.t);
    LinkKeepsStructure(s, a.t, s');
    forall j: nat ensures ThreadAt(s', j) { LinkKeepsThread(s, a.t, s', j); }
    forall j: nat ensures ValidationAt(s', j) { LinkKeepsValidation(s, a.t, s', j); }
    forall i: nat, j: nat ensures PrivateAt(s', i, j) { assert PrivateAt(s, i, j); }
    forall n: nat ensures OwnerAt(s', n) { assert OwnerAt(s, n); }
  }

  ghost predicate Unlinks(s: State, t: nat, s': State)
    requires Shape(s)
  {
    && t < |s.threads| && s.threads[t].pc.Unlink? && Shape(s')
    && var u := s.threads[t];
    && s'.heap == s.heap[u.prev := s.heap[u.prev].(next := u.succ)]
    && s'.chain == RemoveFrom(s.chain, u.curr)
    && s'.removed == s.removed + [u.curr]
  }

  lemma UnlinkKeepsLinks(s: State, t: nat, s': State, q: nat)
    requires Inv(s) && Unlinks(s, t, s')
    ensures LinkAt(s', q)
  {
    assert ThreadAt(s, t) && ValidationAt(s, t);
    var p := ValidatedPosition(s, t);
    if q <= p {
      assert LinkAt(s, q) && SortedAt(s, q, p) && LinkAt(s, p + 1);
    } else {
      assert LinkAt(s, q + 1) && SortedAt(s, p, q + 1);
    }
  }

  /** A chain without one of its nodes keeps the order, at one pair of positions. */
  lemma DeletedOrder(s: State, s': State, p: nat, q: nat, r: nat)
    requires Shape(s) && Shape(s') && SameKeys(s, s') && p < |s.chain| && s'.chain == s.chain[..p] + s.chain[p + 1..]
    requires SortedAt(s, if q < p then q else q + 1, if r < p then r else r + 1)
    ensures SortedAt(s', q, r)
  {
  }

  lemma UnlinkKeepsOrder(s: State, t: nat, s': State, q: nat, r: nat)
    requires Inv(s) && Unlinks(s, t, s')
    ensures SortedAt(s', q, r)
  {
    var at := ValidatedPosition(s, t);
    var p := at + 1;
    assert SortedAt(s, if q < p then q else q + 1, if r < p then r else r + 1);
    hide Inv, SortedAt;
    DeletedOrder(s, s', p, q, r);
  }

  lemma UnlinkKeepsChain(s: State, t: nat, s': State)
    requires Inv(s) && Unlinks(s, t, s')
    ensures |s'.chain| >= 2 && s'.chain[0] == HEAD && s'.chain[|s'.chain| - 1] == TAIL
    ensures forall q: nat :: LinkAt(s', q)
    ensures forall q: nat, r: nat :: SortedAt(s', q, r)
    ensures s.threads[t].succ in s'.chain
  {
    assert ThreadAt(s, t) && ValidationAt(s, t);
    var p := ValidatedPosition(s, t);
    assert LinkAt(s, p + 1);
    assert p + 2 < |s.chain| && s.chain[p + 2] == s.threads[t].succ;
    assert s'.chain == s.chain[..p + 1] + s.chain[p + 2..];
    assert s'.chain[p + 1] == s.threads[t].succ;
    forall q: nat ensures LinkAt(s', q) { UnlinkKeepsLinks(s, t, s', q); }
    forall q: nat, r: nat ensures SortedAt(s', q, r) { UnlinkKeepsOrder(s, t, s', q, r); }
  }

  lemma UnlinkedMembers(s: State, t: nat, s': State)
    requires Inv(s) && Unlinks(s, t, s')
    ensures forall n :: n in s.chain <==> n in s'.chain || n == s.threads[t].curr
    ensures s.threads[t].curr !in s'.chain
  {
    var p := ValidatedPosition(s, t);
    assert s.chain == s.chain[..p + 1] + [s.chain[p + 1]] + s.chain[p + 2..];
    forall q: nat | q < |s.chain| && q != p + 1 ensures s.chain[q] != s.threads[t].curr {
      assert SortedAt(s, q, p + 1) && SortedAt(s, p + 1, q);
    }
  }

  /** Being alive survives the removal of a node. */
  lemma AliveKept(s: State, s': State, curr: nat, n: nat, m: nat)
    requires Alive(s, n, m) && m <= |s.removed|
    requires forall x :: x in s.chain <==> x in s'.chain || x == curr
    requires s'.removed == s.removed + [curr]
    ensures Alive(s', n, m)
  {
    assert s'.removed[m..] == s.removed[m..] + [curr];
  }

  lemma UnlinkKeepsStructure(s: State, t: nat, s': State)
    requires Inv(s) && Unlinks(s, t, s')
    ensures StructureInv(s')
  {
    var u := s.threads[t];
    assert ThreadAt(s, t) && ValidationAt(s, t);
    UnlinkKeepsChain(s, t, s');
    UnlinkedMembers(s, t, s');
    NextAlive(s, u.curr, 0);
    forall k: nat ensures RemovedAt(s', k) {
      assert RemovedAt(s, k);
      if k < |s.removed| {
        AliveKept(s, s', u.curr, s.heap[s.removed[k]].next, k + 1);
      }
    }
    forall j: nat, k: nat ensures DistinctAt(s', j, k) { assert DistinctAt(s, j, k) && RemovedAt(s, j); }
  }

  lemma UnlinkKeepsThread(s: State, t: nat, s': State, j: nat)
    requires Inv(s) && Unlinks(s, t, s')
    requires s'.threads == s.threads[t := s.threads[t].(pc := UnlockPrev, answer := true)]
    ensures ThreadAt(s', j)
  {
    UnlinkedMembers(s, t, s');
    assert ThreadAt(s, t) && ValidationAt(s, t) && ThreadAt(s, j);
    if j < |s.threads| && Located(s.threads[j].pc) {
      AliveKept(s, s', s.threads[t].curr, s.threads[j].prev, 0);
      AliveKept(s, s', s.threads[t].curr, s.threads[j].curr, 0);
    }
    hide Inv, RemoveFrom, Alive;
  }

  lemma UnlinkKeepsValidation(s: State, t: nat, s': State, j: nat)
    requires Inv(s) && Unlinks(s, t, s')
    requires s'.threads == s.threads[t := s.threads[t].(pc := UnlockPrev, answer := true)]
    ensures ValidationAt(s', j)
  {
    UnlinkedMembers(s, t, s');
    assert ThreadAt(s, t) && ValidationAt(s, t) && ThreadAt(s, j) && ValidationAt(s, j);
    if j < |s.threads| && s.threads[j].pc.Validate? {
      AliveKept(s, s', s.threads[t].curr, s.threads[j].it, s.threads[j].mark);
      assert s'.removed[s.threads[j].mark..] == s.removed[s.threads[j].mark..] + [s.threads[t].curr];
    }
    hide Inv, RemoveFrom, Alive;
  }

  lemma UnlinkStep(s: State, a: Action)
    requires Inv(s) && Enabled(s, a) && s.threads[a.t].pc.Unlink?
    ensures Inv(Step(s, a))
  {
    var s' := Step(s, a);
    UnlinkKeepsStructure(s, a.t, s');
    forall j: nat ensures ThreadAt(s', j) { UnlinkKeepsThread(s, a.t, s', j); }
    forall j: nat ensures ValidationAt(s', j) { UnlinkKeepsValidation(s, a.t, s', j); }
    forall i: nat, j: nat ensures PrivateAt(s', i, j) { assert PrivateAt(s, i, j); }
    forall n: nat ensures OwnerAt(s', n) { assert OwnerAt(s, n); }
  }

  lemma StepInv(s: State, a: Action)
    requires Inv(s) && Enabled(s, a)
    ensures Inv(Step(s, a))
  {
    match s.threads[a.t].pc
    case Outside => CallStepKeeps(s, a);
    case Begin => BeginStep(s, a);
    case Walk => WalkStep(s, a);
    case LockPrev => LockPrevStep(s, a);
    case LockCurr => LockCurrStep(s, a);
    case BeginValidate => BeginValidateStep(s, a);
    case Validate => ValidateStepKeeps(s, a);
    case SetNext => SetNextStep(s, a);
    case Link => LinkStep(s, a);
    case Unlink => UnlinkStep(s, a);
    case Decide => OtherLocalSteps(s, a);
    case ReadNext => OtherLocalSteps(s, a);
    case Return => OtherLocalSteps(s, a);
    case UnlockPrev => UnlockSteps(s, a);
    case UnlockCurr => UnlockSteps(s, a);
    case _ => RetrySteps(s, a);
  }

  lemma {:induction false} RunInv(run: seq<State>, k: nat)
    requires IsRun(run) && k < |run|
    ensures Inv(run[k])
  {
    if k == 0 {
      var n: nat :| run[0] == Initial(n);
      InitialInv(n);
    } else {
      RunInv(run, k - 1);
      assert StepAt(run, k);
      var a :| Enabled(run[k - 1], a) && run[k] == Step(run[k - 1], a);
      StepInv(run[k - 1], a);
    }
  }
}
