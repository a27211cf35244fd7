/**
 What the optimistic list promises, for every number of threads and every run.
 */
module OptimisticTheorems {
  import opened SetSpec
  import opened OptimisticList
  import opened OptimisticProof

  // ---------- linearizability ----------

  /** Where following `next` from the head leads after a number of steps. */
  ghost function Follow(heap: seq<Node>, steps: nat): nat {
    if steps == 0 then HEAD
    else
      var n := Follow(heap, steps - 1);
      if n < |heap| then heap[n].next else n
  }

  /** The chain of linked nodes is what can be reached in the heap. */
  lemma {:induction false} ChainIsReachable(s: State, p: nat)
    requires Inv(s) && p < |s.chain|
    ensures Follow(s.heap, p) == s.chain[p]
  {
    if p > 0 {
      ChainIsReachable(s, p - 1);
      assert LinkAt(s, p - 1);
    }
  }

  /** A validation that succeeds under both locks has found a node that is reachable now, and its successor. */
  lemma ValidationIsSound(run: seq<State>, k: nat, t: nat)
    requires IsRun(run) && k < |run| && t < |run[k].threads| && Validated(run[k].threads[t].pc)
    ensures var s, u := run[k], run[k].threads[t];
      && (exists steps: nat :: Follow(s.heap, steps) == u.prev)
      && u.prev < |s.heap| && s.heap[u.prev].next == u.curr && u.prev in s.chain
      && s.heap[u.prev].owner == t && s.heap[u.prev].key < u.op.key
  {
    RunInv(run, k);
    var p := ValidatedPosition(run[k], t);
    ChainIsReachable(run[k], p);
    assert ThreadAt(run[k], t) && ValidationAt(run[k], t);
  }

  lemma ChainAscends(s: State)
    requires Inv(s)
    ensures Ascending(ChainKeys(s))
    ensures forall p :: 0 <= p < |s.chain| ==> s.chain[p] < |s.heap|
  {
    forall p: nat, q: nat | p < q < |s.chain| ensures ChainKeys(s)[p] < ChainKeys(s)[q] {
      assert SortedAt(s, p, q);
    }
    forall p: nat | p < |s.chain| ensures s.chain[p] < |s.heap| { assert LinkAt(s, p); }
  }

  /** Between validated neighbours the list holds the key exactly when `curr` carries it. */
  lemma KeyAtCurr(s: State, t: nat)
    requires Inv(s) && t < |s.threads| && Validated(s.threads[t].pc)
    ensures s.threads[t].op.key in Abstract(s).keys <==> s.heap[s.threads[t].curr].key == s.threads[t].op.key
  {
    assert ThreadAt(s, t);
    ChainAscends(s);
    var p := ValidatedPosition(s, t);
    InteriorAt(ChainKeys(s), p, s.threads[t].op.key);
  }

  lemma LinkedChain(s: State, s': State, p: nat, n: nat)
    requires SameKeys(s, s') && p < |s.chain| && n < |s.heap|
    requires s'.chain == s.chain[..p + 1] + [n] + s.chain[p + 1..]
    ensures ChainKeys(s') == Inserted(ChainKeys(s), p, s.heap[n].key)
  {
  }

  lemma UnlinkedChain(s: State, s': State, p: nat)
    requires SameKeys(s, s') && p < |s.chain| && s'.chain == s.chain[..p] + s.chain[p + 1..]
    ensures ChainKeys(s') == Deleted(ChainKeys(s), p)
  {
  }

  lemma LinkAddsKey(s: State, a: Action)
    requires Inv(s) && Enabled(s, a) && s.threads[a.t].pc.Link?
    ensures Abstract(Step(s, a)).keys == Abstract(s).keys + {s.threads[a.t].op.key}
  {
    var s', u := Step(s, a), s.threads[a.t];
    assert ThreadAt(s, a.t) && ValidationAt(s, a.t);
    var p := ValidatedPosition(s, a.t);
    hide Inv;
    LinkedChain(s, s', p, u.node);
    hide ChainKeys, Step;
    InteriorOfInserted(ChainKeys(s), p, u.op.key);
  }

  lemma UnlinkDropsKey(s: State, a: Action)
    requires Inv(s) && Enabled(s, a) && s.threads[a.t].pc.Unlink?
    ensures Abstract(Step(s, a)).keys == Abstract(s).keys - {s.threads[a.t].op.key}
  {
    var s', u := Step(s, a), s.threads[a.t];
    assert ThreadAt(s, a.t) && ValidationAt(s, a.t);
    ChainAscends(s);
    var p := ValidatedPosition(s, a.t);
    hide Inv;
    UnlinkedChain(s, s', p + 1);
    hide Step;
    InteriorOfDeleted(ChainKeys(s), p + 1);
  }

  /** The other steps leave the set of keys alone. */
  lemma KeysUnchanged(s: State, a: Action)
    requires Inv(s) && Enabled(s, a) && !s.threads[a.t].pc.Link? && !s.threads[a.t].pc.Unlink?
    ensures Abstract(Step(s, a)).keys == Abstract(s).keys
  {
    ChainAscends(s);
    assert ChainKeys(Step(s, a)) == ChainKeys(s);
  }

  lemma OneClientMoves(s: State, a: Action)
    requires Inv(s) && Enabled(s, a)
    ensures var s' := Step(s, a);
      && |s'.threads| == |s.threads|
      && Abstract(s').clients == Abstract(s).clients[a.t := AbstractClient(s'.threads[a.t])]
  {
    var s' := Step(s, a);
    assert s'.threads == s.threads[a.t := s'.threads[a.t]];
  }

  lemma LinkTakesEffect(s: State, a: Action)
    requires Inv(s) && Enabled(s, a) && s.threads[a.t].pc.Link?
    ensures TakesEffect(Abstract(s), Abstract(Step(s, a)), a.t)
  {
    assert ValidationAt(s, a.t);
    OneClientMoves(s, a);
    KeyAtCurr(s, a.t);
    LinkAddsKey(s, a);
  }

  lemma UnlinkTakesEffect(s: State, a: Action)
    requires Inv(s) && Enabled(s, a) && s.threads[a.t].pc.Unlink?
    ensures TakesEffect(Abstract(s), Abstract(Step(s, a)), a.t)
  {
    assert ValidationAt(s, a.t);
    OneClientMoves(s, a);
    KeyAtCurr(s, a.t);
    UnlinkDropsKey(s, a);
  }

  lemma DecideRefines(s: State, a: Action)
    requires Inv(s) && Enabled(s, a) && s.threads[a.t].pc.Decide?
    ensures SpecStep(Abstract(s), Abstract(Step(s, a)), a.t, a.op)
  {
    OneClientMoves(s, a);
    KeyAtCurr(s, a.t);
    KeysUnchanged(s, a);
    var keys, k := Abstract(s).keys, s.threads[a.t].op.key;
    assert k in keys ==> keys + {k} == keys;
    assert k !in keys ==> keys - {k} == keys;
  }

  /** What the caller sees of such a step: nothing, its call, or its return. */
  lemma QuietClient(s: State, a: Action)
    requires Inv(s) && Enabled(s, a)
    requires var pc := s.threads[a.t].pc; !pc.Decide? && !pc.Link? && !pc.Unlink?
    ensures |Step(s, a).threads| == |s.threads|
    ensures var c, c' := AbstractClient(s.threads[a.t]), AbstractClient(Step(s, a).threads[a.t]);
      c' == c || (c.Idle? && c' == Pending(a.op)) || (c.Done? && c'.Idle?)
  {
  }

  lemma QuietRefines(s: State, a: Action)
    requires Inv(s) && Enabled(s, a)
    requires var pc := s.threads[a.t].pc; !pc.Decide? && !pc.Link? && !pc.Unlink?
    ensures SpecStep(Abstract(s), Abstract(Step(s, a)), a.t, a.op)
  {
    hide Inv, Step, Interior, ChainKeys, AbstractClient;
    OneClientMoves(s, a);
    KeysUnchanged(s, a);
    QuietClient(s, a);
    assert Abstract(s).clients[a.t := AbstractClient(s.threads[a.t])] == Abstract(s).clients;
  }

  lemma StepRefines(s: State, a: Action)
    requires Inv(s) && Enabled(s, a)
    ensures SpecStep(Abstract(s), Abstract(Step(s, a)), a.t, a.op)
  {
    match s.threads[a.t].pc
    case Link => LinkTakesEffect(s, a);
    case Unlink => UnlinkTakesEffect(s, a);
    case Decide => DecideRefines(s, a);
    case _ => QuietRefines(s, a);
  }

  ghost function AbstractRun(run: seq<State>): (r: seq<Spec>)
    ensures |r| == |run| && forall k :: 0 <= k < |run| ==> r[k] == Abstract(run[k])
  {
    seq(|run|, k requires 0 <= k < |run| => Abstract(run[k]))
  }

  /** Linearizability: every run of the list is, state by state, a run of the atomic set. */
  lemma RunsRefineSet(run: seq<State>)
    requires IsRun(run)
    ensures IsSpecRun(AbstractRun(run))
  {
    forall k: nat ensures SpecStepAt(AbstractRun(run), k) {
      if 0 < k < |run| {
        RunInv(run, k - 1);
        assert StepAt(run, k);
        var a :| Enabled(run[k - 1], a) && run[k] == Step(run[k - 1], a);
        StepRefines(run[k - 1], a);
      }
    }
  }

  /** The answer of an operation, in the step in which it takes effect: contains and remove answer true exactly if the
      last add or remove of the key that succeeded before was an add, and add exactly if not. */
  lemma AnswersFollowSet(run: seq<State>, k: nat, t: nat)
    requires IsRun(run) && 0 < k < |run| && t < |run[k - 1].threads| && t < |run[k].threads|
    requires var c, c' := AbstractClient(run[k - 1].threads[t]), AbstractClient(run[k].threads[t]);
      c.Pending? && c'.Done? && c'.op == c.op
    ensures var u := run[k].threads[t]; var held := LastWasAdd(AbstractRun(run), k - 1, u.op.key);
      u.answer <==> if u.op.Add? then !held else held
  {
    hide IsRun, IsSpecRun, LastWasAdd;
    RunsRefineSet(run);
    var u := run[k].threads[t];
    AnswersAre(AbstractRun(run), k, t, u.op, u.answer);
  }

  // ---------- removed nodes ----------

  /** Every step leaves the nodes removed so far, and where they point, as they are. */
  lemma RemovedFrozen(s: State, a: Action, i: nat)
    requires Inv(s) && Enabled(s, a) && i < |s.removed|
    ensures var s' := Step(s, a);
      && i < |s'.removed| && s'.removed[i] == s.removed[i] && s.removed[i] < |s.heap| <= |s'.heap|
      && s'.heap[s.removed[i]].next == s.heap[s.removed[i]].next
      && s'.heap[s.removed[i]].key == s.heap[s.removed[i]].key
  {
    assert RemovedAt(s, i) && ThreadAt(s, a.t) && ValidationAt(s, a.t);
  }

  /** A node once removed keeps its successor for the rest of the run. */
  lemma {:induction false} RemovedStaysFrozen(run: seq<State>, j: nat, k: nat, i: nat)
    requires IsRun(run) && j <= k < |run| && i < |run[j].removed|
    ensures i < |run[k].removed| && run[k].removed[i] == run[j].removed[i]
    ensures run[j].removed[i] < |run[j].heap| <= |run[k].heap|
    ensures run[k].heap[run[j].removed[i]].next == run[j].heap[run[j].removed[i]].next
    decreases k
  {
    RunInv(run, j);
    assert RemovedAt(run[j], i);
    if j < k {
      RemovedStaysFrozen(run, j, k - 1, i);
      RunInv(run, k - 1);
      assert StepAt(run, k);
      var a :| Enabled(run[k - 1], a) && run[k] == Step(run[k - 1], a);
      RemovedFrozen(run[k - 1], a, i);
    }
  }

  // ---------- walks end ----------

  /** Each step of an unlocked walk, and of a validation walk, moves to a strictly larger key, never beyond
      the tail, even when the node it leaves has been unlinked meanwhile. */
  lemma WalksAdvance(run: seq<State>, k: nat, a: Action)
    requires IsRun(run) && k < |run| && Enabled(run[k], a)
    requires Shape(run[k])
    ensures var s, u, u' := run[k], run[k].threads[a.t], Step(run[k], a).threads[a.t];
      && (u.pc.Walk? && u'.pc.Walk? ==> s.heap[u.curr].key < s.heap[u'.curr].key <= INT_MAX)
      && (u.pc.Validate? && u'.pc.Validate? ==> s.heap[u.it].key < s.heap[u'.it].key <= INT_MAX)
  {
    var s, u := run[k], run[k].threads[a.t];
    RunInv(run, k);
    assert ThreadAt(s, a.t) && ValidationAt(s, a.t);
    if u.pc.Walk? && s.heap[u.curr].key < u.op.key {
      NextAlive(s, u.curr, 0);
      AliveInHeap(s, s.heap[u.curr].next, 0);
    } else if u.pc.Validate? && s.heap[u.it].key <= s.heap[u.prev].key {
      AliveInHeap(s, u.it, u.mark);
      NextAlive(s, u.it, u.mark);
      AliveInHeap(s, s.heap[u.it].next, u.mark);
    }
  }

  // ---------- no deadlock ----------

  /** The node whose lock the thread is about to take. */
  predicate Wants(u: Thread, n: nat) {
    (u.pc.LockPrev? && u.prev == n) || (u.pc.LockCurr? && u.curr == n)
  }

  predicate Blocked(s: State, t: nat) {
    && t < |s.threads|
    && exists n :: 0 <= n < |s.heap| && Wants(s.threads[t], n) && s.heap[n].owner != FREE
  }

  /** A thread that waits for a lock while it holds another waits for the larger key. */
  lemma WaitsGoUp(run: seq<State>, k: nat, t: nat, held: nat, wanted: nat)
    requires IsRun(run) && k < |run| && t < |run[k].threads|
    requires held < |run[k].heap| && run[k].heap[held].owner == t && Wants(run[k].threads[t], wanted)
    ensures wanted < |run[k].heap| && run[k].heap[held].key < run[k].heap[wanted].key
  {
    RunInv(run, k);
    assert ThreadAt(run[k], t) && OwnerAt(run[k], held);
  }

  /** Behind every blocked thread there is one that can move: lock waits form no cycle. */
  lemma {:induction false} SomeoneCanMove(s: State, t: nat) returns (j: nat)
    requires Inv(s) && Blocked(s, t)
    ensures j < |s.threads| && !s.threads[j].pc.Outside? && !Blocked(s, j)
    decreases INT_MAX - s.heap[if s.threads[t].pc.LockPrev? then s.threads[t].prev else s.threads[t].curr].key
  {
    var n :| 0 <= n < |s.heap| && Wants(s.threads[t], n) && s.heap[n].owner != FREE;
    assert ThreadAt(s, t) && OwnerAt(s, n);
    var o: nat := s.heap[n].owner;
    if Blocked(s, o) {
      assert ThreadAt(s, o);
      AliveInHeap(s, s.threads[o].curr, 0);
      j := SomeoneCanMove(s, o);
    } else {
      j := o;
    }
  }

  /** If anybody is inside an operation, somebody who is inside is not waiting for a lock. */
  lemma NoDeadlock(run: seq<State>, k: nat, t: nat)
    requires IsRun(run) && k < |run| && t < |run[k].threads| && !run[k].threads[t].pc.Outside?
    ensures exists j :: 0 <= j < |run[k].threads| && !run[k].threads[j].pc.Outside? && !Blocked(run[k], j)
  {
    if Blocked(run[k], t) {
      RunInv(run, k);
      var j := SomeoneCanMove(run[k], t);
    }
  }
}
