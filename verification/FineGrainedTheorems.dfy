/**
 What the lock-coupling list promises, for every number of threads and every run.
 */
module FineGrainedTheorems {
  import opened Optional
  import opened SetSpec
  import opened FineGrainedList
  import opened FineGrainedProof

  /** No thread ever touches a freed node or follows the unset `next` of a half-linked one. */
  lemma RunsNeverFault(run: seq<State>, k: nat)
    requires IsRun(run) && k < |run|
    ensures !run[k].fault
  {
    RunInv(run, k);
  }

  // ---------- linearizability ----------

  lemma ChainAscends(s: State)
    requires Inv(s)
    ensures Ascending(ChainKeys(s))
    ensures forall p :: 0 <= p < |s.chain| ==> s.chain[p] < |s.heap|
  {
    forall p: nat | p < |s.chain| ensures s.chain[p] < |s.heap| { assert LinkAt(s, p); }
    forall p: nat, q: nat | p < q < |s.chain| ensures ChainKeys(s)[p] < ChainKeys(s)[q] {
      assert SortedAt(s, p, q);
    }
  }

  /** Once the walk has stopped, the list holds the key exactly when `curr` carries it. */
  lemma KeyAtCurr(s: State, t: nat)
    requires Inv(s) && t < |s.threads| && Adjacent(s.threads[t].pc)
    requires s.threads[t].op.key <= s.heap[s.threads[t].curr].key
    ensures s.threads[t].op.key in Abstract(s).keys <==> s.heap[s.threads[t].curr].key == s.threads[t].op.key
  {
    assert ThreadAt(s, t);
    ChainAscends(s);
    var p := AdjacentPosition(s, t);
    InteriorAt(ChainKeys(s), p, s.threads[t].op.key);
  }

  lemma LinkedChain(s: State, s': State, p: nat, n: nat)
    requires SameKeys(s, s') && p < |s.chain| && n < |s.heap|
    requires s'.chain == s.chain[..p + 1] + [n] + s.chain[p + 1..]
    ensures ChainKeys(s') == Inserted(ChainKeys(s), p, s.heap[n].key)
  {
  }

  lemma UnlinkedChain(s: State, s': State, p: nat)
    requires SameKeys(s, s') && p < |s.chain| && s'.chain == s.chain[..p] + s.chain[p + 1..]
    ensures ChainKeys(s') == Deleted(ChainKeys(s), p)
  {
  }

  lemma LinkAddsKey(s: State, t: nat, s': State)
    requires Links(s, t, s')
    ensures Abstract(s').keys == Abstract(s).keys + {s.threads[t].op.key}
  {
    assert EffectAt(s, t);
    var p := AdjacentPosition(s, t);
    hide Inv;
    LinkedChain(s, s', p, s.threads[t].node);
    hide ChainKeys;
    InteriorOfInserted(ChainKeys(s), p, s.threads[t].op.key);
  }

  lemma UnlinkDropsKey(s: State, t: nat, s': State)
    requires Unlinks(s, t, s')
    ensures Abstract(s').keys == Abstract(s).keys - {s.threads[t].op.key}
  {
    assert ThreadAt(s, t) && EffectAt(s, t);
    ChainAscends(s);
    var p := AdjacentPosition(s, t);
    var q := LockedIsWhole(s, t, s.threads[t].curr);
    hide Inv;
    UnlinkedChain(s, s', p + 1);
    InteriorOfDeleted(ChainKeys(s), p + 1);
  }

  lemma KeysUnchanged(s: State, a: Action)
    requires Inv(s) && Enabled(s, a) && !s.threads[a.t].pc.Link? && !s.threads[a.t].pc.Unlink?
    ensures Abstract(Step(s, a)).keys == Abstract(s).keys
  {
    ChainAscends(s);
    assert ChainKeys(Step(s, a)) == ChainKeys(s);
  }

  lemma OneThreadMoves(s: State, a: Action)
    requires Inv(s) && Enabled(s, a)
    ensures |Step(s, a).threads| == |s.threads| && Step(s, a).threads == s.threads[a.t := Step(s, a).threads[a.t]]
  {
  }

  lemma OneClientMoves(s: State, a: Action)
    requires Inv(s) && Enabled(s, a)
    ensures var s' := Step(s, a);
      && |s'.threads| == |s.threads|
      && Abstract(s').clients == Abstract(s).clients[a.t := AbstractClient(s'.threads[a.t])]
  {
    OneThreadMoves(s, a);
    hide Inv, Step;
  }

  lemma LinkTakesEffect(s: State, a: Action)
    requires Inv(s) && Enabled(s, a) && s.threads[a.t].pc.Link?
    ensures TakesEffect(Abstract(s), Abstract(Step(s, a)), a.t)
  {
    assert ThreadAt(s, a.t) && EffectAt(s, a.t);
    LinkedInHeap(s);
    OneClientMoves(s, a);
    KeyAtCurr(s, a.t);
    LinkAddsKey(s, a.t, Step(s, a));
  }

  lemma UnlinkTakesEffect(s: State, a: Action)
    requires Inv(s) && Enabled(s, a) && s.threads[a.t].pc.Unlink?
    ensures TakesEffect(Abstract(s), Abstract(Step(s, a)), a.t)
  {
    assert ThreadAt(s, a.t) && EffectAt(s, a.t);
    LinkedInHeap(s);
    OneClientMoves(s, a);
    KeyAtCurr(s, a.t);
    UnlinkDropsKey(s, a.t, Step(s, a));
  }

  lemma TestRefines(s: State, a: Action)
    requires Inv(s) && Enabled(s, a) && s.threads[a.t].pc.Test?
    ensures SpecStep(Abstract(s), Abstract(Step(s, a)), a.t, a.op)
  {
    OneClientMoves(s, a);
    KeysUnchanged(s, a);
    TestKeepsThread(s, a.t);
    var u, keys, k := s.threads[a.t], Abstract(s).keys, s.threads[a.t].op.key;
    if k <= s.heap[u.curr].key {
      KeyAtCurr(s, a.t);
    }
    assert k in keys ==> keys + {k} == keys;
    assert k !in keys ==> keys - {k} == keys;
    assert Abstract(s).clients[a.t := AbstractClient(u)] == Abstract(s).clients;
  }

  /** What the caller sees of such a step: nothing, its call, or its return. */
  lemma QuietClient(s: State, a: Action)
    requires Inv(s) && Enabled(s, a)
    requires var pc := s.threads[a.t].pc; !pc.Test? && !pc.Link? && !pc.Unlink?
    ensures |Step(s, a).threads| == |s.threads|
    ensures var c, c' := AbstractClient(s.threads[a.t]), AbstractClient(Step(s, a).threads[a.t]);
      c' == c || (c.Idle? && c' == Pending(a.op)) || (c.Done? && c'.Idle?)
  {
    assert ThreadAt(s, a.t) && EffectAt(s, a.t);
    hide Inv;
  }

  lemma QuietRefines(s: State, a: Action)
    requires Inv(s) && Enabled(s, a)
    requires var pc := s.threads[a.t].pc; !pc.Test? && !pc.Link? && !pc.Unlink?
    ensures SpecStep(Abstract(s), Abstract(Step(s, a)), a.t, a.op)
  {
    hide Inv, Step, Interior, ChainKeys, AbstractClient;
    OneClientMoves(s, a);
    KeysUnchanged(s, a);
    QuietClient(s, a);
    assert Abstract(s).clients[a.t := AbstractClient(s.threads[a.t])] == Abstract(s).clients;
  }

  lemma StepRefines(s: State, a: Action)
    requires Inv(s) && Enabled(s, a)
    ensures SpecStep(Abstract(s), Abstract(Step(s, a)), a.t, a.op)
  {
    match s.threads[a.t].pc
    case Link => LinkTakesEffect(s, a);
    case Unlink => UnlinkTakesEffect(s, a);
    case Test => TestRefines(s, a);
    case _ => QuietRefines(s, a);
  }

  ghost function AbstractRun(run: seq<State>): (r: seq<Spec>)
    ensures |r| == |run| && forall k :: 0 <= k < |run| ==> r[k] == Abstract(run[k])
  {
    seq(|run|, k requires 0 <= k < |run| => Abstract(run[k]))
  }

  /** Linearizability: every run of the list is, state by state, a run of the atomic set, in which each operation takes
      effect, once, between its call and its return. */
  lemma RunsRefineSet(run: seq<State>)
    requires IsRun(run)
    ensures IsSpecRun(AbstractRun(run))
  {
    forall k: nat ensures SpecStepAt(AbstractRun(run), k) {
      if 0 < k < |run| {
        RunInv(run, k - 1);
        assert StepAt(run, k);
        var a :| Enabled(run[k - 1], a) && run[k] == Step(run[k - 1], a);
        StepRefines(run[k - 1], a);
      }
    }
  }

  /** The answer of an operation, in the step in which it takes effect: contains and remove answer true exactly if the
      last add or remove of the key that succeeded before was an add, and add exactly if not. */
  lemma AnswersFollowSet(run: seq<State>, k: nat, t: nat)
    requires IsRun(run) && 0 < k < |run| && t < |run[k - 1].threads| && t < |run[k].threads|
    requires var c, c' := AbstractClient(run[k - 1].threads[t]), AbstractClient(run[k].threads[t]);
      c.Pending? && c'.Done? && c'.op == c.op
    ensures var c := AbstractClient(run[k].threads[t]); var held := LastWasAdd(AbstractRun(run), k - 1, c.op.key);
      c.answer <==> if c.op.Add? then !held else held
  {
    hide IsRun, IsSpecRun, LastWasAdd, AbstractClient;
    RunsRefineSet(run);
    var c := AbstractClient(run[k].threads[t]);
    AnswersAre(AbstractRun(run), k, t, c.op, c.answer);
  }

  // ---------- reclamation ----------

  /** The thread holds the lock of n, waits for it, or would read n next. */
  predicate Uses(u: Thread, n: nat) {
    (HoldsPrev(u.pc) && u.prev == n) || ((HoldsCurr(u.pc) || u.pc.LockCurr? || u.pc.Free?) && u.curr == n)
    || ((Private(u) || u.pc.SetNext?) && u.node == n)
  }

  /** When a node is freed no other thread uses it, it is not linked, and no linked node points at it. */
  lemma FreeIsSafe(run: seq<State>, k: nat, t: nat)
    requires IsRun(run) && k < |run| && t < |run[k].threads| && run[k].threads[t].pc.Free?
    ensures var s, n := run[k], run[k].threads[t].curr;
      && n !in s.chain
      && (forall j :: 0 <= j < |s.threads| && j != t ==> !Uses(s.threads[j], n))
      && (forall p :: 0 <= p < |s.chain| && s.chain[p] < |s.heap| && s.chain[p] != TAIL ==>
        s.heap[s.chain[p]].next != Some(n))
  {
    var s, n := run[k], run[k].threads[t].curr;
    RunInv(run, k);
    assert EffectAt(s, t);
    forall j: nat | j < |s.threads| && j != t ensures !Uses(s.threads[j], n) {
      assert ThreadAt(s, j) && EffectAt(s, j) && PairAt(s, j, t);
      if s.threads[j].pc.SetNext? {
        var p := HalfLinkedPosition(s, j);
      }
    }
    HalfLinkedNodes(s);
    forall p: nat | p < |s.chain| && s.chain[p] < |s.heap| && s.chain[p] != TAIL
      ensures s.heap[s.chain[p]].next != Some(n)
    {
      assert LinkAt(s, p);
    }
  }

  /** A thread about to return from a remove that succeeded has freed the node it unlinked. */
  ghost predicate ReclaimedAt(s: State, t: nat) {
    t < |s.threads| && s.threads[t].pc.Return? && MustFree(s.threads[t]) ==>
      s.threads[t].curr < |s.heap| && s.heap[s.threads[t].curr].freed
  }

  lemma FreedStays(s: State, a: Action, n: nat)
    requires Shape(s) && Enabled(s, a) && n < |s.heap| && s.heap[n].freed
    ensures n < |Step(s, a).heap| && Step(s, a).heap[n].freed
  {
    hide InsertAfter, RemoveFrom;
  }

  lemma OwnStepReclaims(s: State, a: Action)
    requires Inv(s) && Enabled(s, a)
    ensures ReclaimedAt(Step(s, a), a.t)
  {
    StepInv(s, a);
    assert ThreadAt(s, a.t) && Shape(s) && !Step(s, a).fault;
    hide Inv, InsertAfter, RemoveFrom;
  }

  lemma StepReclaims(s: State, a: Action, t: nat)
    requires Inv(s) && Enabled(s, a) && ReclaimedAt(s, t)
    ensures ReclaimedAt(Step(s, a), t)
  {
    if t == a.t {
      OwnStepReclaims(s, a);
    } else {
      OneThreadMoves(s, a);
      assert Shape(s);
      hide Inv, Step;
      if t < |s.threads| && s.threads[t].pc.Return? && MustFree(s.threads[t]) {
        FreedStays(s, a, s.threads[t].curr);
      }
    }
  }

  lemma NothingToReclaim(n: nat, t: nat)
    ensures ReclaimedAt(Initial(n), t)
  {
  }

  /** No leak: whoever returns from a remove that succeeded has freed the node. */
  lemma {:induction false} RemovedIsFreed(run: seq<State>, k: nat, t: nat)
    requires IsRun(run) && k < |run|
    ensures ReclaimedAt(run[k], t)
  {
    if k == 0 {
      var n: nat :| run[0] == Initial(n);
      NothingToReclaim(n, t);
    } else {
      hide Step, Inv, ReclaimedAt, Enabled;
      RemovedIsFreed(run, k - 1, t);
      RunInv(run, k - 1);
      assert StepAt(run, k);
      var a :| Enabled(run[k - 1], a) && run[k] == Step(run[k - 1], a);
      StepReclaims(run[k - 1], a, t);
    }
  }

  // ---------- no deadlock ----------

  predicate Wants(u: Thread, n: nat) {
    (u.pc.LockHead? && u.prev == n) || (u.pc.LockCurr? && u.curr == n)
  }

  predicate Blocked(s: State, t: nat) {
    && t < |s.threads|
    && exists n :: 0 <= n < |s.heap| && Wants(s.threads[t], n) && s.heap[n].owner != FREE
  }

  /** A thread that waits for a lock while it holds another waits for the larger key. */
  lemma WaitsGoUp(run: seq<State>, k: nat, t: nat, held: nat, wanted: nat)
    requires IsRun(run) && k < |run| && t < |run[k].threads|
    requires held < |run[k].heap| && run[k].heap[held].owner == t && Wants(run[k].threads[t], wanted)
    ensures wanted < |run[k].heap| && run[k].heap[held].key < run[k].heap[wanted].key
  {
    RunInv(run, k);
    assert OwnerAt(run[k], held);
    var p := AdjacentPosition(run[k], t);
  }

  ghost function WantedKey(s: State, t: nat): int
    requires Shape(s) && t < |s.threads|
  {
    if s.threads[t].pc.LockHead? then s.heap[s.threads[t].prev].key else s.heap[s.threads[t].curr].key
  }

  /** Behind every blocked thread there is one that can move: lock waits form no cycle. */
  lemma {:induction false} SomeoneCanMove(s: State, t: nat) returns (j: nat)
    requires Inv(s) && Blocked(s, t)
    ensures j < |s.threads| && !s.threads[j].pc.Outside? && !Blocked(s, j)
    decreases INT_MAX - WantedKey(s, t)
  {
    var n :| 0 <= n < |s.heap| && Wants(s.threads[t], n) && s.heap[n].owner != FREE;
    assert OwnerAt(s, n);
    var o: nat := s.heap[n].owner;
    if Blocked(s, o) {
      var p := AdjacentPosition(s, o);
      assert SortedAt(s, p + 1, |s.chain| - 1);
      j := SomeoneCanMove(s, o);
    } else {
      j := o;
    }
  }

  lemma NoDeadlock(run: seq<State>, k: nat, t: nat)
    requires IsRun(run) && k < |run| && Blocked(run[k], t)
    ensures exists j :: 0 <= j < |run[k].threads| && !run[k].threads[j].pc.Outside? && !Blocked(run[k], j)
  {
    RunInv(run, k);
    var j := SomeoneCanMove(run[k], t);
  }
}
