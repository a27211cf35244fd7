/**
 The sequential meaning of the concurrent lists of Lab11: an atomic set of ints shared by clients.
 An implementation whose every step maps to a step of this machine, or to none, is linearizable:
 each operation takes effect once, between its call and its return, and returns what it saw.
 */
module SetSpec {

  const INT_MIN: int := -0x8000_0000
  const INT_MAX: int := 0x7fff_ffff

  datatype Op = Add(key: int) | Remove(key: int) | Contains(key: int)

  predicate ValidOp(op: Op) {
    INT_MIN < op.key < INT_MAX
  }

  /** The set after the operation, and its answer. */
  function Apply(s: set<int>, op: Op): (set<int>, bool) {
    match op
    case Add(k) => (s + {k}, k !in s)
    case Remove(k) => (s - {k}, k in s)
    case Contains(k) => (s, k in s)
  }

  datatype Client = Idle | Pending(op: Op) | Done(op: Op, answer: bool)

  datatype Spec = Spec(keys: set<int>, clients: seq<Client>)

  predicate Calls(a: Spec, b: Spec, t: nat, op: Op) {
    t < |a.clients| && a.clients[t].Idle? && b == a.(clients := a.clients[t := Pending(op)])
  }

  predicate TakesEffect(a: Spec, b: Spec, t: nat) {
    && t < |a.clients| && a.clients[t].Pending?
    && var (keys, answer) := Apply(a.keys, a.clients[t].op);
    b == Spec(keys, a.clients[t := Done(a.clients[t].op, answer)])
  }

  predicate Returns(a: Spec, b: Spec, t: nat) {
    t < |a.clients| && a.clients[t].Done? && b == a.(clients := a.clients[t := Idle])
  }

  /** One step of client t of the atomic set, or no visible change. */
  predicate SpecStep(a: Spec, b: Spec, t: nat, op: Op) {
    b == a || Calls(a, b, t, op) || TakesEffect(a, b, t) || Returns(a, b, t)
  }

  /** Some client makes a step of the atomic set, or nothing visible happens. */
  ghost predicate SpecNext(a: Spec, b: Spec) {
    exists t: nat, op: Op :: SpecStep(a, b, t, op)
  }

  ghost predicate SpecStepAt(run: seq<Spec>, k: nat) {
    0 < k < |run| ==> SpecNext(run[k - 1], run[k])
  }

  /** A run of the atomic set: it starts empty with nobody calling, and every operation takes effect in one step. */
  ghost predicate IsSpecRun(run: seq<Spec>) {
    && run != [] && run[0].keys == {} && (forall c :: c in run[0].clients ==> c.Idle?)
    && forall k: nat :: SpecStepAt(run, k)
  }

  // ---------- what the answers mean ----------

  /** In the step to state k, the operation of client t takes effect with that answer. */
  ghost predicate TookEffect(run: seq<Spec>, k: nat, t: nat, op: Op, answer: bool) {
    && 0 < k < |run| && t < |run[k - 1].clients| && t < |run[k].clients|
    && run[k - 1].clients[t] == Pending(op) && run[k].clients[t] == Done(op, answer)
  }

  ghost predicate Succeeds(run: seq<Spec>, k: nat, op: Op) {
    exists t: nat :: TookEffect(run, k, t, op, true)
  }

  /** Of the adds and removes of the key that have succeeded by state k, the last was an add. */
  ghost predicate LastWasAdd(run: seq<Spec>, k: nat, key: int) {
    exists j: nat :: j <= k && Succeeds(run, j, Add(key)) && NoRemove(run, j, k, key)
  }

  ghost predicate NoRemove(run: seq<Spec>, j: nat, k: nat, key: int) {
    forall i: nat :: j < i <= k ==> !Succeeds(run, i, Remove(key))
  }

  /** What one step does to a key, seen from the answers it gives. */
  lemma KeyStep(run: seq<Spec>, k: nat, key: int)
    requires IsSpecRun(run) && 0 < k < |run|
    ensures key in run[k].keys <==>
      Succeeds(run, k, Add(key)) || (key in run[k - 1].keys && !Succeeds(run, k, Remove(key)))
    ensures !(Succeeds(run, k, Add(key)) && Succeeds(run, k, Remove(key)))
  {
    var a, b := run[k - 1], run[k];
    assert SpecStepAt(run, k);
    var t: nat, op: Op :| SpecStep(a, b, t, op);
    if TakesEffect(a, b, t) {
      assert TookEffect(run, k, t, a.clients[t].op, Apply(a.keys, a.clients[t].op).1);
    }
    assert forall j: nat :: j != t && j < |a.clients| && j < |b.clients| ==> a.clients[j] == b.clients[j];
  }

  lemma LastWasAddStep(run: seq<Spec>, k: nat, key: int)
    requires 0 < k < |run| && !(Succeeds(run, k, Add(key)) && Succeeds(run, k, Remove(key)))
    ensures LastWasAdd(run, k, key) <==>
      Succeeds(run, k, Add(key)) || (LastWasAdd(run, k - 1, key) && !Succeeds(run, k, Remove(key)))
  {
    hide Succeeds;
    if Succeeds(run, k, Add(key)) {
      assert NoRemove(run, k, k, key);
    }
    if LastWasAdd(run, k, key) && !Succeeds(run, k, Add(key)) {
      var j: nat :| j <= k && Succeeds(run, j, Add(key)) && NoRemove(run, j, k, key);
      assert j <= k - 1 && NoRemove(run, j, k - 1, key);
    }
    if LastWasAdd(run, k - 1, key) && !Succeeds(run, k, Remove(key)) {
      var j: nat :| j <= k - 1 && Succeeds(run, j, Add(key)) && NoRemove(run, j, k - 1, key);
      assert NoRemove(run, j, k, key);
    }
  }

  /** A key is in the set exactly if the last add or remove of it that succeeded was an add. */
  lemma {:induction false} KeysAre(run: seq<Spec>, k: nat, key: int)
    requires IsSpecRun(run) && k < |run|
    ensures key in run[k].keys <==> LastWasAdd(run, k, key)
  {
    if k > 0 {
      KeysAre(run, k - 1, key);
      KeyStep(run, k, key);
      LastWasAddStep(run, k, key);
    }
  }

  /** The law of the set, on answers alone: a contains or remove answers true exactly if the last add or remove of the
      key that succeeded before it was an add, and an add exactly if not. */
  lemma AnswersAre(run: seq<Spec>, k: nat, t: nat, op: Op, answer: bool)
    requires IsSpecRun(run) && TookEffect(run, k, t, op, answer)
    ensures answer <==> if op.Add? then !LastWasAdd(run, k - 1, op.key) else LastWasAdd(run, k - 1, op.key)
  {
    KeysAre(run, k - 1, op.key);
    assert SpecStepAt(run, k);
    var j: nat, o: Op :| SpecStep(run[k - 1], run[k], j, o);
    hide LastWasAdd;
  }

  // ---------- the linked nodes of a list, in order ----------

  function Index(chain: seq<nat>, n: nat): (p: nat)
    ensures p <= |chain|
    ensures p < |chain| ==> chain[p] == n
    ensures p == |chain| ==> n !in chain
  {
    if chain == [] || chain[0] == n then 0 else 1 + Index(chain[1..], n)
  }

  function InsertAfter(chain: seq<nat>, prev: nat, n: nat): seq<nat> {
    var p := Index(chain, prev);
    if p < |chain| then chain[..p + 1] + [n] + chain[p + 1..] else chain
  }

  function RemoveFrom(chain: seq<nat>, n: nat): seq<nat> {
    var p := Index(chain, n);
    if p < |chain| then chain[..p] + chain[p + 1..] else chain
  }

  // ---------- the keys of a list, sentinels included ----------

  ghost predicate Ascending(keys: seq<int>) {
    forall p, q :: 0 <= p < q < |keys| ==> keys[p] < keys[q]
  }

  /** The keys strictly between the two sentinels. */
  ghost function Interior(keys: seq<int>): set<int> {
    set p | 0 < p < |keys| - 1 :: keys[p]
  }

  function Inserted(keys: seq<int>, p: nat, k: int): seq<int>
    requires p < |keys|
  {
    keys[..p + 1] + [k] + keys[p + 1..]
  }

  function Deleted(keys: seq<int>, p: nat): seq<int>
    requires p < |keys|
  {
    keys[..p] + keys[p + 1..]
  }

  lemma InteriorOfInserted(keys: seq<int>, p: nat, k: int)
    requires p + 1 < |keys|
    ensures Interior(Inserted(keys, p, k)) == Interior(keys) + {k}
  {
    var keys' := Inserted(keys, p, k);
    forall x | x in Interior(keys) ensures x in Interior(keys') {
      var q :| 0 < q < |keys| - 1 && keys[q] == x;
      assert keys'[if q <= p then q else q + 1] == x;
    }
    assert keys'[p + 1] == k;
    forall x | x in Interior(keys') ensures x in Interior(keys) + {k} {
      var q :| 0 < q < |keys'| - 1 && keys'[q] == x;
      assert q == p + 1 || x == keys[if q <= p then q else q - 1];
    }
  }

  lemma InteriorOfDeleted(keys: seq<int>, p: nat)
    requires 0 < p < |keys| - 1 && Ascending(keys)
    ensures Interior(Deleted(keys, p)) == Interior(keys) - {keys[p]}
  {
    var keys' := Deleted(keys, p);
    forall x | x in Interior(keys) - {keys[p]} ensures x in Interior(keys') {
      var q :| 0 < q < |keys| - 1 && keys[q] == x;
      assert keys'[if q < p then q else q - 1] == x;
    }
    forall x | x in Interior(keys') ensures x in Interior(keys) - {keys[p]} {
      var q :| 0 < q < |keys'| - 1 && keys'[q] == x;
      assert x == keys[if q < p then q else q + 1];
    }
  }

  /** Between two neighbours around k, the list holds k exactly when the right one does. */
  lemma InteriorAt(keys: seq<int>, p: nat, k: int)
    requires p + 1 < |keys| && Ascending(keys) && keys[p] < k <= keys[p + 1] && k < keys[|keys| - 1]
    ensures k in Interior(keys) <==> keys[p + 1] == k
  {
  }
}
