/**
 The lock-coupling list of Lab11 as a transition system.  One call of `Step` is one shared access
 of one thread.  A removed node is freed; `fault` is raised by any access to a freed node and by
 following a `next` field that has not been set.  Addresses are not reused.

 `chain`, the nodes reachable from the head in order, is a history variable.  Between the two
 writes of list_add the new node is in the chain although its `next` is still unset.
 */
module FineGrainedList {
  import opened SetSpec
  import opened Optional

  const FREE: int := -1
  const HEAD: nat := 0
  const TAIL: nat := 1

  datatype Node = Node(key: int, next: Option<nat>, owner: int, freed: bool)

  datatype Pc =
    | Outside
    | LockHead
    | ReadFirst        // curr = head->next
    | LockCurr
    | Test             // curr->key against key
    | UnlockBehind     // unlock(prev) in the walk
    | Advance          // prev = curr; curr = curr->next
    | Link             // prev->next = node
    | SetNext          // node->next = curr, after the node is published
    | ReadNext | Unlink
    | UnlockPrev | UnlockCurr
    | Free             // free(curr) in list_remove
    | Return

  datatype Thread = Thread(pc: Pc, op: Op, prev: nat, curr: nat, node: nat, succ: nat, answer: bool)

  datatype State = State(heap: seq<Node>, threads: seq<Thread>, chain: seq<nat>, fault: bool)

  datatype Action = Action(t: nat, op: Op)

  function Initial(n: nat): State {
    State([Node(INT_MIN, Some(TAIL), FREE, false), Node(INT_MAX, None, FREE, false)],
          seq(n, _ => Thread(Outside, Contains(0), HEAD, HEAD, HEAD, HEAD, false)),
          [HEAD, TAIL], false)
  }

  predicate Shape(s: State) {
    && |s.heap| >= 2
    && (forall n :: 0 <= n < |s.heap| && s.heap[n].next.Some? ==> s.heap[n].next.value < |s.heap|)
    && (forall t :: 0 <= t < |s.threads| ==>
         var u := s.threads[t];
         u.prev < |s.heap| && u.curr < |s.heap| && u.node < |s.heap| && u.succ < |s.heap|)
  }

  predicate Enabled(s: State, a: Action) {
    a.t < |s.threads| && ValidOp(a.op)
  }

  function Put(s: State, t: nat, u: Thread): State
    requires t < |s.threads|
  {
    s.(threads := s.threads[t := u])
  }

  function Fault(s: State): State {
    s.(fault := true)
  }

  function SetOwner(s: State, n: nat, owner: int): State
    requires n < |s.heap|
  {
    if s.heap[n].freed then Fault(s) else s.(heap := s.heap[n := s.heap[n].(owner := owner)])
  }

  function SetNextOf(s: State, n: nat, next: nat): State
    requires n < |s.heap|
  {
    if s.heap[n].freed then Fault(s) else s.(heap := s.heap[n := s.heap[n].(next := Some(next))])
  }

  function CallStep(s: State, t: nat, op: Op): State
    requires t < |s.threads|
  {
    var u := s.threads[t].(pc := LockHead, op := op, prev := HEAD);
    if op.Add? then Put(s, t, u.(node := |s.heap|)).(heap := s.heap + [Node(op.key, None, FREE, false)])
    else Put(s, t, u)
  }

  function TestStep(s: State, t: nat): State
    requires Shape(s) && t < |s.threads|
  {
    var u := s.threads[t];
    var key := s.heap[u.curr].key;
    if s.heap[u.curr].freed then Fault(s)
    else if key < u.op.key then Put(s, t, u.(pc := UnlockBehind))
    else match u.op
      case Add(k) => Put(s, t, if key == k then u.(pc := UnlockPrev, answer := false) else u.(pc := Link))
      case Remove(k) => Put(s, t, if key != k then u.(pc := UnlockPrev, answer := false) else u.(pc := ReadNext))
      case Contains(k) => Put(s, t, u.(pc := UnlockPrev, answer := key == k))
  }

  /** The thread has unlinked `curr` and has to free it. */
  predicate MustFree(u: Thread) {
    u.op.Remove? && u.answer
  }

  function Step(s: State, a: Action): State
    requires Shape(s) && Enabled(s, a)
  {
    var t := a.t;
    var u := s.threads[t];
    match u.pc
    case Outside => CallStep(s, t, a.op)
    case LockHead =>
      if s.heap[u.prev].owner == FREE then SetOwner(Put(s, t, u.(pc := ReadFirst)), u.prev, t) else s
    case ReadFirst =>
      if s.heap[HEAD].next.None? then Fault(s) else Put(s, t, u.(pc := LockCurr, curr := s.heap[HEAD].next.value))
    case LockCurr =>
      if s.heap[u.curr].owner == FREE then SetOwner(Put(s, t, u.(pc := Test)), u.curr, t) else s
    case Test => TestStep(s, t)
    case UnlockBehind => SetOwner(Put(s, t, u.(pc := Advance)), u.prev, FREE)
    case Advance =>
      if s.heap[u.curr].freed || s.heap[u.curr].next.None? then Fault(s)
      else Put(s, t, u.(pc := LockCurr, prev := u.curr, curr := s.heap[u.curr].next.value))
    case Link =>
      SetNextOf(Put(s, t, u.(pc := SetNext)), u.prev, u.node).(chain := InsertAfter(s.chain, u.prev, u.node))
    case SetNext => SetNextOf(Put(s, t, u.(pc := UnlockPrev, answer := true)), u.node, u.curr)
    case ReadNext =>
      if s.heap[u.curr].freed || s.heap[u.curr].next.None? then Fault(s)
      else Put(s, t, u.(pc := Unlink, succ := s.heap[u.curr].next.value))
    case Unlink =>
      SetNextOf(Put(s, t, u.(pc := UnlockPrev, answer := true)), u.prev, u.succ)
        .(chain := RemoveFrom(s.chain, u.curr))
    case UnlockPrev => SetOwner(Put(s, t, u.(pc := UnlockCurr)), u.prev, FREE)
    case UnlockCurr => SetOwner(Put(s, t, u.(pc := if MustFree(u) then Free else Return)), u.curr, FREE)
    case Free =>
      if s.heap[u.curr].freed then Fault(s)
      else Put(s, t, u.(pc := Return)).(heap := s.heap[u.curr := s.heap[u.curr].(freed := true)])
    case Return => Put(s, t, u.(pc := Outside))
  }

  ghost predicate Next(s: State, s': State) {
    Shape(s) && exists a :: Enabled(s, a) && s' == Step(s, a)
  }

  ghost predicate StepAt(run: seq<State>, k: nat) {
    0 < k < |run| ==> Next(run[k - 1], run[k])
  }

  ghost predicate IsRun(run: seq<State>) {
    && run != []
    && (exists n: nat :: run[0] == Initial(n))
    && forall k: nat :: StepAt(run, k)
  }

  // ---------- the abstract set ----------

  /** The operation has taken effect; list_add does so with its first write. */
  predicate Effective(pc: Pc) {
    pc.SetNext? || pc.UnlockPrev? || pc.UnlockCurr? || pc.Free? || pc.Return?
  }

  function AbstractClient(u: Thread): Client {
    if u.pc.Outside? then Idle
    else if u.pc.SetNext? then Done(u.op, true)
    else if Effective(u.pc) then Done(u.op, u.answer)
    else Pending(u.op)
  }

  ghost function ChainKeys(s: State): seq<int> {
    seq(|s.chain|, p requires 0 <= p < |s.chain| => if s.chain[p] < |s.heap| then s.heap[s.chain[p]].key else 0)
  }

  ghost function Abstract(s: State): Spec {
    Spec(Interior(ChainKeys(s)), seq(|s.threads|, t requires 0 <= t < |s.threads| => AbstractClient(s.threads[t])))
  }
}
