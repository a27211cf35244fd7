/**
 The optimistic list of Lab11 as a transition system: walks without locks, then locks two nodes,
 then validates by walking again from the head.  One call of `Step` is one shared access of one
 thread.  Nodes are never freed, so an address is an index into `heap` and is never reused.

 `chain` (the nodes reachable from the head, in order), `removed` (the unlinked nodes, in the order
 of their removal) and `mark` are history variables: the program never reads them.
 */
module OptimisticList {
  import opened SetSpec

  const FREE: int := -1
  const HEAD: nat := 0
  const TAIL: nat := 1

  datatype Node = Node(key: int, next: nat, owner: int)

  datatype Pc =
    | Outside          // between two operations
    | Begin            // prev = head; curr = head->next
    | Walk             // while (curr->key < key)
    | LockPrev | LockCurr
    | BeginValidate    // it = head
    | Validate         // one iteration of the loop in list_validate
    | Decide           // validation succeeded
    | SetNext          // node->next = curr
    | Link             // prev->next = node
    | ReadNext         // the load of curr->next in list_remove
    | Unlink           // prev->next = curr->next
    | RetryUnlockPrev | RetryUnlockCurr
    | UnlockPrev | UnlockCurr
    | Return

  datatype Thread = Thread(
    pc: Pc,
    op: Op,
    prev: nat,
    curr: nat,
    node: nat,     // the node list_add allocates
    it: nat,
    succ: nat,
    answer: bool,
    mark: nat)     // how many nodes were removed when validation began

  datatype State = State(heap: seq<Node>, threads: seq<Thread>, chain: seq<nat>, removed: seq<nat>)

  /** A step of thread t; `op` is the next operation of its workload, used when it is idle. */
  datatype Action = Action(t: nat, op: Op)

  function Initial(n: nat): State {
    State([Node(INT_MIN, TAIL, FREE), Node(INT_MAX, TAIL, FREE)],
          seq(n, _ => Thread(Outside, Contains(0), HEAD, HEAD, HEAD, HEAD, HEAD, false, 0)),
          [HEAD, TAIL], [])
  }

  // ---------- steps ----------

  predicate Shape(s: State) {
    && |s.heap| >= 2
    && (forall n :: 0 <= n < |s.heap| ==> s.heap[n].next < |s.heap|)
    && (forall t :: 0 <= t < |s.threads| ==>
         var u := s.threads[t];
         u.prev < |s.heap| && u.curr < |s.heap| && u.node < |s.heap| && u.it < |s.heap| && u.succ < |s.heap|)
  }

  predicate Enabled(s: State, a: Action) {
    a.t < |s.threads| && ValidOp(a.op)
  }

  function Put(s: State, t: nat, u: Thread): State
    requires t < |s.threads|
  {
    s.(threads := s.threads[t := u])
  }

  function SetOwner(s: State, n: nat, owner: int): State
    requires n < |s.heap|
  {
    s.(heap := s.heap[n := s.heap[n].(owner := owner)])
  }

  function SetNextOf(s: State, n: nat, next: nat): State
    requires n < |s.heap|
  {
    s.(heap := s.heap[n := s.heap[n].(next := next)])
  }

  /** list_add allocates its node when it is called; the other operations allocate nothing. */
  function CallStep(s: State, t: nat, op: Op): State
    requires t < |s.threads|
  {
    var u := s.threads[t].(pc := Begin, op := op);
    if op.Add? then Put(s, t, u.(node := |s.heap|)).(heap := s.heap + [Node(op.key, HEAD, FREE)])
    else Put(s, t, u)
  }

  function ValidateStep(s: State, t: nat): State
    requires Shape(s) && t < |s.threads|
  {
    var u := s.threads[t];
    if s.heap[u.it].key <= s.heap[u.prev].key then
      if u.it == u.prev then
        Put(s, t, u.(pc := if s.heap[u.it].next == u.curr then Decide else RetryUnlockPrev))
      else Put(s, t, u.(it := s.heap[u.it].next))
    else Put(s, t, u.(pc := RetryUnlockPrev))
  }

  /** Under both locks, after a successful validation. */
  function DecideStep(s: State, t: nat): State
    requires Shape(s) && t < |s.threads|
  {
    var u := s.threads[t];
    var found := s.heap[u.curr].key == u.op.key;
    match u.op
    case Add(_) =>
      if found then Put(s, t, u.(pc := UnlockPrev, answer := false)) else Put(s, t, u.(pc := SetNext))
    case Remove(_) =>
      if !found then Put(s, t, u.(pc := UnlockPrev, answer := false)) else Put(s, t, u.(pc := ReadNext))
    case Contains(_) => Put(s, t, u.(pc := UnlockPrev, answer := found))
  }

  function Step(s: State, a: Action): State
    requires Shape(s) && Enabled(s, a)
  {
    var t := a.t;
    var u := s.threads[t];
    match u.pc
    case Outside => CallStep(s, t, a.op)
    case Begin => Put(s, t, u.(pc := Walk, prev := HEAD, curr := s.heap[HEAD].next))
    case Walk =>
      if s.heap[u.curr].key < u.op.key then Put(s, t, u.(prev := u.curr, curr := s.heap[u.curr].next))
      else Put(s, t, u.(pc := LockPrev))
    case LockPrev =>
      if s.heap[u.prev].owner == FREE then SetOwner(Put(s, t, u.(pc := LockCurr)), u.prev, t) else s
    case LockCurr =>
      if s.heap[u.curr].owner == FREE then SetOwner(Put(s, t, u.(pc := BeginValidate)), u.curr, t) else s
    case BeginValidate => Put(s, t, u.(pc := Validate, it := HEAD, mark := |s.removed|))
    case Validate => ValidateStep(s, t)
    case Decide => DecideStep(s, t)
    case SetNext => SetNextOf(Put(s, t, u.(pc := Link)), u.node, u.curr)
    case Link =>
      SetNextOf(Put(s, t, u.(pc := UnlockPrev, answer := true)), u.prev, u.node)
        .(chain := InsertAfter(s.chain, u.prev, u.node))
    case ReadNext => Put(s, t, u.(pc := Unlink, succ := s.heap[u.curr].next))
    case Unlink =>
      SetNextOf(Put(s, t, u.(pc := UnlockPrev, answer := true)), u.prev, u.succ)
        .(chain := RemoveFrom(s.chain, u.curr), removed := s.removed + [u.curr])
    case RetryUnlockPrev => SetOwner(Put(s, t, u.(pc := RetryUnlockCurr)), u.prev, FREE)
    case RetryUnlockCurr => SetOwner(Put(s, t, u.(pc := Begin)), u.curr, FREE)
    case UnlockPrev => SetOwner(Put(s, t, u.(pc := UnlockCurr)), u.prev, FREE)
    case UnlockCurr => SetOwner(Put(s, t, u.(pc := Return)), u.curr, FREE)
    case Return => Put(s, t, u.(pc := Outside))
  }

  ghost predicate Next(s: State, s': State) {
    Shape(s) && exists a :: Enabled(s, a) && s' == Step(s, a)
  }

  ghost predicate StepAt(run: seq<State>, k: nat) {
    0 < k < |run| ==> Next(run[k - 1], run[k])
  }

  ghost predicate IsRun(run: seq<State>) {
    && run != []
    && (exists n: nat :: run[0] == Initial(n))
    && forall k: nat :: StepAt(run, k)
  }

  // ---------- the abstract set ----------

  /** The operation has taken effect. */
  predicate Effective(pc: Pc) {
    pc.UnlockPrev? || pc.UnlockCurr? || pc.Return?
  }

  function AbstractClient(u: Thread): Client {
    if u.pc.Outside? then Idle
    else if Effective(u.pc) then Done(u.op, u.answer)
    else Pending(u.op)
  }

  /** The keys of the linked nodes, in order. */
  ghost function ChainKeys(s: State): seq<int> {
    seq(|s.chain|, p requires 0 <= p < |s.chain| => if s.chain[p] < |s.heap| then s.heap[s.chain[p]].key else 0)
  }

  ghost function Abstract(s: State): Spec {
    Spec(Interior(ChainKeys(s)), seq(|s.threads|, t requires 0 <= t < |s.threads| => AbstractClient(s.threads[t])))
  }
}
