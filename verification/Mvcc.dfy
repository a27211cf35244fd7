/**
 The multi-version store of Project2: N updaters, one garbage collector and the MyMutex lock,
 as a transition system.  One call of `Step` is one atomic step of one thread: one shared read,
 write or compare-and-swap, or a stretch of code that runs while the thread holds `g_mutex`.

 A node of a version list is named by the version it holds (versions are unique within a list),
 so a pointer is an `Option<int>` and a pointer is dangling when its version has left the list.
 `fault` is raised by a read through a dangling pointer, by a failing assertion of the source
 and by an erase that does not find its node.
 */
module Mvcc {
  import opened Optional

  const EMPTY: int := -1
  const INT_MAX: int := 0x7fff_ffff
  const A_PLUS_B: int := 100

  datatype Data = Data(version: int, A: int, B: int)

  datatype ActiveThread = ActiveThread(id: nat, version: int)

  datatype UpdaterPc =
    | LockCas | LockTest | TakeVersion | PushActive | CopyView | UnlockBegin
    | Choose | Walk | Publish
    | EndLockCas | EndLockTest | EraseActive | UnlockEnd

  /** The locals of one updater.  `snapshot` is a history variable: the committed version of every
      thread at the moment this updater copied its read-view.  The code never reads it. */
  datatype Updater = Updater(
    pc: UpdaterPc,
    myVersion: int,
    myRecent: int,
    view: seq<ActiveThread>,
    chosen: nat,
    node: Option<int>,
    read: Data,
    numUpdates: nat,
    snapshot: seq<Data>)

  datatype GcPc =
    | GcLockCas | GcLockTest | GcLast | GcUnlock
    | GcScan(next: nat)
    | GcLoad(list: nat)
    | GcSeek(list: nat, node: Option<int>)
    | GcKeep(list: nat, node: Option<int>)
    | GcErase(list: nat, prev: int)

  /** `committed[i]` is a history variable: the newest version of thread i published by an update
      that has left the active list (or the initial version). */
  datatype State = State(
    execOrder: int,
    throne: int,
    active: seq<ActiveThread>,
    lists: seq<seq<Data>>,
    updaters: seq<Updater>,
    gcPc: GcPc,
    bound: int,
    committed: seq<Data>,
    fault: bool)

  /** A step of updater `t`, which picks thread `i` when it is about to choose one, or of the collector. */
  datatype Action = Update(t: nat, i: nat) | Collect

  // ---------- lists ----------

  /** Position of the node holding `version`, or |list| when it has been freed. */
  function Position(list: seq<Data>, version: int): (p: nat)
    ensures p <= |list|
    ensures p < |list| ==> list[p].version == version
    ensures forall k :: 0 <= k < p ==> list[k].version != version
  {
    if list == [] || list[0].version == version then 0 else 1 + Position(list[1..], version)
  }

  function NodeAt(list: seq<Data>, p: nat): Option<int> {
    if p < |list| then Some(list[p].version) else None
  }

  /** Position of thread `id` in a list of active threads, or its length. */
  function EntryOf(entries: seq<ActiveThread>, id: nat): (p: nat)
    ensures p <= |entries|
    ensures p < |entries| ==> entries[p].id == id
    ensures forall k :: 0 <= k < p ==> entries[k].id != id
  {
    if entries == [] || entries[0].id == id then 0 else 1 + EntryOf(entries[1..], id)
  }

  predicate InView(view: seq<ActiveThread>, id: nat) {
    EntryOf(view, id) < |view|
  }

  function Reversed(entries: seq<ActiveThread>): seq<ActiveThread> {
    if entries == [] then [] else Reversed(entries[1..]) + [entries[0]]
  }

  function Without<T>(list: seq<T>, p: nat): (r: seq<T>)
    requires p < |list|
    ensures |r| == |list| - 1
  {
    list[..p] + list[p + 1..]
  }

  /** The remainder of C++: it takes the sign of the dividend. */
  function Rem(a: int, n: int): int
    requires n > 0
  {
    if a >= 0 then a % n else -((-a) % n)
  }

  function NewVersion(version: int, x: Data, i: Data): Data {
    Data(version, x.A + Rem(i.A, 100), x.B - Rem(i.A, 100))
  }

  // ---------- program counters ----------

  predicate Critical(pc: UpdaterPc) {
    pc.TakeVersion? || pc.PushActive? || pc.CopyView? || pc.UnlockBegin? || pc.EraseActive? || pc.UnlockEnd?
  }

  predicate GcCritical(pc: GcPc) {
    pc.GcLast? || pc.GcUnlock?
  }

  /** The thread has an entry in the active list. */
  predicate Listed(pc: UpdaterPc) {
    pc.CopyView? || pc.UnlockBegin? || pc.Choose? || pc.Walk? || pc.Publish? || pc.EndLockCas? || pc.EndLockTest?
      || pc.EraseActive?
  }

  /** A version number has been taken and the new version is not published yet. */
  predicate Unpublished(pc: UpdaterPc) {
    pc.PushActive? || pc.CopyView? || pc.UnlockBegin? || pc.Choose? || pc.Walk? || pc.Publish?
  }

  /** The new version is published and the thread is still in the active list. */
  predicate Leaving(pc: UpdaterPc) {
    pc.EndLockCas? || pc.EndLockTest? || pc.EraseActive?
  }

  /** The thread holds a read-view and has not published yet. */
  predicate Reading(pc: UpdaterPc) {
    pc.UnlockBegin? || pc.Choose? || pc.Walk? || pc.Publish?
  }

  function GcId(s: State): int {
    |s.updaters| + 100
  }

  // ---------- initial state ----------

  predicate ValidSeedData(a: seq<int>) {
    forall i :: 0 <= i < |a| ==> 0 <= a[i] < A_PLUS_B
  }

  function InitialData(a: seq<int>): seq<Data> {
    seq(|a|, i requires 0 <= i < |a| => Data(i, a[i], A_PLUS_B - a[i]))
  }

  /** The state in which `main` starts the threads, `a[i]` being the random draw for thread i. */
  function Initial(a: seq<int>): State {
    State(|a|, EMPTY, [],
          seq(|a|, i requires 0 <= i < |a| => [InitialData(a)[i]]),
          seq(|a|, i => Updater(LockCas, 0, 0, [], 0, None, Data(0, 0, 0), 0, [])),
          GcLockCas, INT_MAX, InitialData(a), false)
  }

  // ---------- steps ----------

  predicate Shape(s: State) {
    && |s.lists| == |s.updaters| == |s.committed|
    && (forall i :: 0 <= i < |s.lists| ==> s.lists[i] != [])
    && (forall t :: 0 <= t < |s.updaters| ==> s.updaters[t].chosen < |s.updaters|)
  }

  predicate Enabled(s: State, a: Action) {
    a.Update? ==> a.t < |s.updaters| && a.i < |s.updaters|
  }

  function Put(s: State, t: nat, u: Updater): State
    requires t < |s.updaters|
  {
    s.(updaters := s.updaters[t := u])
  }

  function Goto(s: State, t: nat, pc: UpdaterPc): State
    requires t < |s.updaters|
  {
    Put(s, t, s.updaters[t].(pc := pc))
  }

  function Cas(s: State, id: int): State {
    if s.throne == EMPTY then s.(throne := id) else s
  }

  function Fault(s: State): State {
    s.(fault := true)
  }

  /** One iteration of the loop that looks for the version to read in the list of `chosen`. */
  function WalkStep(s: State, t: nat): State
    requires Shape(s) && t < |s.updaters|
  {
    var u := s.updaters[t];
    var list := s.lists[u.chosen];
    if u.node.None? then Fault(s)                            // assert(found)
    else
      var p := Position(list, u.node.value);
      if p == |list| then Fault(s)                           // the node has been freed
      else
        var d := list[p];
        var entry := EntryOf(u.view, u.chosen);
        if entry < |u.view| then
          var target := u.view[entry].version;
          if d.version < target then Fault(s)                // assert(version >= target)
          else if d.version == target then Put(s, t, u.(pc := Publish, read := d))
          else Put(s, t, u.(node := NodeAt(list, p + 1)))
        else if d.version < u.myVersion then Put(s, t, u.(pc := Publish, read := d))
        else Put(s, t, u.(node := NodeAt(list, p + 1)))
  }

  function UpdaterStep(s: State, t: nat, i: nat): State
    requires Shape(s) && t < |s.updaters| && i < |s.updaters|
  {
    var u := s.updaters[t];
    match u.pc
    case LockCas => Goto(Cas(s, t), t, LockTest)
    case LockTest => Goto(s, t, if s.throne == t then TakeVersion else LockCas)
    case TakeVersion =>
      Put(s, t, u.(pc := PushActive, myVersion := s.execOrder)).(execOrder := s.execOrder + 1)
    case PushActive =>
      var recent := s.lists[t][0].version;
      Put(s, t, u.(pc := CopyView, myRecent := recent)).(active := [ActiveThread(t, recent)] + s.active)
    case CopyView => Put(s, t, u.(pc := UnlockBegin, view := Reversed(s.active), snapshot := s.committed))
    case UnlockBegin => Goto(s, t, Choose).(throne := EMPTY)
    case Choose => Put(s, t, u.(pc := Walk, chosen := i, node := NodeAt(s.lists[i], 0)))
    case Walk => WalkStep(s, t)
    case Publish =>
      Goto(s, t, EndLockCas).(lists := s.lists[t := [NewVersion(u.myVersion, s.lists[t][0], u.read)] + s.lists[t]])
    case EndLockCas => Goto(Cas(s, t), t, EndLockTest)
    case EndLockTest => Goto(s, t, if s.throne == t then EraseActive else EndLockCas)
    case EraseActive =>
      var p := EntryOf(s.active, t);
      if p == |s.active| then Fault(s)
      else Goto(s, t, UnlockEnd).(active := Without(s.active, p), committed := s.committed[t := s.lists[t][0]])
    case UnlockEnd => Put(s, t, u.(pc := LockCas, numUpdates := u.numUpdates + 1)).(throne := EMPTY)
  }

  function LastActive(active: seq<ActiveThread>): int {
    if active == [] then INT_MAX else active[|active| - 1].version
  }

  function Min(x: int, y: int): int {
    if x < y then x else y
  }

  /** Follow `next` from the node `v` of list i, then continue as `k` says. */
  function GcFollow(s: State, i: nat, v: int, k: Option<int> -> GcPc): State
    requires i < |s.lists|
  {
    var p := Position(s.lists[i], v);
    if p == |s.lists[i]| then Fault(s) else s.(gcPc := k(NodeAt(s.lists[i], p + 1)))
  }

  function GcStep(s: State): State
    requires Shape(s)
  {
    match s.gcPc
    case GcLockCas => Cas(s, GcId(s)).(gcPc := GcLockTest)
    case GcLockTest => s.(gcPc := if s.throne == GcId(s) then GcLast else GcLockCas)
    case GcLast => s.(gcPc := GcUnlock, bound := LastActive(s.active))
    case GcUnlock => s.(gcPc := GcScan(0), throne := EMPTY)
    case GcScan(k) =>
      if k < |s.lists| then s.(gcPc := GcScan(k + 1), bound := Min(s.lists[k][0].version, s.bound))
      else s.(gcPc := GcLoad(0))
    case GcLoad(i) =>
      if i < |s.lists| then s.(gcPc := GcSeek(i, NodeAt(s.lists[i], 0)))
      else s.(gcPc := GcLockCas)
    case GcSeek(i, node) =>
      if i >= |s.lists| then Fault(s)
      else if node.None? then s.(gcPc := GcLoad(i + 1))
      else if node.value < s.bound then GcFollow(s, i, node.value, n => GcKeep(i, n))
      else GcFollow(s, i, node.value, n => GcSeek(i, n))
    case GcKeep(i, node) =>
      s.(gcPc := if node.None? then GcLoad(i + 1) else GcErase(i, node.value))
    case GcErase(i, prev) =>
      if i >= |s.lists| then Fault(s)
      else
        var p := Position(s.lists[i], prev);
        if p == |s.lists[i]| then Fault(s)
        else if p + 1 == |s.lists[i]| then s.(gcPc := GcLoad(i + 1))
        else s.(lists := s.lists[i := Without(s.lists[i], p + 1)])
  }

  function Step(s: State, a: Action): State
    requires Shape(s) && Enabled(s, a)
  {
    match a
    case Update(t, i) => UpdaterStep(s, t, i)
    case Collect => GcStep(s)
  }

  ghost predicate Next(s: State, s': State) {
    Shape(s) && exists a :: Enabled(s, a) && s' == Step(s, a)
  }

  /** State k of the run follows from the one before it by one step of some thread. */
  ghost predicate StepAt(run: seq<State>, k: nat) {
    0 < k < |run| ==> Next(run[k - 1], run[k])
  }

  /** A run of the program: any interleaving, of any length, from any random seed data. */
  ghost predicate IsRun(run: seq<State>) {
    && run != []
    && (exists a :: ValidSeedData(a) && run[0] == Initial(a))
    && forall k: nat :: StepAt(run, k)
  }
}
