/**
 What every step of the multi-version store keeps, and what follows for every run.
 */
module MvccProof {
  import opened Optional
  import opened Mvcc

  // ---------- the invariant ----------

  ghost predicate Descending(list: seq<Data>) {
    forall j, k :: 0 <= j < k < |list| ==> list[j].version > list[k].version
  }

  ghost predicate Holds(list: seq<Data>, v: int) {
    exists k :: 0 <= k < |list| && list[k].version == v
  }

  ghost predicate GoodList(list: seq<Data>, limit: int) {
    && list != []
    && Descending(list)
    && forall k :: 0 <= k < |list| ==> list[k].version < limit && list[k].A + list[k].B == A_PLUS_B
  }

  /** MyMutex: whoever is in a critical section sits on the throne. */
  ghost predicate HolderAt(s: State, t: nat) {
    t < |s.updaters| && Critical(s.updaters[t].pc) ==> s.throne == t
  }

  ghost predicate MutexInv(s: State) {
    && (forall t: nat :: HolderAt(s, t))
    && (GcCritical(s.gcPc) ==> s.throne == GcId(s))
  }

  ghost predicate EntryAt(s: State, j: nat) {
    j < |s.active| ==>
      && s.active[j].id < |s.updaters|
      && Listed(s.updaters[s.active[j].id].pc)
      && s.active[j].version == s.updaters[s.active[j].id].myRecent
  }

  ghost predicate ListedAt(s: State, t: nat) {
    t < |s.updaters| && Listed(s.updaters[t].pc) ==> InView(s.active, t)
  }

  ghost predicate DistinctIds(entries: seq<ActiveThread>) {
    forall j, k :: 0 <= j < k < |entries| ==> entries[j].id != entries[k].id
  }

  /** The active list holds exactly one entry for each thread that has joined and not left. */
  ghost predicate ActiveInv(s: State) {
    && (forall j: nat :: EntryAt(s, j))
    && (forall t: nat :: ListedAt(s, t))
    && DistinctIds(s.active)
  }

  /** What a thread knows about its own list and its committed version. */
  ghost predicate Owner(u: Updater, list: seq<Data>, committed: Data, limit: int) {
    && list != []
    && (Unpublished(u.pc) ==> list[0].version < u.myVersion < limit)
    && (Listed(u.pc) && !Leaving(u.pc) ==> list[0].version == u.myRecent)
    && (if Leaving(u.pc) then |list| >= 2 && committed == list[1] && list[1].version == u.myRecent
        else committed == list[0])
  }

  /** What the read-view of `u` guarantees about the list of thread i, whose locals are `w`: the
      snapshot is still there, and at most one newer version is older than u's own version number. */
  ghost predicate Snap(u: Updater, i: nat, w: Updater, list: seq<Data>) {
    && i < |u.snapshot|
    && list != []
    && var snap := u.snapshot[i];
    && snap in list
    && snap.version < u.myVersion
    && (forall j, k :: 0 <= j < k < |list| && list[k].version > snap.version ==> list[j].version > u.myVersion)
    && (Unpublished(w.pc) ==> w.myVersion > u.myVersion || (InView(u.view, i) && list[0] == snap))
    && (if InView(u.view, i) then u.view[EntryOf(u.view, i)].version == snap.version
        else forall k :: 0 <= k < |list| && list[k].version > snap.version ==> list[k].version > u.myVersion)
  }

  /** Where a walking reader stands, and what it has found when it is done. */
  ghost predicate Cursor(u: Updater, list: seq<Data>) {
    && (Reading(u.pc) ==> u.chosen < |u.snapshot|)
    && (u.pc == Walk ==> u.node.Some? && u.node.value >= u.snapshot[u.chosen].version && Holds(list, u.node.value))
    && (u.pc == Publish ==> u.read == u.snapshot[u.chosen])
  }

  /** The collector has scanned the head of list j. */
  predicate Scanned(pc: GcPc, j: nat) {
    match pc
    case GcScan(k) => j < k
    case GcLoad(_) => true
    case GcSeek(_, _) => true
    case GcKeep(_, _) => true
    case GcErase(_, _) => true
    case _ => false
  }

  /** Some version newer than `v` is below the bound. */
  ghost predicate NewerBelow(list: seq<Data>, v: int, bound: int) {
    exists k :: 0 <= k < |list| && v < list[k].version < bound
  }

  ghost predicate ScanAt(s: State, j: nat)
    requires Shape(s)
  {
    j < |s.lists| && Scanned(s.gcPc, j) ==> s.bound <= s.lists[j][0].version
  }

  ghost predicate CollectorInv(s: State)
    requires Shape(s)
  {
    && (forall j: nat :: ScanAt(s, j))
    && match s.gcPc
       case GcSeek(i, node) => i < |s.lists| && (node.Some? ==> Holds(s.lists[i], node.value))
       case GcKeep(i, node) =>
         i < |s.lists| &&
         (node.Some? ==> Holds(s.lists[i], node.value) && NewerBelow(s.lists[i], node.value, s.bound))
       case GcErase(i, prev) =>
         i < |s.lists| && Holds(s.lists[i], prev) && NewerBelow(s.lists[i], prev, s.bound)
       case _ => true
  }

  ghost predicate GoodAt(s: State, i: nat) {
    i < |s.lists| ==> GoodList(s.lists[i], s.execOrder)
  }

  ghost predicate OwnerAt(s: State, t: nat)
    requires Shape(s)
  {
    t < |s.updaters| ==> Owner(s.updaters[t], s.lists[t], s.committed[t], s.execOrder)
  }

  /** While t holds the lock with its version number taken, that number is the largest around. */
  ghost predicate FreshAt(s: State, t: nat, i: nat)
    requires Shape(s)
  {
    t < |s.updaters| && i < |s.updaters| && (s.updaters[t].pc.PushActive? || s.updaters[t].pc.CopyView?) ==>
      && s.lists[i][0].version < s.updaters[t].myVersion
      && (i != t && Unpublished(s.updaters[i].pc) ==> s.updaters[i].myVersion < s.updaters[t].myVersion)
  }

  ghost predicate SnapAt(s: State, r: nat, i: nat)
    requires Shape(s)
  {
    r < |s.updaters| && i < |s.updaters| && Reading(s.updaters[r].pc) ==>
      Snap(s.updaters[r], i, s.updaters[i], s.lists[i])
  }

  ghost predicate CursorAt(s: State, r: nat)
    requires Shape(s)
  {
    r < |s.updaters| ==> Cursor(s.updaters[r], s.lists[s.updaters[r].chosen])
  }

  ghost predicate Inv(s: State) {
    && Shape(s)
    && !s.fault
    && (forall i: nat :: GoodAt(s, i))
    && MutexInv(s)
    && ActiveInv(s)
    && (forall t: nat :: OwnerAt(s, t))
    && (forall t: nat, i: nat :: FreshAt(s, t, i))
    && (forall r: nat, i: nat :: SnapAt(s, r, i))
    && (forall r: nat :: CursorAt(s, r))
    && CollectorInv(s)
  }

  lemma InitialInv(a: seq<int>)
    requires ValidSeedData(a)
    ensures Inv(Initial(a))
  {
  }

  // ---------- lists ----------

  lemma {:induction false} ReversedView(entries: seq<ActiveThread>)
    ensures |Reversed(entries)| == |entries|
    ensures forall k :: 0 <= k < |entries| ==> Reversed(entries)[k] == entries[|entries| - 1 - k]
  {
    if entries != [] {
      ReversedView(entries[1..]);
    }
  }

  // ---------- steps that leave lists, active list and counters alone ----------

  /** Updater t moves on without changing anything another thread can observe but the throne. */
  ghost predicate Quiet(s: State, s': State, t: nat) {
    && Shape(s) && t < |s.updaters| && |s'.updaters| == |s.updaters|
    && var u, u' := s.updaters[t], s'.updaters[t];
    && s' == s.(throne := s'.throne, updaters := s.updaters[t := u'])
    && u' == u.(pc := u'.pc, chosen := u'.chosen, node := u'.node, read := u'.read, numUpdates := u'.numUpdates)
    && u'.chosen < |s.updaters|
    && Unpublished(u'.pc) == Unpublished(u.pc)
    && Listed(u'.pc) == Listed(u.pc)
    && Leaving(u'.pc) == Leaving(u.pc)
    && Reading(u'.pc) == Reading(u.pc)
    && !u'.pc.PushActive? && !u'.pc.CopyView?
    && Cursor(u', s.lists[u'.chosen])
  }

  lemma QuietKeeps(s: State, s': State, t: nat)
    requires Inv(s) && Quiet(s, s', t) && MutexInv(s')
    ensures Inv(s')
  {
    forall i: nat ensures GoodAt(s', i) { assert GoodAt(s, i); }
    forall j: nat ensures EntryAt(s', j) { assert EntryAt(s, j); }
    forall j: nat ensures ListedAt(s', j) { assert ListedAt(s, j); }
    forall j: nat ensures OwnerAt(s', j) { assert OwnerAt(s, j); }
    forall r: nat, i: nat ensures FreshAt(s', r, i) { assert FreshAt(s, r, i); }
    forall r: nat, i: nat ensures SnapAt(s', r, i) { assert SnapAt(s, r, i); }
    forall r: nat ensures CursorAt(s', r) { assert CursorAt(s, r); }
    forall j: nat ensures ScanAt(s', j) { assert ScanAt(s, j); }
  }

  lemma LockSteps(s: State, t: nat, i: nat)
    requires Inv(s) && t < |s.updaters| && i < |s.updaters|
    requires var pc := s.updaters[t].pc; pc.LockCas? || pc.LockTest? || pc.EndLockCas? || pc.EndLockTest?
    ensures Inv(UpdaterStep(s, t, i))
  {
    var s' := UpdaterStep(s, t, i);
    forall j: nat ensures HolderAt(s', j) { assert HolderAt(s, j); }
    assert CursorAt(s, t);
    QuietKeeps(s, s', t);
  }

  lemma UnlockSteps(s: State, t: nat, i: nat)
    requires Inv(s) && t < |s.updaters| && i < |s.updaters|
    requires s.updaters[t].pc.UnlockBegin? || s.updaters[t].pc.UnlockEnd?
    ensures Inv(UpdaterStep(s, t, i))
  {
    var s' := UpdaterStep(s, t, i);
    assert HolderAt(s, t) && CursorAt(s, t);
    forall j: nat ensures HolderAt(s', j) { assert HolderAt(s, j); }
    QuietKeeps(s, s', t);
  }

  lemma ChooseStep(s: State, t: nat, i: nat)
    requires Inv(s) && t < |s.updaters| && i < |s.updaters| && s.updaters[t].pc.Choose?
    ensures Inv(UpdaterStep(s, t, i))
  {
    var s' := UpdaterStep(s, t, i);
    forall j: nat ensures HolderAt(s', j) { assert HolderAt(s, j); }
    assert SnapAt(s, t, i) && GoodAt(s, i);
    QuietKeeps(s, s', t);
  }

  lemma SnapParts(u: Updater, i: nat, w: Updater, list: seq<Data>) returns (k: nat)
    requires Snap(u, i, w, list)
    ensures k < |list| && i < |u.snapshot| && list[k] == u.snapshot[i]
    ensures !InView(u.view, i) ==>
      forall j :: 0 <= j < |list| && list[j].version > u.snapshot[i].version ==> list[j].version > u.myVersion
  {
    k :| 0 <= k < |list| && list[k] == u.snapshot[i];
  }

  /** Where the node of a walk stands in the list, relative to the snapshot. */
  lemma WalkPosition(u: Updater, w: Updater, list: seq<Data>)
    requires u.pc.Walk? && Descending(list) && Cursor(u, list) && u.chosen < |u.snapshot| && Snap(u, u.chosen, w, list)
    ensures var p, snap := Position(list, u.node.value), u.snapshot[u.chosen];
      && p < |list| && list[p].version >= snap.version && (list[p].version == snap.version ==> list[p] == snap)
      && (list[p].version > snap.version ==>
           && p + 1 < |list| && list[p + 1].version >= snap.version
           && (!InView(u.view, u.chosen) ==> list[p].version > u.myVersion))
  {
    hide Position, Snap, InView;
    var k := SnapParts(u, u.chosen, w, list);
    var p := Position(list, u.node.value);
    assert p <= k;
    if p < k {
      assert list[p].version > list[k].version && list[p + 1].version >= list[k].version;
    }
  }

  /** The walk never meets a freed node, never drops below its target and ends on the snapshot. */
  lemma WalkOutcome(s: State, t: nat)
    requires Inv(s) && t < |s.updaters| && s.updaters[t].pc.Walk?
    ensures var u, s' := s.updaters[t], WalkStep(s, t);
      && !s'.fault
      && Cursor(s'.updaters[t], s.lists[u.chosen])
      && s' == s.(updaters := s.updaters[t := s'.updaters[t]])
      && s'.updaters[t] == u.(pc := s'.updaters[t].pc, node := s'.updaters[t].node, read := s'.updaters[t].read)
      && (s'.updaters[t].pc.Walk? || s'.updaters[t].pc.Publish?)
  {
    var u := s.updaters[t];
    assert CursorAt(s, t) && SnapAt(s, t, u.chosen) && GoodAt(s, u.chosen);
    WalkPosition(u, s.updaters[u.chosen], s.lists[u.chosen]);
    hide Inv, Position;
  }

  lemma WalkStepKeeps(s: State, t: nat, i: nat)
    requires Inv(s) && t < |s.updaters| && i < |s.updaters| && s.updaters[t].pc.Walk?
    ensures Inv(UpdaterStep(s, t, i))
  {
    var s' := WalkStep(s, t);
    WalkOutcome(s, t);
    forall j: nat ensures HolderAt(s', j) { assert HolderAt(s, j); }
    QuietKeeps(s, s', t);
  }

  // ---------- steps of an updater that others can observe ----------

  lemma TakeVersionStep(s: State, t: nat, i: nat)
    requires Inv(s) && t < |s.updaters| && i < |s.updaters| && s.updaters[t].pc.TakeVersion?
    ensures Inv(UpdaterStep(s, t, i))
  {
    var s' := UpdaterStep(s, t, i);
    assert HolderAt(s, t) && OwnerAt(s, t);
    forall j: nat ensures HolderAt(s', j) { assert HolderAt(s, j); }
    forall j: nat ensures GoodAt(s', j) { assert GoodAt(s, j); }
    forall j: nat ensures EntryAt(s', j) { assert EntryAt(s, j); }
    forall j: nat ensures ListedAt(s', j) { assert ListedAt(s, j); }
    forall j: nat ensures OwnerAt(s', j) { assert OwnerAt(s, j) && GoodAt(s, j); }
    forall r: nat, j: nat ensures FreshAt(s', r, j) {
      assert FreshAt(s, r, j) && GoodAt(s, j) && OwnerAt(s, j) && HolderAt(s, r);
    }
    forall r: nat, j: nat ensures SnapAt(s', r, j) { assert SnapAt(s, r, j) && OwnerAt(s, r); }
    forall r: nat ensures CursorAt(s', r) { assert CursorAt(s, r); }
    forall j: nat ensures ScanAt(s', j) { assert ScanAt(s, j); }
  }

  lemma PushActiveStep(s: State, t: nat, i: nat)
    requires Inv(s) && t < |s.updaters| && i < |s.updaters| && s.updaters[t].pc.PushActive?
    ensures Inv(UpdaterStep(s, t, i))
  {
    var s' := UpdaterStep(s, t, i);
    assert OwnerAt(s, t);
    forall j: nat ensures HolderAt(s', j) { assert HolderAt(s, j); }
    forall j: nat ensures GoodAt(s', j) { assert GoodAt(s, j); }
    forall j: nat ensures EntryAt(s', j) { if j > 0 { assert EntryAt(s, j - 1); } }
    forall j: nat ensures ListedAt(s', j) { assert ListedAt(s, j); }
    forall j: nat | j < |s.active| ensures s.active[j].id != t { assert EntryAt(s, j); }
    forall j: nat ensures OwnerAt(s', j) { assert OwnerAt(s, j); }
    forall r: nat, j: nat ensures FreshAt(s', r, j) { assert FreshAt(s, r, j); }
    forall r: nat, j: nat ensures SnapAt(s', r, j) { assert SnapAt(s, r, j); }
    forall r: nat ensures CursorAt(s', r) { assert CursorAt(s, r); }
    forall j: nat ensures ScanAt(s', j) { assert ScanAt(s, j); }
  }

  /** At the moment the read-view is copied, what is committed satisfies the view. */
  lemma ViewMatchesCommitted(s: State, t: nat, i: nat, u: Updater)
    requires Inv(s) && t < |s.updaters| && i < |s.updaters| && s.updaters[t].pc.CopyView?
    requires u == s.updaters[t].(pc := UnlockBegin, view := Reversed(s.active), snapshot := s.committed)
    ensures Snap(u, i, if i == t then u else s.updaters[i], s.lists[i])
  {
    assert HolderAt(s, t) && HolderAt(s, i) && OwnerAt(s, i) && FreshAt(s, t, i) && GoodAt(s, i) && ListedAt(s, i);
    ReversedView(s.active);
    var p, q := EntryOf(s.active, i), EntryOf(u.view, i);
    if p < |s.active| {
      assert u.view[|s.active| - 1 - p] == s.active[p];
    }
    if q < |u.view| {
      assert EntryAt(s, |s.active| - 1 - q);
    }
  }

  lemma CopyViewStep(s: State, t: nat, i: nat)
    requires Inv(s) && t < |s.updaters| && i < |s.updaters| && s.updaters[t].pc.CopyView?
    ensures Inv(UpdaterStep(s, t, i))
  {
    var s' := UpdaterStep(s, t, i);
    forall j: nat ensures HolderAt(s', j) { assert HolderAt(s, j); }
    forall j: nat ensures GoodAt(s', j) { assert GoodAt(s, j); }
    forall j: nat ensures EntryAt(s', j) { assert EntryAt(s, j); }
    forall j: nat ensures ListedAt(s', j) { assert ListedAt(s, j); }
    forall j: nat ensures OwnerAt(s', j) { assert OwnerAt(s, j); }
    forall r: nat, j: nat ensures FreshAt(s', r, j) { assert FreshAt(s, r, j); }
    forall r: nat, j: nat ensures SnapAt(s', r, j) {
      if r == t && j < |s.updaters| {
        ViewMatchesCommitted(s, t, j, s'.updaters[t]);
      } else {
        assert SnapAt(s, r, j);
      }
    }
    forall r: nat ensures CursorAt(s', r) { assert CursorAt(s, r); }
    forall j: nat ensures ScanAt(s', j) { assert ScanAt(s, j); }
  }

  /** A version published by thread t leaves every reader's view of t's list intact. */
  lemma PublishKeepsSnap(s: State, t: nat, r: nat)
    requires Inv(s) && t < |s.updaters| && r < |s.updaters| && r != t
    requires s.updaters[t].pc.Publish? && Reading(s.updaters[r].pc)
    ensures Snap(s.updaters[r], t, s.updaters[t].(pc := EndLockCas),
                 [NewVersion(s.updaters[t].myVersion, s.lists[t][0], s.updaters[t].read)] + s.lists[t])
  {
    assert SnapAt(s, r, t) && GoodAt(s, t) && OwnerAt(s, t);
    var d := NewVersion(s.updaters[t].myVersion, s.lists[t][0], s.updaters[t].read);
    var list, list' := s.lists[t], [d] + s.lists[t];
    assert forall k :: 0 < k < |list'| ==> list'[k] == list[k - 1];
  }

  /** Prepending a newer version keeps a list good and every pointer into it alive. */
  lemma PrependKeeps(list: seq<Data>, d: Data, limit: int)
    requires GoodList(list, limit) && list[0].version < d.version < limit && d.A + d.B == A_PLUS_B
    ensures GoodList([d] + list, limit)
    ensures forall v :: Holds(list, v) ==> Holds([d] + list, v)
    ensures forall v, bound :: NewerBelow(list, v, bound) ==> NewerBelow([d] + list, v, bound)
  {
    assert forall k :: 0 <= k < |list| ==> ([d] + list)[k + 1] == list[k];
  }

  lemma PublishKeepsReaders(s: State, t: nat, i: nat, r: nat, j: nat)
    requires Inv(s) && t < |s.updaters| && i < |s.updaters| && s.updaters[t].pc.Publish?
    ensures Shape(UpdaterStep(s, t, i)) && SnapAt(UpdaterStep(s, t, i), r, j)
  {
    if r < |s.updaters| && r != t && j == t && Reading(s.updaters[r].pc) {
      PublishKeepsSnap(s, t, r);
    } else {
      assert SnapAt(s, r, j);
    }
    hide Inv;
  }

  lemma PublishStep(s: State, t: nat, i: nat)
    requires Inv(s) && t < |s.updaters| && i < |s.updaters| && s.updaters[t].pc.Publish?
    ensures Inv(UpdaterStep(s, t, i))
  {
    var s' := UpdaterStep(s, t, i);
    assert OwnerAt(s, t) && GoodAt(s, t);
    PrependKeeps(s.lists[t], s'.lists[t][0], s.execOrder);
    forall j: nat ensures HolderAt(s', j) { assert HolderAt(s, j); }
    forall j: nat ensures GoodAt(s', j) { assert GoodAt(s, j); }
    forall j: nat ensures EntryAt(s', j) { assert EntryAt(s, j); }
    forall j: nat ensures ListedAt(s', j) { assert ListedAt(s, j); }
    forall j: nat ensures OwnerAt(s', j) { assert OwnerAt(s, j); }
    forall r: nat, j: nat ensures FreshAt(s', r, j) { assert FreshAt(s, r, j); }
    forall r: nat, j: nat ensures SnapAt(s', r, j) { PublishKeepsReaders(s, t, i, r, j); }
    forall r: nat ensures CursorAt(s', r) { assert CursorAt(s, r); }
    forall j: nat ensures ScanAt(s', j) { assert ScanAt(s, j); }
  }

  lemma RemovalKeepsActive(s: State, t: nat, s': State)
    requires ActiveInv(s) && t < |s.updaters| && s.updaters[t].pc.EraseActive?
    requires InView(s.active, t)
    requires s'.active == Without(s.active, EntryOf(s.active, t))
    requires s'.updaters == s.updaters[t := s.updaters[t].(pc := UnlockEnd)]
    ensures ActiveInv(s')
  {
    var p := EntryOf(s.active, t);
    forall j: nat ensures EntryAt(s', j) { assert EntryAt(s, j) && EntryAt(s, j + 1); }
    forall j: nat ensures ListedAt(s', j) {
      assert ListedAt(s, j);
      var q := EntryOf(s.active, j);
      if j != t && q < |s.active| {
        assert s'.active[if q < p then q else q - 1] == s.active[q];
      }
    }
  }

  lemma EraseActiveStep(s: State, t: nat, i: nat)
    requires Inv(s) && t < |s.updaters| && i < |s.updaters| && s.updaters[t].pc.EraseActive?
    ensures Inv(UpdaterStep(s, t, i))
  {
    var s' := UpdaterStep(s, t, i);
    assert OwnerAt(s, t) && ListedAt(s, t);
    RemovalKeepsActive(s, t, s');
    forall j: nat ensures HolderAt(s', j) { assert HolderAt(s, j); }
    forall j: nat ensures GoodAt(s', j) { assert GoodAt(s, j); }
    forall j: nat ensures OwnerAt(s', j) { assert OwnerAt(s, j); }
    forall r: nat, j: nat ensures FreshAt(s', r, j) { assert FreshAt(s, r, j); }
    forall r: nat, j: nat ensures SnapAt(s', r, j) { assert SnapAt(s, r, j); }
    forall r: nat ensures CursorAt(s', r) { assert CursorAt(s, r); }
    forall j: nat ensures ScanAt(s', j) { assert ScanAt(s, j); }
  }

  // ---------- steps of the collector ----------

  /** The collector moves on without changing a list. */
  lemma CollectorMoves(s: State, s': State)
    requires Inv(s) && MutexInv(s') && !s'.fault
    requires s' == s.(throne := s'.throne, gcPc := s'.gcPc, bound := s'.bound) && CollectorInv(s')
    ensures Inv(s')
  {
    forall i: nat ensures GoodAt(s', i) { assert GoodAt(s, i); }
    forall j: nat ensures EntryAt(s', j) { assert EntryAt(s, j); }
    forall j: nat ensures ListedAt(s', j) { assert ListedAt(s, j); }
    forall j: nat ensures OwnerAt(s', j) { assert OwnerAt(s, j); }
    forall r: nat, i: nat ensures FreshAt(s', r, i) { assert FreshAt(s, r, i); }
    forall r: nat, i: nat ensures SnapAt(s', r, i) { assert SnapAt(s, r, i); }
    forall r: nat ensures CursorAt(s', r) { assert CursorAt(s, r); }
  }

  lemma CollectorLockSteps(s: State)
    requires Inv(s) && (s.gcPc.GcLockCas? || s.gcPc.GcLockTest? || s.gcPc.GcLast? || s.gcPc.GcUnlock?)
    ensures Inv(GcStep(s))
  {
    var s' := GcStep(s);
    forall j: nat ensures HolderAt(s', j) { assert HolderAt(s, j); }
    forall j: nat ensures ScanAt(s', j) { assert ScanAt(s, j); }
    CollectorMoves(s, s');
  }

  lemma CollectorScanSteps(s: State)
    requires Inv(s) && (s.gcPc.GcScan? || s.gcPc.GcLoad? || s.gcPc.GcKeep?)
    ensures Inv(GcStep(s))
  {
    var s' := GcStep(s);
    forall j: nat ensures HolderAt(s', j) { assert HolderAt(s, j); }
    forall j: nat ensures ScanAt(s', j) { assert ScanAt(s, j); }
    CollectorMoves(s, s');
  }

  lemma CollectorSeekStep(s: State)
    requires Inv(s) && s.gcPc.GcSeek?
    ensures Inv(GcStep(s))
  {
    var s' := GcStep(s);
    assert GoodAt(s, s.gcPc.list);
    forall j: nat ensures HolderAt(s', j) { assert HolderAt(s, j); }
    forall j: nat ensures ScanAt(s', j) { assert ScanAt(s, j); }
    CollectorMoves(s, s');
  }

  /** The heart of the matter: when the collector frees the node behind `prev`, every reader's
      snapshot of that list survives, and so does every version newer than it. */
  lemma FreedIsBelowSnapshot(s: State, r: nat)
    requires Inv(s) && s.gcPc.GcErase? && r < |s.updaters| && Reading(s.updaters[r].pc)
    requires Position(s.lists[s.gcPc.list], s.gcPc.prev) + 1 < |s.lists[s.gcPc.list]|
    ensures s.gcPc.list < |s.updaters[r].snapshot|
    ensures var list := s.lists[s.gcPc.list];
      list[Position(list, s.gcPc.prev) + 1].version < s.updaters[r].snapshot[s.gcPc.list].version
  {
    var i := s.gcPc.list;
    var list, u := s.lists[i], s.updaters[r];
    assert SnapAt(s, r, i) && GoodAt(s, i) && OwnerAt(s, r) && ScanAt(s, r);
    var p := Position(list, s.gcPc.prev);
    var k :| 0 <= k < |list| && s.gcPc.prev < list[k].version < s.bound;
    assert k < p;
  }

  /** Freeing a version older than the snapshot keeps the reader's view of the list. */
  lemma FreeKeepsSnap(u: Updater, i: nat, w: Updater, list: seq<Data>, p: nat)
    requires Snap(u, i, w, list) && Descending(list) && 2 <= p < |list|
    requires list[p].version < u.snapshot[i].version
    ensures Snap(u, i, w, Without(list, p))
    ensures forall v :: v >= u.snapshot[i].version && Holds(list, v) ==> Holds(Without(list, p), v)
  {
    var list' := Without(list, p);
    var k :| 0 <= k < |list| && list[k] == u.snapshot[i];
    assert k < p && list'[k] == list[k];
    forall v | v >= u.snapshot[i].version && Holds(list, v) ensures Holds(list', v) {
      var j :| 0 <= j < |list| && list[j].version == v;
      assert list'[j] == list[j];
    }
  }

  lemma FreeKeepsCollector(list: seq<Data>, prev: int, bound: int)
    requires Descending(list) && Holds(list, prev) && NewerBelow(list, prev, bound)
    ensures var p := Position(list, prev);
      && 1 <= p < |list|
      && (p + 1 < |list| ==>
           var list' := Without(list, p + 1);
           Holds(list', prev) && NewerBelow(list', prev, bound))
  {
    var p := Position(list, prev);
    var k :| 0 <= k < |list| && prev < list[k].version < bound;
    assert k < p;
    if p + 1 < |list| {
      var list' := Without(list, p + 1);
      assert list'[k] == list[k] && list'[p] == list[p];
    }
  }

  lemma FreeKeepsReaders(s: State, s': State, r: nat, j: nat)
    requires Inv(s) && s.gcPc.GcErase? && s' == GcStep(s) && Shape(s')
    ensures SnapAt(s', r, j)
    ensures CursorAt(s', r)
  {
    hide Snap, Position;
    var i := s.gcPc.list;
    var p := Position(s.lists[i], s.gcPc.prev);
    assert SnapAt(s, r, j) && SnapAt(s, r, i) && CursorAt(s, r) && GoodAt(s, i);
    FreeKeepsCollector(s.lists[i], s.gcPc.prev, s.bound);
    if p + 1 < |s.lists[i]| && r < |s.updaters| && Reading(s.updaters[r].pc) {
      FreedIsBelowSnapshot(s, r);
      FreeKeepsSnap(s.updaters[r], i, s.updaters[i], s.lists[i], p + 1);
    }
  }

  lemma FreeKeepsScan(s: State, s': State)
    requires Inv(s) && s.gcPc.GcErase? && s' == GcStep(s)
    ensures Shape(s') && !s'.fault && CollectorInv(s')
  {
    hide Position;
    var i := s.gcPc.list;
    assert GoodAt(s, i);
    FreeKeepsCollector(s.lists[i], s.gcPc.prev, s.bound);
    forall j: nat ensures ScanAt(s', j) { assert ScanAt(s, j); }
  }

  lemma FreeKeepsOwners(s: State, s': State)
    requires Inv(s) && s.gcPc.GcErase? && s' == GcStep(s) && Shape(s')
    ensures forall j: nat :: GoodAt(s', j)
    ensures forall j: nat :: OwnerAt(s', j)
    ensures forall t: nat, j: nat :: FreshAt(s', t, j)
  {
    hide Position;
    var i := s.gcPc.list;
    assert GoodAt(s, i);
    FreeKeepsCollector(s.lists[i], s.gcPc.prev, s.bound);
    forall j: nat ensures GoodAt(s', j) { assert GoodAt(s, j); }
    forall j: nat ensures OwnerAt(s', j) { assert OwnerAt(s, j); }
    forall r: nat, j: nat ensures FreshAt(s', r, j) { assert FreshAt(s, r, j); }
  }

  lemma CollectorEraseStep(s: State)
    requires Inv(s) && s.gcPc.GcErase?
    ensures Inv(GcStep(s))
  {
    var s' := GcStep(s);
    FreeKeepsScan(s, s');
    FreeKeepsOwners(s, s');
    forall j: nat ensures HolderAt(s', j) { assert HolderAt(s, j); }
    forall j: nat ensures EntryAt(s', j) { assert EntryAt(s, j); }
    forall j: nat ensures ListedAt(s', j) { assert ListedAt(s, j); }
    forall r: nat, j: nat ensures SnapAt(s', r, j) { FreeKeepsReaders(s, s', r, j); }
    forall r: nat ensures CursorAt(s', r) { FreeKeepsReaders(s, s', r, 0); }
  }

  // ---------- every run ----------

  lemma StepInv(s: State, a: Action)
    requires Inv(s) && Enabled(s, a)
    ensures Inv(Step(s, a))
  {
    match a
    case Update(t, i) =>
      match s.updaters[t].pc {
        case TakeVersion => TakeVersionStep(s, t, i);
        case PushActive => PushActiveStep(s, t, i);
        case CopyView => CopyViewStep(s, t, i);
        case UnlockBegin => UnlockSteps(s, t, i);
        case UnlockEnd => UnlockSteps(s, t, i);
        case Choose => ChooseStep(s, t, i);
        case Walk => WalkStepKeeps(s, t, i);
        case Publish => PublishStep(s, t, i);
        case EraseActive => EraseActiveStep(s, t, i);
        case _ => LockSteps(s, t, i);
      }
    case Collect =>
      match s.gcPc {
        case GcScan(_) => CollectorScanSteps(s);
        case GcLoad(_) => CollectorScanSteps(s);
        case GcKeep(_, _) => CollectorScanSteps(s);
        case GcSeek(_, _) => CollectorSeekStep(s);
        case GcErase(_, _) => CollectorEraseStep(s);
        case _ => CollectorLockSteps(s);
      }
  }

  lemma {:induction false} RunInv(run: seq<State>, k: nat)
    requires IsRun(run) && k < |run|
    ensures Inv(run[k])
  {
    if k == 0 {
      var a :| ValidSeedData(a) && run[0] == Initial(a);
      InitialInv(a);
    } else {
      hide Step, Inv;
      RunInv(run, k - 1);
      assert StepAt(run, k);
      var a :| Enabled(run[k - 1], a) && run[k] == Step(run[k - 1], a);
      StepInv(run[k - 1], a);
    }
  }

  /** The action that leads to state k of a run. */
  lemma ActionAt(run: seq<State>, k: nat) returns (a: Action)
    requires IsRun(run) && 0 < k < |run|
    ensures Inv(run[k - 1]) && Enabled(run[k - 1], a) && run[k] == Step(run[k - 1], a)
  {
    RunInv(run, k - 1);
    assert StepAt(run, k);
    a :| Enabled(run[k - 1], a) && run[k] == Step(run[k - 1], a);
  }
}
