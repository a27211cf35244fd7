/**
 What the multi-version store promises, for every run: every interleaving of N updaters with the
 collector, every choice of the thread to read, every initial data.
 */
module MvccTheorems {
  import opened Optional
  import opened Mvcc
  import opened MvccProof

  /** No thread ever follows a freed node, trips an assertion or fails to find its active entry. */
  lemma RunsNeverFault(run: seq<State>, k: nat)
    requires IsRun(run) && k < |run|
    ensures !run[k].fault
  {
    RunInv(run, k);
  }

  /** MyMutex admits one thread at a time, updaters and collector alike. */
  lemma MutualExclusion(run: seq<State>, k: nat, t: nat)
    requires IsRun(run) && k < |run| && t < |run[k].updaters| && Critical(run[k].updaters[t].pc)
    ensures forall j :: 0 <= j < |run[k].updaters| && Critical(run[k].updaters[j].pc) ==> j == t
    ensures !GcCritical(run[k].gcPc)
  {
    RunInv(run, k);
    assert HolderAt(run[k], t);
    forall j: nat | j < |run[k].updaters| && Critical(run[k].updaters[j].pc) ensures j == t {
      assert HolderAt(run[k], j);
    }
  }

  /** A thread is in the active list exactly while it is between joining and leaving, and once. */
  lemma ActiveListExact(run: seq<State>, k: nat, t: nat)
    requires IsRun(run) && k < |run| && t < |run[k].updaters|
    ensures Listed(run[k].updaters[t].pc) <==> exists j :: 0 <= j < |run[k].active| && run[k].active[j].id == t
    ensures forall i, j ::
      0 <= i < |run[k].active| && 0 <= j < |run[k].active| && run[k].active[i].id == run[k].active[j].id ==> i == j
  {
    var s := run[k];
    RunInv(run, k);
    assert ListedAt(s, t);
    if Listed(s.updaters[t].pc) {
      assert s.active[EntryOf(s.active, t)].id == t;
    }
    forall j: nat | j < |s.active| && s.active[j].id == t ensures Listed(s.updaters[t].pc) {
      assert EntryAt(s, j);
    }
  }

  /** Every version list is non-empty and strictly descending, and every version has A + B = 100. */
  lemma ListsExact(run: seq<State>, k: nat, i: nat)
    requires IsRun(run) && k < |run| && i < |run[k].lists|
    ensures var list := run[k].lists[i];
      && list != []
      && (forall p, q :: 0 <= p < q < |list| ==> list[p].version > list[q].version)
      && (forall p :: 0 <= p < |list| ==> list[p].A + list[p].B == A_PLUS_B)
  {
    RunInv(run, k);
    assert GoodAt(run[k], i);
  }

  // ---------- the collector ----------

  /** The collector freed a version of list i in the step from s to s'. */
  ghost predicate Frees(s: State, s': State, i: nat, d: Data) {
    i < |s.lists| && i < |s'.lists| && d in s.lists[i] && d !in s'.lists[i]
  }

  lemma UpdatersFreeNothing(s: State, t: nat, c: nat, i: nat, d: Data)
    requires Inv(s) && t < |s.updaters| && c < |s.updaters| && i < |s.lists| && d in s.lists[i]
    ensures i < |UpdaterStep(s, t, c).lists| && d in UpdaterStep(s, t, c).lists[i]
  {
    if s.updaters[t].pc.Walk? {
      WalkOutcome(s, t);
    }
  }

  lemma WithoutKeepsOthers(list: seq<Data>, p: nat)
    requires p < |list|
    ensures forall x :: x in list && x != list[p] ==> x in Without(list, p)
  {
    forall q | 0 <= q < |list| && q != p ensures list[q] in Without(list, p) {
      assert Without(list, p)[if q < p then q else q - 1] == list[q];
    }
  }

  /** Versions leave a list only through the collector's erase step. */
  lemma OnlyCollectorFrees(s: State, a: Action, i: nat, d: Data)
    requires Inv(s) && Enabled(s, a) && Frees(s, Step(s, a), i, d)
    ensures a.Collect? && s.gcPc.GcErase? && s.gcPc.list == i
    ensures var p := Position(s.lists[i], s.gcPc.prev);
      && p + 1 < |s.lists[i]|
      && d == s.lists[i][p + 1]
      && Step(s, a) == s.(lists := s.lists[i := Without(s.lists[i], p + 1)])
  {
    if a.Update? {
      UpdatersFreeNothing(s, a.t, a.i, i, d);
    } else if s.gcPc.GcErase? {
      var list := s.lists[s.gcPc.list];
      var p := Position(list, s.gcPc.prev);
      if p + 1 < |list| {
        WithoutKeepsOthers(list, p + 1);
      }
    }
  }

  /** Two versions newer than the freed one stay, both below the bound. */
  lemma TwoNewerStay(s: State)
    requires Inv(s) && s.gcPc.GcErase?
    requires Position(s.lists[s.gcPc.list], s.gcPc.prev) + 1 < |s.lists[s.gcPc.list]|
    ensures var list := s.lists[s.gcPc.list]; var q := Position(list, s.gcPc.prev);
      TwoBelow(Without(list, q + 1), list[q + 1].version, s.bound)
  {
    assert GoodAt(s, s.gcPc.list);
    var list := s.lists[s.gcPc.list];
    var q := Position(list, s.gcPc.prev);
    var p :| 0 <= p < |list| && s.gcPc.prev < list[p].version < s.bound;
    assert p < q;
    var list' := Without(list, q + 1);
    assert list'[p] == list[p] && list'[q] == list[q];
  }

  ghost predicate TwoBelow(list: seq<Data>, version: int, bound: int) {
    exists p, q :: 0 <= p < q < |list| && version < list[q].version < list[p].version < bound
  }

  /** Garbage collection is safe: a freed version has two newer versions of the same thread below the
      bound; the bound does not exceed the recent version of any updater that holds a read-view; and
      the freed version is older than what any of them can still read from that list. */
  lemma OnlyGarbageIsFreed(run: seq<State>, k: nat, i: nat, d: Data)
    requires IsRun(run) && 0 < k < |run| && Frees(run[k - 1], run[k], i, d)
    ensures TwoBelow(run[k].lists[i], d.version, run[k].bound)
    ensures forall r :: 0 <= r < |run[k].updaters| && Reading(run[k].updaters[r].pc) ==>
      && run[k].bound <= run[k].updaters[r].myRecent
      && i < |run[k].updaters[r].snapshot|
      && d.version < run[k].updaters[r].snapshot[i].version
  {
    var s := run[k - 1];
    var a := ActionAt(run, k);
    OnlyCollectorFrees(s, a, i, d);
    TwoNewerStay(s);
    forall r: nat | r < |s.updaters| && Reading(s.updaters[r].pc)
      ensures s.bound <= s.updaters[r].myRecent && i < |s.updaters[r].snapshot|
      ensures d.version < s.updaters[r].snapshot[i].version
    {
      assert OwnerAt(s, r) && ScanAt(s, r);
      FreedIsBelowSnapshot(s, r);
    }
  }

  // ---------- snapshot reads ----------

  /** Thread i leaves the active list in the step from s to s'. */
  ghost predicate Leaves(s: State, s': State, i: nat) {
    && i < |s.updaters| && i < |s'.updaters| && i < |s.lists| && s.lists[i] != []
    && s.updaters[i].pc.EraseActive? && s'.updaters[i].pc.UnlockEnd?
  }

  /** The newest version of thread i published by an update that has left the active list by state k. */
  ghost function Committed(run: seq<State>, k: nat, i: nat): Option<Data>
    requires k < |run|
  {
    if k == 0 then
      if i < |run[0].lists| && run[0].lists[i] != [] then Some(run[0].lists[i][0]) else None
    else if Leaves(run[k - 1], run[k], i) then Some(run[k - 1].lists[i][0])
    else Committed(run, k - 1, i)
  }

  /** What becomes of the committed version of thread i. */
  ghost predicate Commits(s: State, s': State, i: nat) {
    && |s'.updaters| == |s.updaters| && |s'.committed| == |s.committed| && i < |s.committed|
    && i < |s.lists| && s.lists[i] != []
    && s'.committed[i] == if Leaves(s, s', i) then s.lists[i][0] else s.committed[i]
  }

  lemma WalkCommits(s: State, t: nat, i: nat)
    requires Inv(s) && t < |s.updaters| && i < |s.updaters| && s.updaters[t].pc.Walk?
    ensures Commits(s, WalkStep(s, t), i)
  {
    WalkOutcome(s, t);
    hide WalkStep, Inv;
  }

  lemma EraseCommits(s: State, t: nat, c: nat, i: nat)
    requires Inv(s) && t < |s.updaters| && c < |s.updaters| && i < |s.updaters| && s.updaters[t].pc.EraseActive?
    ensures Commits(s, UpdaterStep(s, t, c), i)
  {
    assert ListedAt(s, t);
    hide Inv;
  }

  /** An updater changes only its own committed version, and only when it leaves. */
  lemma UpdaterCommits(s: State, t: nat, c: nat, i: nat)
    requires Inv(s) && t < |s.updaters| && c < |s.updaters| && i < |s.updaters|
    ensures Commits(s, UpdaterStep(s, t, c), i)
  {
    hide WalkStep, Reversed, EntryOf;
    if s.updaters[t].pc.Walk? {
      WalkCommits(s, t, i);
    } else if s.updaters[t].pc.EraseActive? {
      EraseCommits(s, t, c, i);
    } else {
      assert Shape(s);
      hide Inv;
    }
  }

  lemma CommittedStep(s: State, a: Action, i: nat)
    requires Inv(s) && Enabled(s, a) && i < |s.updaters|
    ensures var s' := Step(s, a);
      && |s'.updaters| == |s.updaters| && |s'.committed| == |s.committed|
      && s'.committed[i] == if Leaves(s, s', i) then s.lists[i][0] else s.committed[i]
  {
    match a
    case Update(t, c) =>
      UpdaterCommits(s, t, c, i);
      hide UpdaterStep;
    case Collect =>
      assert Shape(s);
      hide Inv;
  }

  lemma {:induction false} CommittedIs(run: seq<State>, k: nat, i: nat)
    requires IsRun(run) && k < |run| && i < |run[0].updaters|
    ensures i < |run[k].committed| == |run[k].updaters| == |run[0].updaters|
    ensures Committed(run, k, i) == Some(run[k].committed[i])
  {
    if k == 0 {
      RunInv(run, 0);
      assert OwnerAt(run[0], i);
    } else {
      CommittedIs(run, k - 1, i);
      var a := ActionAt(run, k);
      CommittedStep(run[k - 1], a, i);
    }
  }

  /** A thread that reads after its own step was copying, and took the committed versions, or read before. */
  lemma OwnSnapshotStep(s: State, t: nat, i: nat)
    requires Inv(s) && t < |s.updaters| && i < |s.updaters|
    requires t < |UpdaterStep(s, t, i).updaters| && Reading(UpdaterStep(s, t, i).updaters[t].pc)
    ensures UpdaterStep(s, t, i).updaters[t].snapshot ==
      if s.updaters[t].pc.CopyView? then s.committed else s.updaters[t].snapshot
  {
    hide WalkStep, Reversed, EntryOf;
    if s.updaters[t].pc.Walk? {
      WalkOutcome(s, t);
    }
    assert Shape(s);
    hide Inv;
  }

  lemma UpdaterMovesAlone(s: State, t: nat, c: nat, j: nat)
    requires Inv(s) && t < |s.updaters| && c < |s.updaters| && j < |s.updaters| && j != t
    ensures |UpdaterStep(s, t, c).updaters| == |s.updaters| && UpdaterStep(s, t, c).updaters[j] == s.updaters[j]
  {
    hide WalkStep, Reversed, EntryOf;
    if s.updaters[t].pc.Walk? {
      WalkOutcome(s, t);
    }
    assert Shape(s);
    hide Inv;
  }

  lemma OthersUnmoved(s: State, a: Action, t: nat)
    requires Inv(s) && Enabled(s, a) && t < |s.updaters| && (a.Update? ==> a.t != t)
    ensures |Step(s, a).updaters| == |s.updaters| && Step(s, a).updaters[t] == s.updaters[t]
  {
    match a
    case Update(j, c) =>
      UpdaterMovesAlone(s, j, c, t);
      hide UpdaterStep;
    case Collect =>
      assert Shape(s);
      hide Inv;
  }

  lemma SnapshotStepAt(run: seq<State>, k: nat, t: nat)
    requires IsRun(run) && 0 < k < |run|
    requires t < |run[k - 1].updaters| && t < |run[k].updaters| && Reading(run[k].updaters[t].pc)
    ensures run[k].updaters[t].snapshot ==
      if run[k - 1].updaters[t].pc.CopyView? then run[k - 1].committed else run[k - 1].updaters[t].snapshot
  {
    var a := ActionAt(run, k);
    if a.Update? && a.t == t {
      OwnSnapshotStep(run[k - 1], t, a.i);
    } else {
      OthersUnmoved(run[k - 1], a, t);
    }
  }

  lemma {:induction false} SnapshotKept(run: seq<State>, c: nat, k: nat, t: nat)
    requires IsRun(run) && c < k < |run| && t < |run[c].updaters| && run[c].updaters[t].pc.CopyView?
    requires forall m :: c < m <= k ==> t < |run[m].updaters| && Reading(run[m].updaters[t].pc)
    ensures run[k].updaters[t].snapshot == run[c].committed
  {
    SnapshotStepAt(run, k, t);
    if c < k - 1 {
      SnapshotKept(run, c, k - 1, t);
    }
  }

  lemma StepSameThreads(s: State, a: Action)
    requires Inv(s) && Enabled(s, a)
    ensures |Step(s, a).updaters| == |s.updaters|
  {
    if a.Update? && s.updaters[a.t].pc.Walk? {
      WalkOutcome(s, a.t);
    }
  }

  lemma {:induction false} SameThreads(run: seq<State>, k: nat)
    requires IsRun(run) && k < |run|
    ensures |run[k].updaters| == |run[0].updaters|
  {
    if k > 0 {
      hide Step, Inv;
      SameThreads(run, k - 1);
      var a := ActionAt(run, k);
      StepSameThreads(run[k - 1], a);
    }
  }

  /** Snapshot reads: an updater that copied its read-view at state c and is about to publish at state k
      holds, for the thread it chose, the version that was committed at state c, whatever the other
      updaters and the collector did in between and whichever branch of the search found it. */
  lemma ReadsAreSnapshots(run: seq<State>, c: nat, k: nat, t: nat)
    requires IsRun(run) && c < k < |run| && t < |run[c].updaters| && run[c].updaters[t].pc.CopyView?
    requires forall m :: c < m <= k ==> t < |run[m].updaters| && Reading(run[m].updaters[t].pc)
    requires run[k].updaters[t].pc.Publish?
    ensures Committed(run, c, run[k].updaters[t].chosen) == Some(run[k].updaters[t].read)
  {
    RunInv(run, k);
    RunInv(run, c);
    assert CursorAt(run[k], t);
    SnapshotKept(run, c, k, t);
    assert SnapAt(run[k], t, run[k].updaters[t].chosen);
    SameThreads(run, k);
    SameThreads(run, c);
    CommittedIs(run, c, run[k].updaters[t].chosen);
  }

  // ---------- what an update publishes ----------

  /** `q` is what C++ leaves of `a` after dividing by 100: it takes the sign of `a`. */
  ghost predicate IsRemainder(q: int, a: int) {
    && -100 < q < 100
    && (q == 0 || (q > 0 <==> a > 0))
    && (a - q) % 100 == 0
  }

  lemma RemIsRemainder(a: int)
    ensures IsRemainder(Rem(a, 100), a)
  {
    if a < 0 {
      assert a - Rem(a, 100) == -(-a - -a % 100);
    }
  }

  /** A thread whose program counter moves has taken the step itself. */
  lemma OwnStepAt(run: seq<State>, k: nat, t: nat) returns (i: nat)
    requires IsRun(run) && 0 < k < |run| && t < |run[k - 1].updaters| && t < |run[k].updaters|
    requires run[k].updaters[t].pc != run[k - 1].updaters[t].pc
    ensures Inv(run[k - 1]) && i < |run[k - 1].updaters| && run[k] == UpdaterStep(run[k - 1], t, i)
  {
    var a := ActionAt(run, k);
    if a.Collect? || a.t != t {
      OthersUnmoved(run[k - 1], a, t);
    }
    hide Inv, UpdaterStep;
    i := a.i;
  }

  /** What a transaction writes: an updater that copied its read-view at state c and publishes in the step to state k
      puts one version in front of its own list.  It carries the number the updater took, and moves from B to A the
      remainder by 100 of the A that the chosen thread had committed at state c. */
  lemma PublishedVersion(run: seq<State>, c: nat, k: nat, t: nat) returns (q: int)
    requires IsRun(run) && c < k - 1 < |run| - 1 && t < |run[c].updaters| && run[c].updaters[t].pc.CopyView?
    requires forall m :: c < m < k ==> t < |run[m].updaters| && Reading(run[m].updaters[t].pc)
    requires run[k - 1].updaters[t].pc.Publish?
    requires t < |run[k].updaters| && run[k].updaters[t].pc.EndLockCas?
    ensures t < |run[k - 1].lists| == |run[k].lists| && run[k - 1].lists[t] != [] && run[k].lists[t] != []
    ensures var was, d := run[k - 1].lists[t], run[k].lists[t][0];
      && run[k].lists[t] == [d] + was
      && d.version == run[k - 1].updaters[t].myVersion
      && d.A == was[0].A + q
      && d.B == was[0].B - q
    ensures forall j :: 0 <= j < |run[k].lists| && j != t ==> run[k].lists[j] == run[k - 1].lists[j]
    ensures var x := Committed(run, c, run[k - 1].updaters[t].chosen);
      x.Some? && IsRemainder(q, x.value.A)
  {
    var i := OwnStepAt(run, k, t);
    var s := run[k - 1];
    ReadsAreSnapshots(run, c, k - 1, t);
    RemIsRemainder(s.updaters[t].read.A);
    q := Rem(s.updaters[t].read.A, 100);
    assert Shape(s);
    hide Inv, IsRemainder, Committed;
  }

  lemma ChoiceStays(s: State, t: nat, i: nat)
    requires Inv(s) && t < |s.updaters| && i < |s.updaters| && (s.updaters[t].pc.Walk? || s.updaters[t].pc.Publish?)
    ensures |UpdaterStep(s, t, i).updaters| == |s.updaters|
    ensures UpdaterStep(s, t, i).updaters[t].chosen == s.updaters[t].chosen
  {
    if s.updaters[t].pc.Walk? {
      WalkOutcome(s, t);
    }
    assert Shape(s);
    hide Inv, WalkStep;
  }

  /** The thread that is read is the one that was drawn: the choice stands until the new version is published. */
  lemma {:induction false} ChoiceKept(run: seq<State>, c: nat, k: nat, t: nat, i: nat)
    requires IsRun(run) && c < k < |run| && t < |run[c].updaters| && i < |run[c].updaters|
    requires run[c].updaters[t].pc.Choose? && Shape(run[c]) && run[c + 1] == Step(run[c], Update(t, i))
    requires forall m :: c < m <= k ==>
      t < |run[m].updaters| && (run[m].updaters[t].pc.Walk? || run[m].updaters[t].pc.Publish?)
    ensures run[k].updaters[t].chosen == i
  {
    if c + 1 < k {
      ChoiceKept(run, c, k - 1, t, i);
      var a := ActionAt(run, k);
      hide Inv, UpdaterStep, WalkStep;
      if a.Update? && a.t == t {
        ChoiceStays(run[k - 1], t, a.i);
      } else {
        OthersUnmoved(run[k - 1], a, t);
      }
    }
  }

  /** How often thread t has come back to the top of its loop by state k. */
  ghost function Finished(run: seq<State>, k: nat, t: nat): nat
    requires k < |run|
  {
    if k == 0 then 0
    else
      Finished(run, k - 1, t) +
      (if t < |run[k].updaters| && t < |run[k - 1].updaters| && run[k].updaters[t].pc.LockCas?
         && run[k - 1].updaters[t].pc.UnlockEnd? then 1 else 0)
  }

  lemma OwnStepCounts(s: State, t: nat, i: nat)
    requires Inv(s) && t < |s.updaters| && i < |s.updaters|
    ensures |UpdaterStep(s, t, i).updaters| == |s.updaters|
    ensures UpdaterStep(s, t, i).updaters[t].numUpdates == s.updaters[t].numUpdates +
      if s.updaters[t].pc.UnlockEnd? && UpdaterStep(s, t, i).updaters[t].pc.LockCas? then 1 else 0
  {
    hide WalkStep, Reversed, EntryOf;
    if s.updaters[t].pc.Walk? {
      WalkOutcome(s, t);
    }
    assert Shape(s);
    hide Inv;
  }

  /** The throughput counter of a thread is the number of its finished updates. */
  lemma {:induction false} UpdatesCounted(run: seq<State>, k: nat, t: nat)
    requires IsRun(run) && k < |run| && t < |run[k].updaters|
    ensures run[k].updaters[t].numUpdates == Finished(run, k, t)
  {
    if k > 0 {
      hide UpdaterStep, Inv;
      SameThreads(run, k);
      SameThreads(run, k - 1);
      UpdatesCounted(run, k - 1, t);
      var a := ActionAt(run, k);
      if a.Update? && a.t == t {
        OwnStepCounts(run[k - 1], t, a.i);
      } else {
        OthersUnmoved(run[k - 1], a, t);
      }
    }
  }

  // ---------- conservation ----------

  function SumAB(heads: seq<seq<Data>>): int
    requires forall i :: 0 <= i < |heads| ==> heads[i] != []
  {
    if heads == [] then 0 else SumAB(heads[..|heads| - 1]) + heads[|heads| - 1][0].A + heads[|heads| - 1][0].B
  }

  lemma {:induction false} SumOfGoodLists(lists: seq<seq<Data>>)
    requires forall i :: 0 <= i < |lists| ==> lists[i] != [] && lists[i][0].A + lists[i][0].B == A_PLUS_B
    ensures SumAB(lists) == A_PLUS_B * |lists|
  {
    if lists != [] {
      SumOfGoodLists(lists[..|lists| - 1]);
    }
  }

  /** The total the program prints is 100 per thread in every state of every run. */
  lemma SumConserved(run: seq<State>, k: nat)
    requires IsRun(run) && k < |run|
    ensures forall i :: 0 <= i < |run[k].lists| ==> run[k].lists[i] != []
    ensures SumAB(run[k].lists) == A_PLUS_B * |run[k].updaters|
  {
    RunInv(run, k);
    forall i: nat | i < |run[k].lists|
      ensures run[k].lists[i] != [] && run[k].lists[i][0].A + run[k].lists[i][0].B == A_PLUS_B
    {
      assert GoodAt(run[k], i);
    }
    SumOfGoodLists(run[k].lists);
  }

  method PrintSum(lists: seq<seq<Data>>) returns (sum: int)
    requires forall i :: 0 <= i < |lists| ==> lists[i] != []
    ensures sum == SumAB(lists)
  {
    sum := 0;
    for i := 0 to |lists|
      invariant sum == SumAB(lists[..i])
    {
      assert lists[..i + 1][..i] == lists[..i];
      sum := sum + lists[i][0].A;
      sum := sum + lists[i][0].B;
    }
    assert lists[..|lists|] == lists;
  }

  /** The initialisation loop of `main`; `a` holds the values drawn by rand() % A_PLUS_B. */
  method InitialiseContexts(a: seq<int>) returns (execOrder: int, lists: seq<seq<Data>>)
    ensures execOrder == |a| == |lists|
    ensures forall k :: 0 <= k < |a| ==> lists[k] == [Data(k, a[k], 100 - a[k])]
    ensures execOrder == Initial(a).execOrder
    ensures lists == Initial(a).lists
  {
    execOrder, lists := 0, [];
    for i := 0 to |a|
      invariant execOrder == i && |lists| == i
      invariant forall k :: 0 <= k < i ==> lists[k] == Initial(a).lists[k]
    {
      var data := Data(execOrder, a[i], A_PLUS_B - a[i]);
      execOrder := execOrder + 1;
      lists := lists + [[data]];
    }
  }
}
