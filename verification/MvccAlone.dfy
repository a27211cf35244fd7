/**
 What one thread of the multi-version store does when it runs undisturbed: an update goes from the top of its loop back
 to it, and a collection trims every list, from any reachable state in which the lock is free.
 */
module MvccAlone {
  import opened Optional
  import opened Mvcc
  import opened MvccProof
  import opened MvccTheorems
  import opened NodeList
  import opened MvccCollection

  // ---------- pieces of runs ----------

  /** Who makes the steps of a piece of a run. */
  datatype Actor = Anyone | OnlyUpdater(t: nat) | OnlyCollector

  predicate By(a: Action, who: Actor) {
    match who
    case Anyone => true
    case OnlyUpdater(t) => a.Update? && a.t == t
    case OnlyCollector => a.Collect?
  }

  /** State k follows from the one before it by a step of that actor. */
  ghost predicate StepBy(run: seq<State>, k: nat, who: Actor) {
    0 < k < |run| ==>
      && Shape(run[k - 1])
      && exists a :: Enabled(run[k - 1], a) && By(a, who) && run[k] == Step(run[k - 1], a)
  }

  /** A piece of a run, from any state. */
  ghost predicate Path(run: seq<State>, who: Actor) {
    run != [] && forall k: nat :: StepBy(run, k, who)
  }

  ghost predicate Leads(s: State, s': State, who: Actor) {
    exists run :: Path(run, who) && run[0] == s && run[|run| - 1] == s'
  }

  lemma JoinPaths(a: seq<State>, b: seq<State>, who: Actor)
    requires Path(a, who) && Path(b, who) && a[|a| - 1] == b[0]
    ensures Path(a + b[1..], who)
  {
    var run := a + b[1..];
    forall k: nat ensures StepBy(run, k, who) {
      if 0 < k < |a| {
        assert StepBy(a, k, who);
      } else if |a| <= k < |run| {
        assert StepBy(b, k - |a| + 1, who);
      }
    }
  }

  lemma Then(s: State, mid: State, s': State, who: Actor)
    requires Leads(s, mid, who) && Leads(mid, s', who)
    ensures Leads(s, s', who)
  {
    var a :| Path(a, who) && a[0] == s && a[|a| - 1] == mid;
    var b :| Path(b, who) && b[0] == mid && b[|b| - 1] == s';
    JoinPaths(a, b, who);
    var run := a + b[1..];
    assert run[0] == s && run[|run| - 1] == s';
  }

  lemma OneStep(s: State, a: Action, who: Actor)
    requires Shape(s) && Enabled(s, a) && By(a, who)
    ensures Leads(s, Step(s, a), who)
  {
    var run := [s, Step(s, a)];
    forall k: nat ensures StepBy(run, k, who) { }
    assert Path(run, who) && run[0] == s && run[|run| - 1] == Step(s, a);
  }

  lemma After(s: State, mid: State, a: Action, who: Actor)
    requires Leads(s, mid, who) && Shape(mid) && Enabled(mid, a) && By(a, who)
    ensures Leads(s, Step(mid, a), who)
  {
    OneStep(mid, a, who);
    Then(s, mid, Step(mid, a), who);
  }

  // ---------- an undisturbed update ----------

  /** After taking a version number and a read-view. */
  function Begun(s: State, t: nat): State
    requires Shape(s) && t < |s.updaters|
  {
    var head := s.lists[t][0].version;
    var active := [ActiveThread(t, head)] + s.active;
    var u := s.updaters[t].(pc := Choose, myVersion := s.execOrder, myRecent := head);
    Put(s, t, u.(view := Reversed(active), snapshot := s.committed))
      .(execOrder := s.execOrder + 1, active := active)
  }

  lemma Begin(s: State, t: nat, who: Actor)
    requires Shape(s) && t < |s.updaters| && s.updaters[t].pc.LockCas? && s.throne == EMPTY
    requires By(Update(t, t), who)
    ensures Leads(s, Begun(s, t), who)
  {
    hide Leads;
    var a := Update(t, t);
    OneStep(s, a, who);
    var s1 := Step(s, a);
    After(s, s1, a, who);
    var s2 := Step(s1, a);
    After(s, s2, a, who);
    var s3 := Step(s2, a);
    After(s, s3, a, who);
    var s4 := Step(s3, a);
    After(s, s4, a, who);
    var s5 := Step(s4, a);
    After(s, s5, a, who);
    assert Step(s5, a) == Begun(s, t);
  }

  /** After leaving the active list. */
  function Left(s: State, t: nat): State
    requires Shape(s) && t < |s.updaters| && EntryOf(s.active, t) < |s.active|
  {
    Put(s, t, s.updaters[t].(pc := LockCas, numUpdates := s.updaters[t].numUpdates + 1))
      .(active := Without(s.active, EntryOf(s.active, t)), committed := s.committed[t := s.lists[t][0]])
  }

  lemma Leaves(s: State, t: nat, who: Actor)
    requires Shape(s) && t < |s.updaters| && s.updaters[t].pc.EndLockCas? && s.throne == EMPTY
    requires EntryOf(s.active, t) < |s.active| && By(Update(t, t), who)
    ensures Leads(s, Left(s, t), who)
  {
    hide Leads;
    var a := Update(t, t);
    OneStep(s, a, who);
    var s1 := Step(s, a);
    After(s, s1, a, who);
    var s2 := Step(s1, a);
    After(s, s2, a, who);
    var s3 := Step(s2, a);
    After(s, s3, a, who);
    assert Step(s3, a) == Left(s, t);
  }

  lemma TakesLast(s: State, who: Actor)
    requires Shape(s) && s.gcPc.GcLockCas? && s.throne == EMPTY && By(Collect, who)
    ensures Leads(s, s.(gcPc := GcScan(0), bound := LastActive(s.active)), who)
  {
    hide Leads, LastActive;
    OneStep(s, Collect, who);
    var s1 := GcStep(s);
    After(s, s1, Collect, who);
    var s2 := GcStep(s1);
    After(s, s2, Collect, who);
    var s3 := GcStep(s2);
    After(s, s3, Collect, who);
    assert GcStep(s3) == s.(gcPc := GcScan(0), bound := LastActive(s.active));
  }


  // ---------- the whole update ----------

  lemma {:induction false} PathKeepsInv(run: seq<State>, k: nat, who: Actor)
    requires Path(run, who) && Inv(run[0]) && k < |run|
    ensures Inv(run[k])
  {
    if k > 0 {
      hide Step, Inv;
      PathKeepsInv(run, k - 1, who);
      assert StepBy(run, k, who);
      var a :| Enabled(run[k - 1], a) && By(a, who) && run[k] == Step(run[k - 1], a);
      StepInv(run[k - 1], a);
    }
  }

  lemma LeadsKeepsInv(s: State, s': State, who: Actor)
    requires Inv(s) && Leads(s, s', who)
    ensures Inv(s')
  {
    var run :| Path(run, who) && run[0] == s && run[|run| - 1] == s';
    PathKeepsInv(run, |run| - 1, who);
  }

  /** A step of the search that does not end it moves one node down the list. */
  lemma WalkMoves(s: State, t: nat)
    requires Inv(s) && t < |s.updaters| && s.updaters[t].pc.Walk?
    ensures var u, u' := s.updaters[t], WalkStep(s, t).updaters[t]; var list := s.lists[u.chosen];
      u.node.Some? && (u'.pc.Walk? ==> u'.node.Some? && Position(list, u.node.value) < Position(list, u'.node.value))
  {
    var u := s.updaters[t];
    assert CursorAt(s, t) && SnapAt(s, t, u.chosen) && GoodAt(s, u.chosen);
    WalkPosition(u, s.updaters[u.chosen], s.lists[u.chosen]);
    hide Inv, Position;
    var list := s.lists[u.chosen];
    var p := Position(list, u.node.value);
    if p + 1 < |list| {
      PositionOf(list, p + 1);
    }
  }

  ghost function StillToWalk(s: State, t: nat): nat
    requires Shape(s) && t < |s.updaters|
  {
    var u := s.updaters[t];
    if u.node.Some? then |s.lists[u.chosen]| - Position(s.lists[u.chosen], u.node.value) else 0
  }

  /** The search ends, and changes nothing but what the searching thread holds. */
  lemma {:induction false} WalkEnds(s: State, t: nat) returns (s': State)
    requires Inv(s) && t < |s.updaters| && s.updaters[t].pc.Walk?
    ensures Leads(s, s', OnlyUpdater(t)) && t < |s'.updaters|
    ensures s' == Put(s, t, s.updaters[t].(pc := Publish, node := s'.updaters[t].node, read := s'.updaters[t].read))
    decreases StillToWalk(s, t)
  {
    hide Leads;
    WalkOutcome(s, t);
    WalkMoves(s, t);
    StepInv(s, Update(t, t));
    OneStep(s, Update(t, t), OnlyUpdater(t));
    var s1 := WalkStep(s, t);
    hide Inv, WalkStep, Position;
    if s1.updaters[t].pc.Walk? {
      s' := WalkEnds(s1, t);
      Then(s, s1, s', OnlyUpdater(t));
    } else {
      s' := s1;
    }
  }

  /** From the choice of thread i to the published version. */
  lemma PublishAlone(s: State, t: nat, i: nat) returns (s': State, q: int)
    requires Inv(s) && t < |s.updaters| && i < |s.updaters| && s.updaters[t].pc.Choose?
    ensures Leads(s, s', OnlyUpdater(t)) && Shape(s') && t < |s'.updaters| && s'.updaters[t].pc.EndLockCas?
    ensures i < |s.updaters[t].snapshot| && IsRemainder(q, s.updaters[t].snapshot[i].A)
    ensures s'.updaters[t].numUpdates == s.updaters[t].numUpdates
    ensures var was := s.lists[t]; var d := Data(s.updaters[t].myVersion, was[0].A + q, was[0].B - q);
      s' == s.(updaters := s.updaters[t := s'.updaters[t]], lists := s.lists[t := [d] + was])
  {
    hide Leads, IsRemainder, WalkStep, Reversed, EntryOf;
    var a := Update(t, i);
    OneStep(s, a, OnlyUpdater(t));
    StepInv(s, a);
    var s1 := Step(s, a);
    assert SnapAt(s, t, i);
    var s2 := WalkEnds(s1, t);
    Then(s, s1, s2, OnlyUpdater(t));
    LeadsKeepsInv(s1, s2, OnlyUpdater(t));
    assert CursorAt(s2, t);
    After(s, s2, a, OnlyUpdater(t));
    s' := Step(s2, a);
    q := Rem(s2.updaters[t].read.A, 100);
    RemIsRemainder(s2.updaters[t].read.A);
    assert Shape(s) && Shape(s2);
    hide Inv;
  }

  /** An undisturbed update of thread t that draws thread i: it publishes one version, numbered by the execution order
      it took, that moves the remainder of the A committed by thread i from B to A; it leaves the active list and the
      lock as it found them, commits the version, counts the update, and touches nothing else. */
  lemma UpdateAlone(s: State, t: nat, i: nat) returns (s': State, q: int)
    requires Inv(s) && t < |s.updaters| && i < |s.updaters| && s.updaters[t].pc.LockCas? && s.throne == EMPTY
    ensures Leads(s, s', OnlyUpdater(t)) && t < |s'.updaters| && s'.updaters[t].pc.LockCas?
    ensures s'.updaters[t].numUpdates == s.updaters[t].numUpdates + 1
    ensures IsRemainder(q, s.committed[i].A)
    ensures var was := s.lists[t]; var d := Data(s.execOrder, was[0].A + q, was[0].B - q);
      s' == s.(
        execOrder := s.execOrder + 1,
        lists := s.lists[t := [d] + was],
        committed := s.committed[t := d],
        updaters := s.updaters[t := s'.updaters[t]])
  {
    hide Leads, IsRemainder, Reversed, UpdaterStep;
    Begin(s, t, OnlyUpdater(t));
    var s1 := Begun(s, t);
    LeadsKeepsInv(s, s1, OnlyUpdater(t));
    assert SnapAt(s1, t, i) && Shape(s1);
    var s2;
    s2, q := PublishAlone(s1, t, i);
    hide Inv;
    Then(s, s1, s2, OnlyUpdater(t));
    FirstLeaves(ActiveThread(t, s.lists[t][0].version), s.active);
    hide EntryOf, Without;
    assert s2.active == [ActiveThread(t, s.lists[t][0].version)] + s.active && Shape(s2);
    Leaves(s2, t, OnlyUpdater(t));
    s' := Left(s2, t);
    Then(s, s2, s', OnlyUpdater(t));
  }

  lemma FirstLeaves(x: ActiveThread, entries: seq<ActiveThread>)
    ensures EntryOf([x] + entries, x.id) == 0 && Without([x] + entries, 0) == entries
  {
  }

  // ---------- the whole collection ----------

  /** `bound` is the least of INT_MAX or the version of the last active entry, and the newest version of each of the
      first n threads. */
  ghost predicate IsBound(s: State, n: nat, bound: int)
    requires Shape(s) && n <= |s.lists|
  {
    var last := if s.active == [] then 0x7fff_ffff else s.active[|s.active| - 1].version;
    && bound <= last
    && (forall j :: 0 <= j < n ==> bound <= s.lists[j][0].version)
    && (bound == last || exists j :: 0 <= j < n && bound == s.lists[j][0].version)
  }

  lemma {:induction false} ScanAlone(s: State, k: nat, bound: int) returns (b: int)
    requires Shape(s) && k <= |s.lists| && IsBound(s, k, bound)
    ensures IsBound(s, |s.lists|, b)
    ensures Leads(s.(gcPc := GcScan(k), bound := bound), s.(gcPc := GcLoad(0), bound := b), OnlyCollector)
    decreases |s.lists| - k
  {
    hide Leads;
    var s0 := s.(gcPc := GcScan(k), bound := bound);
    OneStep(s0, Collect, OnlyCollector);
    if k == |s.lists| {
      b := bound;
    } else {
      var bound' := Min(s.lists[k][0].version, bound);
      if bound' == s.lists[k][0].version {
        assert IsBound(s, k + 1, bound');
      } else if bound != (if s.active == [] then 0x7fff_ffff else s.active[|s.active| - 1].version) {
        var j :| 0 <= j < k && bound == s.lists[j][0].version;
        assert IsBound(s, k + 1, bound');
      }
      b := ScanAlone(s, k + 1, bound');
      Then(s0, Step(s0, Collect), s.(gcPc := GcLoad(0), bound := b), OnlyCollector);
    }
  }

  lemma {:induction false} EraseAlone(s: State, i: nat, p: nat)
    requires Shape(s) && i < |s.lists| && Descending(s.lists[i]) && p < |s.lists[i]|
    ensures Leads(s.(gcPc := GcErase(i, s.lists[i][p].version)),
                  s.(gcPc := GcLoad(i + 1), lists := s.lists[i := s.lists[i][..p + 1]]), OnlyCollector)
    decreases |s.lists[i]|
  {
    hide Leads, Position;
    var list := s.lists[i];
    var s0 := s.(gcPc := GcErase(i, list[p].version));
    PositionOf(list, p);
    OneStep(s0, Collect, OnlyCollector);
    if p + 1 == |list| {
      assert list[..p + 1] == list && s.lists[i := list] == s.lists;
    } else {
      var shorter := Without(list, p + 1);
      var s1 := s.(lists := s.lists[i := shorter]);
      assert Step(s0, Collect) == s1.(gcPc := GcErase(i, shorter[p].version));
      EraseAlone(s1, i, p);
      assert shorter[..p + 1] == list[..p + 1];
      assert s1.lists[i := list[..p + 1]] == s.lists[i := list[..p + 1]];
      Then(s0, Step(s0, Collect), s.(gcPc := GcLoad(i + 1), lists := s.lists[i := list[..p + 1]]), OnlyCollector);
    }
  }

  lemma KeepAlone(s: State, i: nat, p: nat)
    requires Shape(s) && i < |s.lists| && Descending(s.lists[i]) && p <= |s.lists[i]|
    ensures var kept := if p < |s.lists[i]| then s.lists[i][..p + 1] else s.lists[i];
      Leads(s.(gcPc := GcKeep(i, NodeAt(s.lists[i], p))),
            s.(gcPc := GcLoad(i + 1), lists := s.lists[i := kept]), OnlyCollector)
  {
    hide Leads, Position;
    var list := s.lists[i];
    var s0 := s.(gcPc := GcKeep(i, NodeAt(list, p)));
    OneStep(s0, Collect, OnlyCollector);
    if p < |list| {
      EraseAlone(s, i, p);
      Then(s0, Step(s0, Collect), s.(gcPc := GcLoad(i + 1), lists := s.lists[i := list[..p + 1]]), OnlyCollector);
    } else {
      assert s.lists[i := list] == s.lists;
    }
  }

  lemma {:induction false} SeekAlone(s: State, i: nat, p: nat)
    requires Shape(s) && i < |s.lists| && Descending(s.lists[i]) && p <= |s.lists[i]|
    requires AboveBefore(s.lists[i], p, s.bound)
    ensures Leads(s.(gcPc := GcSeek(i, NodeAt(s.lists[i], p))),
                  s.(gcPc := GcLoad(i + 1), lists := s.lists[i := Kept(s.lists[i], s.bound)]), OnlyCollector)
    decreases |s.lists[i]| - p
  {
    hide Leads, Position, Kept;
    var list := s.lists[i];
    var s0 := s.(gcPc := GcSeek(i, NodeAt(list, p)));
    var s' := s.(gcPc := GcLoad(i + 1), lists := s.lists[i := Kept(list, s.bound)]);
    OneStep(s0, Collect, OnlyCollector);
    if p == |list| {
      KeptAll(list, s.bound);
      assert s.lists[i := list] == s.lists;
    } else {
      PositionOf(list, p);
      var s1 := Step(s0, Collect);
      if list[p].version >= s.bound {
        SeekAlone(s, i, p + 1);
        Then(s0, s1, s', OnlyCollector);
      } else {
        KeptBelow(list, p, s.bound);
        assert s1 == s.(gcPc := GcKeep(i, NodeAt(list, p + 1)));
        KeepAlone(s, i, p + 1);
        Then(s0, s1, s', OnlyCollector);
      }
    }
  }

  /** The lists before i are trimmed, those from i on are as they were. */
  ghost predicate TrimmedUpTo(was: seq<seq<Data>>, lists: seq<seq<Data>>, i: nat, bound: int) {
    && |lists| == |was|
    && forall j :: 0 <= j < |lists| ==> lists[j] == if j < i then Kept(was[j], bound) else was[j]
  }

  lemma KeptNonEmpty(list: seq<Data>, bound: int)
    requires list != []
    ensures Kept(list, bound) != []
  {
  }

  lemma {:induction false} TrimAlone(s: State, was: seq<seq<Data>>, i: nat) returns (lists: seq<seq<Data>>)
    requires Shape(s) && i <= |s.lists| && TrimmedUpTo(was, s.lists, i, s.bound)
    requires forall j :: 0 <= j < |was| ==> Descending(was[j])
    ensures Leads(s.(gcPc := GcLoad(i)), s.(gcPc := GcLockCas, lists := lists), OnlyCollector)
    ensures TrimmedUpTo(was, lists, |was|, s.bound)
    decreases |s.lists| - i
  {
    hide Leads, Kept, Descending;
    var s0 := s.(gcPc := GcLoad(i));
    OneStep(s0, Collect, OnlyCollector);
    if i == |s.lists| {
      lists := s.lists;
    } else {
      var s1 := s.(lists := s.lists[i := Kept(was[i], s.bound)]);
      SeekAlone(s, i, 0);
      KeptNonEmpty(was[i], s.bound);
      lists := TrimAlone(s1, was, i + 1);
      Then(s0, Step(s0, Collect), s1.(gcPc := GcLoad(i + 1)), OnlyCollector);
      Then(s0, s1.(gcPc := GcLoad(i + 1)), s.(gcPc := GcLockCas, lists := lists), OnlyCollector);
    }
  }

  /** An undisturbed collection takes as its bound the least of the version of the last active entry and the newest
      versions, frees of every list exactly the versions with two newer ones below the bound, and touches nothing
      else. */
  lemma CollectAlone(s: State) returns (s': State)
    requires Inv(s) && s.gcPc.GcLockCas? && s.throne == EMPTY
    ensures Leads(s, s', OnlyCollector) && s' == s.(bound := s'.bound, lists := s'.lists)
    ensures IsBound(s, |s.lists|, s'.bound) && |s'.lists| == |s.lists|
    ensures forall j :: 0 <= j < |s.lists| ==>
      && s'.lists[j] <= s.lists[j]
      && forall k: nat :: k < |s.lists[j]| ==>
        (k < |s'.lists[j]| <==> !TwoNewerBelow(s.lists[j], k, s'.bound))
  {
    hide Leads;
    forall j: nat | j < |s.lists| ensures Descending(s.lists[j]) { assert GoodAt(s, j); }
    assert Shape(s);
    hide Inv;
    TakesLast(s, OnlyCollector);
    var bound := ScanAlone(s, 0, LastActive(s.active));
    var s1 := s.(gcPc := GcScan(0), bound := LastActive(s.active));
    var s2 := s.(gcPc := GcLoad(0), bound := bound);
    Then(s, s1, s2, OnlyCollector);
    var lists := TrimAlone(s2, s.lists, 0);
    s' := s.(bound := bound, lists := lists);
    Then(s, s2, s', OnlyCollector);
    forall j | 0 <= j < |s.lists|
      ensures s'.lists[j] <= s.lists[j]
      ensures forall k: nat :: k < |s.lists[j]| ==> (k < |s'.lists[j]| <==> !TwoNewerBelow(s.lists[j], k, s'.bound))
    {
      KeptIsExact(s.lists[j], bound);
    }
  }
}
