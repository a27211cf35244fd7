/**
 Keeping two versions below the bound is necessary: a run in which a reader still needs the second one.
 Thread 0 takes a version number; thread 1 updates once and begins again, with thread 0 in its view at the oldest
 version; thread 0 publishes twice; then the collector takes its bound.
 */
module MvccWitness {
  import opened Optional
  import opened Mvcc
  import opened MvccAlone

  // ---------- an update that reads its own newest version ----------

  /** After reading the own newest version and publishing. */
  function Published(s: State, t: nat): State
    requires Shape(s) && t < |s.updaters|
  {
    var u, head := s.updaters[t], s.lists[t][0];
    Put(s, t, u.(pc := EndLockCas, chosen := t, node := Some(head.version), read := head))
      .(lists := s.lists[t := [NewVersion(u.myVersion, head, head)] + s.lists[t]])
  }

  lemma Publishes(s: State, t: nat)
    requires Shape(s) && t < |s.updaters| && s.updaters[t].pc.Choose? && InView(s.updaters[t].view, t)
    requires s.updaters[t].view[EntryOf(s.updaters[t].view, t)].version == s.lists[t][0].version
    ensures Leads(s, Published(s, t), Anyone)
  {
    hide Leads;
    var a := Update(t, t);
    OneStep(s, a, Anyone);
    var s1 := Step(s, a);
    After(s, s1, a, Anyone);
    var s2 := Step(s1, a);
    After(s, s2, a, Anyone);
    assert Step(s2, a) == Published(s, t);
  }

  /** An update that reads the own newest version, from the choice on. */
  function Ended(s: State, t: nat): State
    requires Shape(s) && t < |s.updaters| && EntryOf(s.active, t) < |s.active|
  {
    Left(Published(s, t), t)
  }

  lemma End(s: State, t: nat)
    requires Shape(s) && t < |s.updaters| && s.updaters[t].pc.Choose? && s.throne == EMPTY
    requires EntryOf(s.active, t) < |s.active| && InView(s.updaters[t].view, t)
    requires s.updaters[t].view[EntryOf(s.updaters[t].view, t)].version == s.lists[t][0].version
    ensures Leads(s, Ended(s, t), Anyone)
  {
    hide Leads;
    Publishes(s, t);
    Leaves(Published(s, t), t, Anyone);
    Then(s, Published(s, t), Ended(s, t), Anyone);
  }

  // ---------- the collector up to its search in list 0 ----------

  lemma ScansHeads(s: State)
    requires Shape(s) && |s.lists| == 2 && s.gcPc == GcScan(0)
    ensures var bound := Min(s.lists[1][0].version, Min(s.lists[0][0].version, s.bound));
      Leads(s, s.(gcPc := GcLoad(0), bound := bound), Anyone)
  {
    hide Leads, Min;
    OneStep(s, Collect, Anyone);
    var s1 := GcStep(s);
    After(s, s1, Collect, Anyone);
    var s2 := GcStep(s1);
    After(s, s2, Collect, Anyone);
  }

  lemma SeeksBelow(s: State)
    requires Shape(s) && |s.lists| == 2 && s.gcPc == GcLoad(0) && |s.lists[0]| == 3
    requires s.lists[0][0].version >= s.bound > s.lists[0][1].version > s.lists[0][2].version
    ensures Leads(s, s.(gcPc := GcErase(0, s.lists[0][2].version)), Anyone)
  {
    hide Leads;
    OneStep(s, Collect, Anyone);
    var s1 := GcStep(s);
    After(s, s1, Collect, Anyone);
    var s2 := GcStep(s1);
    assert Position(s.lists[0], s.lists[0][0].version) == 0;
    After(s, s2, Collect, Anyone);
    var s3 := GcStep(s2);
    assert Position(s.lists[0], s.lists[0][1].version) == 1;
    After(s, s3, Collect, Anyone);
  }

  // ---------- the run ----------

  function Version(v: int): Data {
    Data(v, 0, A_PLUS_B)
  }

  lemma Two(x: ActiveThread, y: ActiveThread)
    requires x.id != y.id
    ensures Reversed([x, y]) == [y, x]
    ensures EntryOf([x, y], x.id) == 0 && EntryOf([x, y], y.id) == 1
    ensures Without([x, y], 0) == [y] && Without([x, y], 1) == [x]
  {
    assert [x, y][1..] == [y];
    One(y);
  }

  lemma Doubled(v: int, w: int)
    ensures NewVersion(v, Version(w), Version(w)) == Version(v)
  {
  }

  lemma One(x: ActiveThread)
    ensures Reversed([x]) == [x] && EntryOf([x], x.id) == 0 && Without([x], 0) == []
  {
    assert [x][1..] == [];
  }

  /** What matters of a state with two threads that is not inside a critical section. */
  ghost predicate Looks(s: State, order: int, active: seq<ActiveThread>, lists: seq<seq<Data>>, committed: seq<Data>) {
    && Shape(s) && |s.lists| == 2 && s.throne == EMPTY && s.gcPc.GcLockCas?
    && s.execOrder == order && s.active == active && s.lists == lists && s.committed == committed
  }

  /** Thread 0 has taken version 2. */
  lemma First() returns (s: State)
    ensures Leads(Initial([0, 0]), s, Anyone)
    ensures Looks(s, 3, [ActiveThread(0, 0)], [[Version(0)], [Version(1)]], [Version(0), Version(1)])
    ensures s.updaters[0].pc.Choose? && s.updaters[0].myVersion == 2 && s.updaters[0].view == [ActiveThread(0, 0)]
    ensures s.updaters[1].pc.LockCas?
  {
    hide Leads;
    var s0 := Initial([0, 0]);
    Begin(s0, 0, Anyone);
    One(ActiveThread(0, 0));
    s := Begun(s0, 0);
  }

  /** Thread 1 has published version 3. */
  lemma Second(s0: State) returns (s: State)
    requires Looks(s0, 3, [ActiveThread(0, 0)], [[Version(0)], [Version(1)]], [Version(0), Version(1)])
    requires s0.updaters[1].pc.LockCas?
    ensures Looks(s, 4, [ActiveThread(0, 0)], [[Version(0)], [Version(3), Version(1)]], [Version(0), Version(3)])
    ensures Leads(s0, s, Anyone) && s.updaters[0] == s0.updaters[0] && s.updaters[1].pc.LockCas?
  {
    hide Leads, Reversed, EntryOf, Without, NewVersion;
    Doubled(3, 1);
    Two(ActiveThread(1, 1), ActiveThread(0, 0));
    Two(ActiveThread(0, 0), ActiveThread(1, 1));
    Begin(s0, 1, Anyone);
    var s1 := Begun(s0, 1);
    assert s1.active == [ActiveThread(1, 1), ActiveThread(0, 0)];
    End(s1, 1);
    s := Ended(s1, 1);
    assert s.lists[1] == [Version(3), Version(1)];
    assert s.lists == [[Version(0)], [Version(3), Version(1)]] && s.committed == [Version(0), Version(3)];
    assert s.active == [ActiveThread(0, 0)];
    Then(s0, s1, s, Anyone);
  }

  /** Thread 1 has begun again; thread 0 is in its view with its oldest version. */
  lemma Third(s0: State) returns (s: State)
    requires Looks(s0, 4, [ActiveThread(0, 0)], [[Version(0)], [Version(3), Version(1)]], [Version(0), Version(3)])
    requires s0.updaters[1].pc.LockCas?
    ensures Looks(s, 5, [ActiveThread(1, 3), ActiveThread(0, 0)], [[Version(0)], [Version(3), Version(1)]],
      [Version(0), Version(3)])
    ensures Leads(s0, s, Anyone) && s.updaters[0] == s0.updaters[0]
    ensures s.updaters[1].pc.Choose? && s.updaters[1].myRecent == 3
      && s.updaters[1].snapshot == [Version(0), Version(3)]
    ensures s.updaters[1].view == [ActiveThread(0, 0), ActiveThread(1, 3)]
  {
    hide Leads, Reversed;
    Two(ActiveThread(1, 3), ActiveThread(0, 0));
    Begin(s0, 1, Anyone);
    s := Begun(s0, 1);
    assert s.active == [ActiveThread(1, 3), ActiveThread(0, 0)];
  }

  /** Thread 0 has published version 2. */
  lemma Fourth(s0: State) returns (s: State)
    requires Looks(s0, 5, [ActiveThread(1, 3), ActiveThread(0, 0)], [[Version(0)], [Version(3), Version(1)]],
      [Version(0), Version(3)])
    requires s0.updaters[0].pc.Choose? && s0.updaters[0].myVersion == 2 && s0.updaters[0].view == [ActiveThread(0, 0)]
    ensures Looks(s, 5, [ActiveThread(1, 3)], [[Version(2), Version(0)], [Version(3), Version(1)]],
      [Version(2), Version(3)])
    ensures Leads(s0, s, Anyone) && s.updaters[1] == s0.updaters[1] && s.updaters[0].pc.LockCas?
  {
    hide Leads, Reversed, EntryOf, Without, NewVersion;
    Doubled(2, 0);
    Two(ActiveThread(1, 3), ActiveThread(0, 0));
    One(ActiveThread(0, 0));
    End(s0, 0);
    s := Ended(s0, 0);
    assert s.lists[0] == [Version(2), Version(0)];
    assert s.lists == [[Version(2), Version(0)], [Version(3), Version(1)]] && s.committed == [Version(2), Version(3)];
    assert s.active == [ActiveThread(1, 3)];
  }

  /** Thread 0 has published version 5. */
  lemma Fifth(s0: State) returns (s: State)
    requires Looks(s0, 5, [ActiveThread(1, 3)], [[Version(2), Version(0)], [Version(3), Version(1)]],
      [Version(2), Version(3)])
    requires s0.updaters[0].pc.LockCas?
    ensures Looks(s, 6, [ActiveThread(1, 3)], [[Version(5), Version(2), Version(0)], [Version(3), Version(1)]],
      [Version(5), Version(3)])
    ensures Leads(s0, s, Anyone) && s.updaters[1] == s0.updaters[1]
  {
    hide Leads, Reversed, EntryOf, Without, NewVersion;
    Doubled(5, 2);
    Two(ActiveThread(0, 2), ActiveThread(1, 3));
    Two(ActiveThread(1, 3), ActiveThread(0, 2));
    Begin(s0, 0, Anyone);
    var s1 := Begun(s0, 0);
    assert s1.active == [ActiveThread(0, 2), ActiveThread(1, 3)];
    End(s1, 0);
    s := Ended(s1, 0);
    assert s.lists[0] == [Version(5), Version(2), Version(0)];
    assert s.lists == [[Version(5), Version(2), Version(0)], [Version(3), Version(1)]]
      && s.committed == [Version(5), Version(3)];
    assert s.active == [ActiveThread(1, 3)];
    Then(s0, s1, s, Anyone);
  }

  /** A reader needs the second version below the bound: some run reaches a state in which the collector, with a bound
      no larger than the recent version of a reader, stands on the second of the two versions below the bound that it
      keeps of a list, and that version is the one the reader has still to read. */
  lemma TwoVersionsNeeded() returns (run: seq<State>, r: nat, i: nat)
    ensures IsRun(run)
    ensures var s := run[|run| - 1];
      && r < |s.updaters| && i < |s.lists| && |s.lists[i]| == 3 && s.gcPc == GcErase(i, s.lists[i][2].version)
      && s.lists[i][2].version < s.lists[i][1].version < s.bound <= s.lists[i][0].version
      && Reading(s.updaters[r].pc) && s.bound <= s.updaters[r].myRecent
      && i < |s.updaters[r].snapshot| && s.updaters[r].snapshot[i] == s.lists[i][2]
      && InView(s.updaters[r].view, i)
        && s.updaters[r].view[EntryOf(s.updaters[r].view, i)].version == s.lists[i][2].version
  {
    hide Leads;
    var s0 := Initial([0, 0]);
    var s1 := First();
    var s2 := Second(s1);
    Then(s0, s1, s2, Anyone);
    var s3 := Third(s2);
    Then(s0, s2, s3, Anyone);
    var s4 := Fourth(s3);
    Then(s0, s3, s4, Anyone);
    var s5 := Fifth(s4);
    Then(s0, s4, s5, Anyone);
    var s6 := Collected(s5);
    Then(s0, s5, s6, Anyone);
    Two(ActiveThread(0, 0), ActiveThread(1, 3));
    run := RunTo(s6);
    r, i := 1, 0;
  }

  /** The collector has taken its bound and passed the two newest versions of thread 0 below it. */
  lemma Collected(s0: State) returns (s: State)
    requires Looks(s0, 6, [ActiveThread(1, 3)], [[Version(5), Version(2), Version(0)], [Version(3), Version(1)]],
      [Version(5), Version(3)])
    ensures Leads(s0, s, Anyone) && s == s0.(gcPc := GcErase(0, 0), bound := 3)
  {
    hide Leads;
    TakesLast(s0, Anyone);
    var s1 := s0.(gcPc := GcScan(0), bound := 3);
    ScansHeads(s1);
    var s2 := s0.(gcPc := GcLoad(0), bound := 3);
    Then(s0, s1, s2, Anyone);
    SeeksBelow(s2);
    s := s0.(gcPc := GcErase(0, 0), bound := 3);
    Then(s0, s2, s, Anyone);
  }

  lemma RunTo(s: State) returns (run: seq<State>)
    requires Leads(Initial([0, 0]), s, Anyone)
    ensures IsRun(run) && run[|run| - 1] == s
  {
    run :| Path(run, Anyone) && run[0] == Initial([0, 0]) && run[|run| - 1] == s;
    forall k: nat ensures StepAt(run, k) { assert StepBy(run, k, Anyone); }
    assert ValidSeedData([0, 0]);
  }
}
