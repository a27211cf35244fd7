/**
 The collector is thorough: what it has passed holds nothing more to free, in every run, while updaters publish.
 */
module MvccCollection {
  import opened Optional
  import opened Mvcc
  import opened MvccProof
  import opened NodeList

  /** No version of the list has two newer ones below the bound. */
  ghost predicate Trimmed(list: seq<Data>, bound: int) {
    forall k: nat :: k < |list| ==> !TwoNewerBelow(list, k, bound)
  }

  /** The versions before position p are not below the bound. */
  ghost predicate AboveBefore(list: seq<Data>, p: int, bound: int) {
    forall k :: 0 <= k < |list| && k < p ==> list[k].version >= bound
  }

  /** The collector has left list j behind. */
  predicate Passed(pc: GcPc, j: nat) {
    match pc
    case GcLoad(i) => j < i
    case GcSeek(i, _) => j < i
    case GcKeep(i, _) => j < i
    case GcErase(i, _) => j < i
    case _ => false
  }

  ghost predicate TrimmedAt(s: State, j: nat) {
    j < |s.lists| && Passed(s.gcPc, j) ==> Trimmed(s.lists[j], s.bound)
  }

  /** Where the collector stands in its list: behind versions not below the bound, and at most one that is. */
  ghost predicate Search(pc: GcPc, list: seq<Data>, bound: int) {
    match pc
    case GcSeek(_, node) => AboveBefore(list, if node.Some? then Position(list, node.value) else |list|, bound)
    case GcKeep(_, node) => AboveBefore(list, (if node.Some? then Position(list, node.value) else |list|) - 1, bound)
    case GcErase(_, prev) => AboveBefore(list, Position(list, prev) - 1, bound)
    case _ => true
  }

  predicate InList(pc: GcPc, i: nat) {
    (pc.GcSeek? || pc.GcKeep? || pc.GcErase?) && pc.list == i
  }

  ghost predicate SearchAt(s: State, i: nat) {
    i < |s.lists| && InList(s.gcPc, i) ==> Search(s.gcPc, s.lists[i], s.bound)
  }

  ghost predicate Thorough(s: State) {
    && (forall j: nat :: TrimmedAt(s, j))
    && (forall i: nat :: SearchAt(s, i))
  }

  // ---------- lists ----------

  lemma AboveIsTrimmed(list: seq<Data>, bound: int)
    requires AboveBefore(list, |list| - 2, bound)
    ensures Trimmed(list, bound)
  {
  }

  lemma PositionOf(list: seq<Data>, p: nat)
    requires Descending(list) && p < |list|
    ensures Position(list, list[p].version) == p
  {
    var q := Position(list, list[p].version);
    assert q <= p;
  }

  lemma PositionAfterPush(d: Data, list: seq<Data>, v: int)
    requires d.version != v
    ensures Position([d] + list, v) == Position(list, v) + 1
  {
    assert ([d] + list)[1..] == list;
  }

  lemma PushKeepsTrimmed(d: Data, list: seq<Data>, bound: int)
    requires d.version >= bound && Trimmed(list, bound)
    ensures Trimmed([d] + list, bound)
  {
    forall k: nat | k < |[d] + list| ensures !TwoNewerBelow([d] + list, k, bound) {
      if k > 2 {
        assert !TwoNewerBelow(list, k - 1, bound);
      }
    }
  }

  lemma PushKeepsAbove(d: Data, list: seq<Data>, p: int, bound: int)
    requires d.version >= bound && AboveBefore(list, p, bound)
    ensures AboveBefore([d] + list, p + 1, bound)
  {
  }

  /** A thread that publishes while the collector is at work in its list. */
  lemma PushKeepsSearch(pc: GcPc, d: Data, list: seq<Data>, bound: int)
    requires Search(pc, list, bound) && d.version >= bound && Descending([d] + list)
    requires match pc
      case GcSeek(_, node) => node.Some? ==> Holds(list, node.value)
      case GcKeep(_, node) => node.Some? ==> Holds(list, node.value)
      case GcErase(_, prev) => Holds(list, prev)
      case _ => true
    ensures Search(pc, [d] + list, bound)
  {
    forall v | Holds(list, v) ensures Position([d] + list, v) == Position(list, v) + 1 {
      var k :| 0 <= k < |list| && list[k].version == v;
      assert ([d] + list)[0].version > ([d] + list)[k + 1].version == v;
      PositionAfterPush(d, list, v);
    }
    match pc
    case GcSeek(_, node) => PushKeepsAbove(d, list, if node.Some? then Position(list, node.value) else |list|, bound);
    case GcKeep(_, node) =>
      PushKeepsAbove(d, list, (if node.Some? then Position(list, node.value) else |list|) - 1, bound);
    case GcErase(_, prev) => PushKeepsAbove(d, list, Position(list, prev) - 1, bound);
    case _ =>
  }

  // ---------- steps ----------

  /** Updaters change a list only by pushing, and nothing of the collector's. */
  lemma UpdaterEffect(s: State, t: nat, c: nat)
    requires Inv(s) && t < |s.updaters| && c < |s.updaters|
    ensures var s' := UpdaterStep(s, t, c);
      && s'.gcPc == s.gcPc && s'.bound == s.bound
      && s'.lists == if s.updaters[t].pc.Publish?
          then s.lists[t := [NewVersion(s.updaters[t].myVersion, s.lists[t][0], s.updaters[t].read)] + s.lists[t]]
          else s.lists
  {
    hide WalkStep, Reversed, EntryOf, NewVersion;
    if s.updaters[t].pc.Walk? {
      WalkOutcome(s, t);
    }
    assert Shape(s);
    hide Inv;
  }

  lemma PublishKeepsThorough(s: State, t: nat, c: nat)
    requires Inv(s) && Thorough(s) && t < |s.updaters| && c < |s.updaters| && s.updaters[t].pc.Publish?
    ensures Thorough(UpdaterStep(s, t, c))
  {
    var s' := UpdaterStep(s, t, c);
    UpdaterEffect(s, t, c);
    StepInv(s, Update(t, c));
    assert OwnerAt(s, t) && ScanAt(s, t) && GoodAt(s', t);
    assert CollectorInv(s);
    hide Inv, UpdaterStep, Search, Trimmed;
    var d, list := s'.lists[t][0], s.lists[t];
    assert s'.lists[t] == [d] + list;
    forall j: nat ensures TrimmedAt(s', j) {
      assert TrimmedAt(s, j);
      if j == t && Passed(s.gcPc, t) {
        PushKeepsTrimmed(d, list, s.bound);
      }
    }
    forall i: nat ensures SearchAt(s', i) {
      assert SearchAt(s, i);
      if i == t && InList(s.gcPc, t) {
        PushKeepsSearch(s.gcPc, d, list, s.bound);
      }
    }
  }

  lemma UpdaterKeepsThorough(s: State, t: nat, c: nat)
    requires Inv(s) && Thorough(s) && t < |s.updaters| && c < |s.updaters|
    ensures Thorough(UpdaterStep(s, t, c))
  {
    if s.updaters[t].pc.Publish? {
      PublishKeepsThorough(s, t, c);
    } else {
      UpdaterEffect(s, t, c);
      hide UpdaterStep, Inv, Search, Trimmed;
      var s' := UpdaterStep(s, t, c);
      forall j: nat ensures TrimmedAt(s', j) { assert TrimmedAt(s, j); }
      forall i: nat ensures SearchAt(s', i) { assert SearchAt(s, i); }
    }
  }

  lemma CollectorKeepsTrimmed(s: State, j: nat)
    requires Inv(s) && Thorough(s)
    ensures TrimmedAt(GcStep(s), j)
  {
    assert TrimmedAt(s, j) && SearchAt(s, j) && CollectorInv(s);
    if s.gcPc.GcErase? {
      FreeKeepsCollector(s.lists[s.gcPc.list], s.gcPc.prev, s.bound) by { assert GoodAt(s, s.gcPc.list); }
    }
    hide Inv, Thorough, Trimmed, Position;
    if InList(s.gcPc, j) && j < |s.lists| && AboveBefore(s.lists[j], |s.lists[j]| - 2, s.bound) {
      AboveIsTrimmed(s.lists[j], s.bound);
    }
  }

  lemma SeekKeepsSearch(s: State, i: nat)
    requires Inv(s) && Thorough(s) && s.gcPc.GcSeek?
    ensures SearchAt(GcStep(s), i)
  {
    assert SearchAt(s, s.gcPc.list) && GoodAt(s, s.gcPc.list) && CollectorInv(s);
    hide Inv, Thorough, Position;
    var list := s.lists[s.gcPc.list];
    if s.gcPc.node.Some? {
      var p := Position(list, s.gcPc.node.value);
      if p + 1 < |list| {
        PositionOf(list, p + 1);
      }
    }
  }

  lemma EraseKeepsSearch(s: State, i: nat)
    requires Inv(s) && Thorough(s) && s.gcPc.GcErase?
    ensures SearchAt(GcStep(s), i)
  {
    assert SearchAt(s, s.gcPc.list) && GoodAt(s, s.gcPc.list) && CollectorInv(s);
    StepInv(s, Collect);
    var s' := GcStep(s);
    assert GoodAt(s', s.gcPc.list);
    hide Inv, Thorough, Position;
    var list, list' := s.lists[s.gcPc.list], s'.lists[s.gcPc.list];
    var p := Position(list, s.gcPc.prev);
    if p + 1 < |list| {
      assert list'[p] == list[p];
      PositionOf(list', p);
    }
  }

  lemma CollectorKeepsSearch(s: State, i: nat)
    requires Inv(s) && Thorough(s)
    ensures SearchAt(GcStep(s), i)
  {
    match s.gcPc
    case GcSeek(_, _) => SeekKeepsSearch(s, i);
    case GcErase(_, _) => EraseKeepsSearch(s, i);
    case _ =>
      assert SearchAt(s, i) && Shape(s);
      hide Inv, Thorough;
  }

  lemma StepKeepsThorough(s: State, a: Action)
    requires Inv(s) && Enabled(s, a) && Thorough(s)
    ensures Thorough(Step(s, a))
  {
    match a
    case Update(t, c) => UpdaterKeepsThorough(s, t, c);
    case Collect =>
      hide GcStep;
      forall j: nat ensures TrimmedAt(GcStep(s), j) { CollectorKeepsTrimmed(s, j); }
      forall i: nat ensures SearchAt(GcStep(s), i) { CollectorKeepsSearch(s, i); }
  }

  lemma {:induction false} RunThorough(run: seq<State>, k: nat)
    requires IsRun(run) && k < |run|
    ensures Thorough(run[k])
  {
    if k > 0 {
      hide Step, Inv, Thorough;
      RunThorough(run, k - 1);
      var a := ActionAt(run, k);
      StepKeepsThorough(run[k - 1], a);
    }
  }

  /** While the collector is about to load list i, no list before it holds a version with two newer ones below the
      bound: every such version has been freed, whatever was published meanwhile. */
  lemma NothingLeftBehind(run: seq<State>, k: nat, j: nat, p: nat)
    requires IsRun(run) && k < |run| && run[k].gcPc.GcLoad? && j < run[k].gcPc.list && j < |run[k].lists|
    requires p < |run[k].lists[j]|
    ensures !TwoNewerBelow(run[k].lists[j], p, run[k].bound)
  {
    RunThorough(run, k);
    assert TrimmedAt(run[k], j);
  }

  /** A collection that ends has gone through every list. */
  lemma PassIsThorough(run: seq<State>, k: nat, j: nat, p: nat)
    requires IsRun(run) && 0 < k < |run| && run[k - 1].gcPc.GcLoad? && run[k].gcPc.GcLockCas?
    requires j < |run[k].lists| && p < |run[k].lists[j]|
    ensures !TwoNewerBelow(run[k].lists[j], p, run[k].bound)
  {
    var a := ActionAt(run, k);
    if a.Update? {
      UpdaterEffect(run[k - 1], a.t, a.i);
    }
    hide UpdaterStep, Inv;
    NothingLeftBehind(run, k - 1, j, p);
  }
}
