/**
 Buffer-pool watches: a purge thread registers interest in a page that is not in the pool.  The page hash
 then holds a sentinel from a fixed array of slots whose fix count is the number of watches; when the page
 is read in, a real block replaces the sentinel and takes over the count.  A section under the hash locks
 is one step.  Setting a watch releases its hash lock between the first lookup and the second one.
 */
module PageWatch {
  import opened Optional

  /** BUF_BLOCK_ZIP_PAGE when used, BUF_BLOCK_POOL_WATCH otherwise. */
  datatype Slot = Slot(used: bool, page: nat, fix: nat)

  /** `users` is a history variable: how many fixes come from threads other than the watchers. */
  datatype Block = Block(page: nat, fix: nat, users: nat)

  datatype Ref = Sentinel(i: nat) | Real(b: nat)

  datatype Purge =
    | Free
    | Recheck(page: nat)    // the first lookup found nothing; the hash lock was released
    | Watching(page: nat)   // watch_set has returned NULL

  /** The page hash as the set of its entries; nothing but the code keeps a page from being there twice.
      Blocks that have left the hash stay in `blocks`. */
  datatype State = State(slots: seq<Slot>, blocks: seq<Block>, hash: set<Ref>, purges: seq<Purge>, fault: bool)

  datatype Action =
    | SetFirst(t: nat, page: nat)
    | SetAgain(t: nat)
    | Unset(t: nat)
    | LoadPage(page: nat)
    | Fix(b: nat) | Unfix(b: nat) | Evict(b: nat)

  function Initial(slots: nat, purges: nat): State {
    State(seq(slots, _ => Slot(false, 0, 0)), [], {}, seq(purges, _ => Free), false)
  }

  predicate Known(s: State, r: Ref) {
    match r
    case Sentinel(i) => i < |s.slots|
    case Real(b) => b < |s.blocks|
  }

  predicate Holds(s: State, r: Ref, page: nat) {
    Known(s, r) && page == match r case Sentinel(i) => s.slots[i].page case Real(b) => s.blocks[b].page
  }

  /** buf_page_hash_get_low */
  ghost function Lookup(s: State, page: nat): (o: Option<Ref>)
    ensures o.Some? ==> o.value in s.hash && Holds(s, o.value, page)
    ensures o.None? ==> forall r :: r in s.hash ==> !Holds(s, r, page)
  {
    if r :| r in s.hash && Holds(s, r, page) then Some(r) else None
  }

  /** The first slot that no page uses, or the number of slots. */
  function FirstUnused(slots: seq<Slot>): (i: nat)
    ensures i <= |slots|
    ensures i < |slots| ==> !slots[i].used
    ensures forall k :: 0 <= k < i ==> slots[k].used
  {
    if slots == [] || !slots[0].used then 0 else 1 + FirstUnused(slots[1..])
  }

  predicate Enabled(s: State, a: Action) {
    match a
    case SetFirst(t, page) => t < |s.purges| && s.purges[t].Free?
    case SetAgain(t) => t < |s.purges| && s.purges[t].Recheck?
    case Unset(t) => t < |s.purges| && s.purges[t].Watching?
    case LoadPage(page) => true
    case Fix(b) => b < |s.blocks| && Real(b) in s.hash
    case Unfix(b) => b < |s.blocks| && s.blocks[b].users > 0
    case Evict(b) => b < |s.blocks| && Real(b) in s.hash && s.blocks[b].fix == 0
  }

  function PutPurge(s: State, t: nat, u: Purge): State
    requires t < |s.purges|
  {
    s.(purges := s.purges[t := u])
  }

  function PutSlot(s: State, i: nat, v: Slot): State
    requires i < |s.slots|
  {
    s.(slots := s.slots[i := v])
  }

  function PutBlock(s: State, b: nat, v: Block): State
    requires b < |s.blocks|
  {
    s.(blocks := s.blocks[b := v])
  }

  /** The part of watch_set after a lookup that found something. */
  function FoundStep(s: State, t: nat, page: nat, r: Ref): State
    requires t < |s.purges| && Known(s, r)
  {
    match r
    case Real(b) => PutPurge(s, t, Free)
    case Sentinel(i) => PutSlot(PutPurge(s, t, Watching(page)), i, s.slots[i].(fix := s.slots[i].fix + 1))
  }

  ghost function SetFirstStep(s: State, t: nat, page: nat): State
    requires t < |s.purges|
  {
    var o := Lookup(s, page);
    if o.Some? then FoundStep(s, t, page, o.value) else PutPurge(s, t, Recheck(page))
  }

  ghost function SetAgainStep(s: State, t: nat): State
    requires t < |s.purges| && s.purges[t].Recheck?
  {
    var page := s.purges[t].page;
    var o := Lookup(s, page);
    if o.Some? then FoundStep(s, t, page, o.value)
    else
      var i := FirstUnused(s.slots);
      if i == |s.slots| then s.(fault := true)
      else PutSlot(PutPurge(s, t, Watching(page)), i, Slot(true, page, 1)).(hash := s.hash + {Sentinel(i)})
  }

  /** buf_pool_watch_remove */
  function RemoveWatch(s: State, i: nat): State
    requires i < |s.slots|
  {
    PutSlot(s, i, s.slots[i].(used := false, fix := 0)).(hash := s.hash - {Sentinel(i)})
  }

  ghost function UnsetStep(s: State, t: nat): State
    requires t < |s.purges| && s.purges[t].Watching?
  {
    var o, s0 := Lookup(s, s.purges[t].page), PutPurge(s, t, Free);
    match o
    case None => s.(fault := true)
    case Some(Real(b)) =>
      if s.blocks[b].fix == 0 then s.(fault := true) else PutBlock(s0, b, s.blocks[b].(fix := s.blocks[b].fix - 1))
    case Some(Sentinel(i)) =>
      if s.slots[i].fix == 0 then s.(fault := true)
      else if s.slots[i].fix == 1 then RemoveWatch(s0, i)
      else PutSlot(s0, i, s.slots[i].(fix := s.slots[i].fix - 1))
  }

  /** A page is read in, unless it is there; a sentinel hands its fix count over. */
  ghost function LoadStep(s: State, page: nat): State {
    var b := |s.blocks|;
    match Lookup(s, page)
    case None => s.(blocks := s.blocks + [Block(page, 0, 0)], hash := s.hash + {Real(b)})
    case Some(Real(_)) => s
    case Some(Sentinel(i)) =>
      if s.slots[i].fix == 0 then s.(fault := true)
      else
        var s0 := RemoveWatch(s, i);
        s0.(blocks := s.blocks + [Block(page, s.slots[i].fix, 0)], hash := s0.hash + {Real(b)})
  }

  ghost function Step(s: State, a: Action): State
    requires Enabled(s, a)
  {
    match a
    case SetFirst(t, page) => SetFirstStep(s, t, page)
    case SetAgain(t) => SetAgainStep(s, t)
    case Unset(t) => UnsetStep(s, t)
    case LoadPage(page) => LoadStep(s, page)
    case Fix(b) => PutBlock(s, b, s.blocks[b].(fix := s.blocks[b].fix + 1, users := s.blocks[b].users + 1))
    case Unfix(b) =>
      if s.blocks[b].fix == 0 then s.(fault := true)
      else PutBlock(s, b, s.blocks[b].(fix := s.blocks[b].fix - 1, users := s.blocks[b].users - 1))
    case Evict(b) => s.(hash := s.hash - {Real(b)})
  }

  ghost predicate Next(s: State, s': State) {
    exists a :: Enabled(s, a) && s' == Step(s, a)
  }

  ghost predicate StepAt(run: seq<State>, k: nat) {
    0 < k < |run| ==> Next(run[k - 1], run[k])
  }

  /** InnoDB never starts more purge threads than there are slots. */
  ghost predicate IsRun(slots: nat, purges: nat, run: seq<State>) {
    && purges <= slots && run != [] && run[0] == Initial(slots, purges)
    && forall k: nat :: StepAt(run, k)
  }

  /** buf_pool_watch_occurred */
  ghost predicate Occurred(s: State, page: nat) {
    !(Lookup(s, page).Some? && Lookup(s, page).value.Sentinel?)
  }

  // ---------- the invariant ----------

  function Watchers(purges: seq<Purge>, page: nat): nat {
    if purges == [] then 0
    else Watchers(purges[1..], page) + (if purges[0] == Watching(page) then 1 else 0)
  }

  ghost predicate EntryAt(s: State, r: Ref) {
    r in s.hash ==> Known(s, r) && (r.Sentinel? ==> s.slots[r.i].used)
  }

  /** No page is in the hash twice. */
  ghost predicate SingleAt(s: State, p: Ref, q: Ref, page: nat) {
    p in s.hash && q in s.hash && Holds(s, p, page) && Holds(s, q, page) ==> p == q
  }

  ghost predicate SlotAt(s: State, i: nat) {
    i < |s.slots| ==>
      if s.slots[i].used then
        Sentinel(i) in s.hash && s.slots[i].fix == Watchers(s.purges, s.slots[i].page) > 0
      else Sentinel(i) !in s.hash
  }

  ghost predicate BlockAt(s: State, b: nat) {
    b < |s.blocks| ==>
      && s.blocks[b].fix == s.blocks[b].users + (if Real(b) in s.hash then Watchers(s.purges, s.blocks[b].page) else 0)
      && (Real(b) !in s.hash ==> s.blocks[b].users == 0)
  }

  /** Whatever is watched is in the hash. */
  ghost predicate WatchedAt(s: State, page: nat) {
    Watchers(s.purges, page) > 0 ==> exists r :: r in s.hash && Holds(s, r, page)
  }

  ghost predicate Inv(s: State) {
    && !s.fault && |s.purges| <= |s.slots|
    && (forall r :: EntryAt(s, r))
    && (forall p, q, page :: SingleAt(s, p, q, page))
    && (forall i: nat :: SlotAt(s, i))
    && (forall b: nat :: BlockAt(s, b))
    && (forall page: nat :: WatchedAt(s, page))
  }
}

module PageWatchProof {
  import opened Optional
  import opened PageWatch

  lemma {:induction false} WatchersOfPut(purges: seq<Purge>, t: nat, u: Purge, page: nat)
    requires t < |purges|
    ensures Watchers(purges[t := u], page) ==
      Watchers(purges, page) - (if purges[t] == Watching(page) then 1 else 0) + (if u == Watching(page) then 1 else 0)
  {
    if t > 0 {
      assert purges[t := u][1..] == purges[1..][t - 1 := u];
      WatchersOfPut(purges[1..], t - 1, u, page);
    } else {
      assert purges[t := u][1..] == purges[1..];
    }
  }

  lemma {:induction false} NobodyWatches(n: nat, page: nat)
    ensures Watchers(seq(n, _ => Free), page) == 0
  {
    if n > 0 {
      var purges := seq(n, _ => Free);
      assert purges[1..] == seq(n - 1, _ => Free);
      NobodyWatches(n - 1, page);
    }
  }

  lemma InitialInv(slots: nat, purges: nat)
    requires purges <= slots
    ensures Inv(Initial(slots, purges))
  {
    forall page: nat ensures WatchedAt(Initial(slots, purges), page) { NobodyWatches(purges, page); }
  }

  // ---------- a free slot is always found ----------

  function SlotPages(slots: seq<Slot>): set<nat> {
    set i | 0 <= i < |slots| :: slots[i].page
  }

  lemma {:induction false} DistinctPages(slots: seq<Slot>)
    requires forall i, j :: 0 <= i < j < |slots| ==> slots[i].page != slots[j].page
    ensures |SlotPages(slots)| == |slots|
  {
    if slots != [] {
      var n := |slots| - 1;
      DistinctPages(slots[..n]);
      assert SlotPages(slots) == SlotPages(slots[..n]) + {slots[n].page};
    }
  }

  /** Pages that are all watched are at most as many as the watching threads. */
  lemma {:induction false} WatchedPages(purges: seq<Purge>, pages: set<nat>)
    requires forall p :: p in pages ==> Watchers(purges, p) > 0
    ensures |pages| <= |purges|
    ensures (exists t :: 0 <= t < |purges| && !purges[t].Watching?) ==> |pages| < |purges|
  {
    if purges == [] {
      assert pages == {};
    } else {
      var rest := if purges[0].Watching? then pages - {purges[0].page} else pages;
      WatchedPages(purges[1..], rest);
      if t :| 0 <= t < |purges| && !purges[t].Watching? && t > 0 {
        assert !purges[1..][t - 1].Watching?;
      }
    }
  }

  /** ut_error is not reached: a purge thread that is setting a watch leaves room for it. */
  lemma SlotFound(s: State, t: nat)
    requires Inv(s) && t < |s.purges| && !s.purges[t].Watching?
    ensures FirstUnused(s.slots) < |s.slots|
  {
    if FirstUnused(s.slots) == |s.slots| {
      forall i, j | 0 <= i < j < |s.slots| ensures s.slots[i].page != s.slots[j].page {
        assert SlotAt(s, i) && SlotAt(s, j) && SingleAt(s, Sentinel(i), Sentinel(j), s.slots[i].page);
      }
      DistinctPages(s.slots);
      forall p | p in SlotPages(s.slots) ensures Watchers(s.purges, p) > 0 {
        var i :| 0 <= i < |s.slots| && s.slots[i].page == p;
        assert SlotAt(s, i);
      }
      WatchedPages(s.purges, SlotPages(s.slots));
    }
  }

  // ---------- steps ----------

  lemma OnlyEntry(s: State, page: nat, r: Ref)
    requires Inv(s) && r in s.hash && Holds(s, r, page)
    ensures Lookup(s, page) == Some(r)
  {
    assert SingleAt(s, r, Lookup(s, page).value, page);
  }

  /** A block of the pool holds the page. */
  ghost predicate Loaded(s: State, page: nat) {
    exists b :: Real(b) in s.hash && Holds(s, Real(b), page)
  }

  lemma LoadedIsFound(s: State, page: nat)
    requires Inv(s)
    ensures Loaded(s, page) <==> Lookup(s, page).Some? && Lookup(s, page).value.Real?
  {
    if b :| Real(b) in s.hash && Holds(s, Real(b), page) {
      OnlyEntry(s, page, Real(b));
    }
  }

  /** A purge thread changes its state without a change to what it watches. */
  lemma QuietPurge(s: State, t: nat, u: Purge)
    requires Inv(s) && t < |s.purges| && !s.purges[t].Watching? && !u.Watching?
    ensures Inv(PutPurge(s, t, u))
  {
    var s' := PutPurge(s, t, u);
    forall page: nat ensures Watchers(s'.purges, page) == Watchers(s.purges, page) {
      WatchersOfPut(s.purges, t, u, page);
    }
    forall r ensures EntryAt(s', r) { assert EntryAt(s, r); }
    forall p, q, page ensures SingleAt(s', p, q, page) { assert SingleAt(s, p, q, page); }
    forall i: nat ensures SlotAt(s', i) { assert SlotAt(s, i); }
    forall b: nat ensures BlockAt(s', b) { assert BlockAt(s, b); }
    forall page: nat ensures WatchedAt(s', page) {
      assert WatchedAt(s, page);
      if r :| r in s.hash && Holds(s, r, page) { assert Holds(s', r, page); }
    }
  }

  lemma JoinWatch(s: State, t: nat, page: nat, i: nat)
    requires Inv(s) && t < |s.purges| && !s.purges[t].Watching? && Sentinel(i) in s.hash && Holds(s, Sentinel(i), page)
    ensures Inv(FoundStep(s, t, page, Sentinel(i)))
  {
    var s' := FoundStep(s, t, page, Sentinel(i));
    assert EntryAt(s, Sentinel(i));
    forall p: nat ensures Watchers(s'.purges, p) == Watchers(s.purges, p) + (if p == page then 1 else 0) {
      WatchersOfPut(s.purges, t, Watching(page), p);
    }
    forall r ensures EntryAt(s', r) { assert EntryAt(s, r); }
    forall p, q, x ensures SingleAt(s', p, q, x) { assert SingleAt(s, p, q, x); }
    forall j: nat ensures SlotAt(s', j) { assert SlotAt(s, j) && SingleAt(s, Sentinel(i), Sentinel(j), page); }
    forall b: nat ensures BlockAt(s', b) { assert BlockAt(s, b) && SingleAt(s, Sentinel(i), Real(b), page); }
    forall p: nat ensures WatchedAt(s', p) {
      assert WatchedAt(s, p);
      if p == page {
        assert Holds(s', Sentinel(i), p);
      } else if r :| r in s.hash && Holds(s, r, p) {
        assert Holds(s', r, p);
      }
    }
  }

  lemma FoundKeeps(s: State, t: nat, page: nat, r: Ref)
    requires Inv(s) && t < |s.purges| && !s.purges[t].Watching? && r in s.hash && Holds(s, r, page)
    ensures Inv(FoundStep(s, t, page, r))
  {
    match r
    case Real(b) => QuietPurge(s, t, Free);
    case Sentinel(i) => JoinWatch(s, t, page, i);
  }

  lemma NewWatch(s: State, t: nat, page: nat, i: nat)
    requires Inv(s) && t < |s.purges| && s.purges[t] == Recheck(page) && Lookup(s, page).None?
    requires i == FirstUnused(s.slots) < |s.slots|
    ensures Inv(SetAgainStep(s, t))
  {
    var s' := SetAgainStep(s, t);
    assert WatchedAt(s, page) && SlotAt(s, i);
    forall p: nat ensures Watchers(s'.purges, p) == Watchers(s.purges, p) + (if p == page then 1 else 0) {
      WatchersOfPut(s.purges, t, Watching(page), p);
    }
    forall r ensures EntryAt(s', r) { assert EntryAt(s, r); }
    forall p, q, x ensures SingleAt(s', p, q, x) {
      assert SingleAt(s, p, q, x);
      assert p != Sentinel(i) && Holds(s', p, x) ==> Holds(s, p, x);
      assert q != Sentinel(i) && Holds(s', q, x) ==> Holds(s, q, x);
    }
    forall j: nat ensures SlotAt(s', j) {
      assert SlotAt(s, j);
      if j < |s.slots| && s.slots[j].used { assert Holds(s, Sentinel(j), s.slots[j].page); }
    }
    forall b: nat ensures BlockAt(s', b) {
      assert BlockAt(s, b);
      if b < |s.blocks| { assert Holds(s, Real(b), s.blocks[b].page); }
    }
    forall p: nat ensures WatchedAt(s', p) {
      assert WatchedAt(s, p);
      if p == page {
        assert Holds(s', Sentinel(i), p);
      } else if r :| r in s.hash && Holds(s, r, p) {
        assert Holds(s', r, p);
      }
    }
  }

  /** The watches on a page after one of them has been given up. */
  lemma LeaveKeepsOthers(s: State, t: nat, page: nat, p: nat)
    requires t < |s.purges| && s.purges[t] == Watching(page)
    ensures Watchers(s.purges[t := Free], p) == Watchers(s.purges, p) - (if p == page then 1 else 0)
  {
    WatchersOfPut(s.purges, t, Free, p);
  }

  lemma LeaveBlock(s: State, t: nat, page: nat, b: nat)
    requires Inv(s) && t < |s.purges| && s.purges[t] == Watching(page) && Lookup(s, page) == Some(Real(b))
    ensures Inv(UnsetStep(s, t))
  {
    var s' := UnsetStep(s, t);
    assert BlockAt(s, b);
    forall p: nat ensures Watchers(s'.purges, p) == Watchers(s.purges, p) - (if p == page then 1 else 0) {
      LeaveKeepsOthers(s, t, page, p);
    }
    forall r ensures EntryAt(s', r) { assert EntryAt(s, r); }
    forall p, q, x ensures SingleAt(s', p, q, x) { assert SingleAt(s, p, q, x); }
    forall i: nat ensures SlotAt(s', i) { assert SlotAt(s, i) && SingleAt(s, Real(b), Sentinel(i), page); }
    forall c: nat ensures BlockAt(s', c) { assert BlockAt(s, c) && SingleAt(s, Real(b), Real(c), page); }
    forall p: nat ensures WatchedAt(s', p) {
      assert WatchedAt(s, p);
      if r :| r in s.hash && Holds(s, r, p) { assert Holds(s', r, p); }
    }
  }

  lemma LeaveSentinel(s: State, t: nat, page: nat, i: nat)
    requires Inv(s) && t < |s.purges| && s.purges[t] == Watching(page) && Lookup(s, page) == Some(Sentinel(i))
    ensures Inv(UnsetStep(s, t))
  {
    var s' := UnsetStep(s, t);
    assert SlotAt(s, i) && EntryAt(s, Sentinel(i));
    forall p: nat ensures Watchers(s'.purges, p) == Watchers(s.purges, p) - (if p == page then 1 else 0) {
      LeaveKeepsOthers(s, t, page, p);
    }
    forall r ensures EntryAt(s', r) { assert EntryAt(s, r); }
    forall p, q, x ensures SingleAt(s', p, q, x) { assert SingleAt(s, p, q, x); }
    forall j: nat ensures SlotAt(s', j) { assert SlotAt(s, j) && SingleAt(s, Sentinel(i), Sentinel(j), page); }
    forall b: nat ensures BlockAt(s', b) { assert BlockAt(s, b) && SingleAt(s, Sentinel(i), Real(b), page); }
    forall p: nat ensures WatchedAt(s', p) {
      assert WatchedAt(s, p);
      if r :| r in s.hash && Holds(s, r, p) { assert Holds(s', r, p); }
    }
  }

  /** What unset gives back: one count of the block, or of the sentinel, which goes with its last count. */
  ghost predicate GivesBack(s: State, s': State, page: nat) {
    match Lookup(s, page)
    case None => false
    case Some(Real(b)) =>
      && s'.hash == s.hash && s'.slots == s.slots && s.blocks[b].fix > 0
      && s'.blocks == s.blocks[b := s.blocks[b].(fix := s.blocks[b].fix - 1)]
    case Some(Sentinel(i)) =>
      && s'.blocks == s.blocks && s.slots[i].fix > 0
      && var last := s.slots[i].fix == 1;
      && s'.hash == (if last then s.hash - {Sentinel(i)} else s.hash)
      && s'.slots == s.slots[i := Slot(s.slots[i].used && !last, page, s.slots[i].fix - 1)]
  }

  /** The page of a watcher is in the hash, so unset finds it and gives back one count. */
  lemma UnsetKeeps(s: State, t: nat)
    requires Inv(s) && t < |s.purges| && s.purges[t].Watching?
    ensures Inv(UnsetStep(s, t)) && GivesBack(s, UnsetStep(s, t), s.purges[t].page)
    ensures Watchers(UnsetStep(s, t).purges, s.purges[t].page) == Watchers(s.purges, s.purges[t].page) - 1
  {
    var page := s.purges[t].page;
    LeaveKeepsOthers(s, t, page, page);
    assert WatchedAt(s, page);
    match Lookup(s, page).value
    case Real(b) => LeaveBlock(s, t, page, b);
    case Sentinel(i) => LeaveSentinel(s, t, page, i);
  }

  /** A page that was not there gets a block without a fix. */
  lemma LoadUnwatched(s: State, page: nat)
    requires Inv(s) && Lookup(s, page).None?
    ensures Inv(LoadStep(s, page))
    ensures var s', b := LoadStep(s, page), |s.blocks|;
      && Lookup(s', page) == Some(Real(b)) && s'.blocks == s.blocks + [Block(page, 0, 0)]
      && s' == s.(blocks := s'.blocks, hash := s.hash + {Real(b)})
  {
    var s', b := LoadStep(s, page), |s.blocks|;
    assert EntryAt(s, Real(b)) && WatchedAt(s, page);
    forall r ensures EntryAt(s', r) { assert EntryAt(s, r); }
    forall p, q, x ensures SingleAt(s', p, q, x) {
      assert SingleAt(s, p, q, x) && EntryAt(s, p) && EntryAt(s, q);
      assert p != Real(b) && p in s.hash && Holds(s', p, x) ==> Holds(s, p, x);
      assert q != Real(b) && q in s.hash && Holds(s', q, x) ==> Holds(s, q, x);
    }
    forall i: nat ensures SlotAt(s', i) { assert SlotAt(s, i); }
    forall c: nat ensures BlockAt(s', c) { assert BlockAt(s, c); }
    forall p: nat ensures WatchedAt(s', p) {
      assert WatchedAt(s, p);
      if r :| r in s.hash && Holds(s, r, p) { assert Holds(s', r, p); }
    }
    OnlyEntry(s', page, Real(b));
  }

  /** The block that replaces a sentinel takes over its watches. */
  lemma LoadWatched(s: State, page: nat, i: nat)
    requires Inv(s) && Lookup(s, page) == Some(Sentinel(i))
    ensures Inv(LoadStep(s, page))
    ensures var s', b := LoadStep(s, page), |s.blocks|;
      && Lookup(s', page) == Some(Real(b)) && s'.blocks == s.blocks + [Block(page, s.slots[i].fix, 0)]
      && s'.blocks[b].fix == Watchers(s'.purges, page) == Watchers(s.purges, page) > 0
      && !s'.slots[i].used && s'.slots[i].fix == 0 && Sentinel(i) !in s'.hash
  {
    var s', b := LoadStep(s, page), |s.blocks|;
    assert EntryAt(s, Real(b)) && SlotAt(s, i) && EntryAt(s, Sentinel(i));
    forall r ensures EntryAt(s', r) { assert EntryAt(s, r); }
    forall p, q, x ensures SingleAt(s', p, q, x) {
      assert SingleAt(s, p, q, x) && EntryAt(s, p) && EntryAt(s, q);
      assert SingleAt(s, p, Sentinel(i), page) && SingleAt(s, q, Sentinel(i), page);
      assert p != Real(b) && p in s.hash && Holds(s', p, x) ==> Holds(s, p, x);
      assert q != Real(b) && q in s.hash && Holds(s', q, x) ==> Holds(s, q, x);
    }
    forall j: nat ensures SlotAt(s', j) { assert SlotAt(s, j); }
    forall c: nat ensures BlockAt(s', c) { assert BlockAt(s, c); }
    forall p: nat ensures WatchedAt(s', p) {
      assert WatchedAt(s, p);
      if p == page {
        assert Holds(s', Real(b), p);
      } else if r :| r in s.hash && Holds(s, r, p) {
        assert Holds(s', r, p);
      }
    }
    OnlyEntry(s', page, Real(b));
  }

  /** After a load the page is in the pool, and nobody's watches have changed. */
  lemma LoadKeeps(s: State, page: nat)
    requires Inv(s)
    ensures Inv(LoadStep(s, page)) && Loaded(LoadStep(s, page), page)
    ensures LoadStep(s, page).purges == s.purges && (Loaded(s, page) ==> LoadStep(s, page) == s)
  {
    LoadedIsFound(s, page);
    match Lookup(s, page) {
      case None => LoadUnwatched(s, page);
      case Some(Sentinel(i)) => LoadWatched(s, page, i);
      case Some(Real(b)) =>
    }
    LoadedIsFound(LoadStep(s, page), page);
  }

  /** A user's fix and unfix change the count of one block by one, and no watch. */
  lemma UserStep(s: State, a: Action)
    requires Inv(s) && Enabled(s, a) && (a.Fix? || a.Unfix?)
    ensures Inv(Step(s, a))
    ensures var x, d := s.blocks[a.b], if a.Fix? then 1 else -1;
      && x.fix + d >= 0 && x.users + d >= 0
      && Step(s, a) == s.(blocks := s.blocks[a.b := Block(x.page, x.fix + d, x.users + d)])
  {
    var s' := Step(s, a);
    assert BlockAt(s, a.b);
    forall r ensures EntryAt(s', r) { assert EntryAt(s, r); }
    forall p, q, x ensures SingleAt(s', p, q, x) { assert SingleAt(s, p, q, x); }
    forall i: nat ensures SlotAt(s', i) { assert SlotAt(s, i); }
    forall c: nat ensures BlockAt(s', c) { assert BlockAt(s, c); }
    forall p: nat ensures WatchedAt(s', p) {
      assert WatchedAt(s, p);
      if r :| r in s.hash && Holds(s, r, p) { assert Holds(s', r, p); }
    }
  }

  /** Only what nobody watches is evicted. */
  lemma EvictStep(s: State, b: nat)
    requires Inv(s) && Enabled(s, Evict(b))
    ensures Inv(Step(s, Evict(b))) && Watchers(s.purges, s.blocks[b].page) == 0
    ensures Lookup(Step(s, Evict(b)), s.blocks[b].page).None? && Step(s, Evict(b)) == s.(hash := s.hash - {Real(b)})
  {
    var s' := Step(s, Evict(b));
    assert BlockAt(s, b);
    forall r | r in s'.hash ensures !Holds(s', r, s.blocks[b].page) {
      assert SingleAt(s, r, Real(b), s.blocks[b].page);
    }
    forall r ensures EntryAt(s', r) { assert EntryAt(s, r); }
    forall p, q, x ensures SingleAt(s', p, q, x) { assert SingleAt(s, p, q, x); }
    forall i: nat ensures SlotAt(s', i) { assert SlotAt(s, i); }
    forall c: nat ensures BlockAt(s', c) { assert BlockAt(s, c); }
    forall p: nat ensures WatchedAt(s', p) {
      assert WatchedAt(s, p);
      if r :| r in s.hash && Holds(s, r, p) { assert Holds(s', r, p); }
    }
  }

  lemma SetKeeps(s: State, a: Action)
    requires Inv(s) && Enabled(s, a) && (a.SetFirst? || a.SetAgain?)
    ensures Inv(Step(s, a))
  {
    var page := if a.SetFirst? then a.page else s.purges[a.t].page;
    var o := Lookup(s, page);
    if o.Some? {
      FoundKeeps(s, a.t, page, o.value);
    } else if a.SetFirst? {
      QuietPurge(s, a.t, Recheck(page));
    } else {
      SlotFound(s, a.t);
      NewWatch(s, a.t, page, FirstUnused(s.slots));
    }
  }

  /** One more watch on the page in slot i: an existing one is joined, or an unused slot is taken for it. */
  ghost predicate Registers(s: State, s': State, t: nat, page: nat, i: nat) {
    && t < |s.purges| && i < |s.slots|
    && s'.purges == s.purges[t := Watching(page)]
    && s'.blocks == s.blocks && s'.fault == s.fault
    && s'.hash == s.hash + {Sentinel(i)}
    && if Sentinel(i) in s.hash then
         s.slots[i].page == page && s'.slots == s.slots[i := Slot(true, page, s.slots[i].fix + 1)]
       else
         !s.slots[i].used && s'.slots == s.slots[i := Slot(true, page, 1)]
  }

  /** Setting a watch.  If a block holds the page, the thread is told so and nothing changes.  If a sentinel does, its
      count grows by one.  If nothing does, the first lookup only makes the thread look again, and the second one
      takes an unused slot with count one.  A call that returns has left the thread watching, with one more watch on
      the page, and the page has not occurred. */
  lemma SetEffect(s: State, a: Action, page: nat) returns (i: nat)
    requires Inv(s) && Enabled(s, a) && (a.SetFirst? || a.SetAgain?)
    requires page == if a.SetFirst? then a.page else s.purges[a.t].page
    ensures var s' := Step(s, a);
      if Loaded(s, page) then
        s' == s.(purges := s.purges[a.t := Free])
      else if a.SetFirst? && (forall r :: r in s.hash ==> !Holds(s, r, page)) then
        s' == s.(purges := s.purges[a.t := Recheck(page)])
      else
        && Registers(s, s', a.t, page, i)
        && Watchers(s'.purges, page) == Watchers(s.purges, page) + 1
        && !Occurred(s', page)
  {
    LoadedIsFound(s, page);
    SetKeeps(s, a);
    SlotFound(s, a.t);
    var o := Lookup(s, page);
    i := if o.Some? && o.value.Sentinel? then o.value.i else FirstUnused(s.slots);
    assert EntryAt(s, Sentinel(i)) && SlotAt(s, i);
    WatchersOfPut(s.purges, a.t, Watching(page), page);
    var s' := Step(s, a);
    if s'.purges[a.t].Watching? {
      OnlyEntry(s', page, Sentinel(i));
    }
    hide Inv, Watchers;
  }

  lemma StepInv(s: State, a: Action)
    requires Inv(s) && Enabled(s, a)
    ensures Inv(Step(s, a))
  {
    match a
    case SetFirst(t, page) => SetKeeps(s, a);
    case SetAgain(t) => SetKeeps(s, a);
    case Unset(t) => UnsetKeeps(s, t);
    case LoadPage(page) => LoadKeeps(s, page);
    case Fix(b) => UserStep(s, a);
    case Unfix(b) => UserStep(s, a);
    case Evict(b) => EvictStep(s, b);
  }

  lemma {:induction false} RunInv(slots: nat, purges: nat, run: seq<State>, k: nat)
    requires IsRun(slots, purges, run) && k < |run|
    ensures Inv(run[k])
  {
    if k == 0 {
      InitialInv(slots, purges);
    } else {
      RunInv(slots, purges, run, k - 1);
      assert StepAt(run, k);
      var a :| Enabled(run[k - 1], a) && run[k] == Step(run[k - 1], a);
      StepInv(run[k - 1], a);
    }
  }

  // ---------- what the watches promise ----------

  /** No slot is missing, no unset fails to find its page and no count drops below zero. */
  lemma RunsNeverFault(slots: nat, purges: nat, run: seq<State>, k: nat)
    requires IsRun(slots, purges, run) && k < |run|
    ensures !run[k].fault
  {
    RunInv(slots, purges, run, k);
  }

  lemma AtMostOneEntry(slots: nat, purges: nat, run: seq<State>, k: nat, page: nat, p: Ref, q: Ref)
    requires IsRun(slots, purges, run) && k < |run|
    requires p in run[k].hash && q in run[k].hash && Holds(run[k], p, page) && Holds(run[k], q, page)
    ensures p == q
  {
    RunInv(slots, purges, run, k);
    assert SingleAt(run[k], p, q, page);
  }

  /** The watches on a page are the fix count of its sentinel, or that of the block less its other users; a page
      that is not in the hash has none. */
  lemma WatchesConserved(slots: nat, purges: nat, run: seq<State>, k: nat, page: nat)
    requires IsRun(slots, purges, run) && k < |run|
    ensures Watchers(run[k].purges, page) ==
      match Lookup(run[k], page)
      case None => 0
      case Some(Sentinel(i)) => run[k].slots[i].fix
      case Some(Real(b)) => run[k].blocks[b].fix - run[k].blocks[b].users
  {
    var s := run[k];
    RunInv(slots, purges, run, k);
    match Lookup(s, page)
    case None => assert WatchedAt(s, page);
    case Some(Sentinel(i)) => assert SlotAt(s, i) && EntryAt(s, Sentinel(i));
    case Some(Real(b)) => assert BlockAt(s, b);
  }

  /** Exactly a load makes a watched page occur, and while the same thread watches nothing takes that back. */
  lemma OccurredStep(s: State, a: Action, t: nat, page: nat)
    requires Inv(s) && Enabled(s, a) && t < |s.purges| && s.purges[t] == Watching(page)
    requires a != Unset(t)
    ensures Step(s, a).purges[t] == Watching(page)
    ensures Occurred(Step(s, a), page) <==> Occurred(s, page) || a == LoadPage(page)
  {
    var s' := Step(s, a);
    StepInv(s, a);
    StillWatched(s, t, page);
    var r := Lookup(s, page).value;
    if a == LoadPage(page) && r.Sentinel? {
      OnlyEntry(s', page, Real(|s.blocks|));
    } else {
      EntryStays(s, a, t, page, r);
      OnlyEntry(s', page, r);
    }
  }

  lemma StillWatched(s: State, t: nat, page: nat)
    requires Inv(s) && t < |s.purges| && s.purges[t] == Watching(page)
    ensures Watchers(s.purges, page) > 0 && Lookup(s, page).Some?
  {
    WatchersOfPut(s.purges, t, Free, page);
    assert WatchedAt(s, page);
  }

  /** The entry of a watched page stays in the hash unless the page is loaded over a sentinel. */
  lemma EntryStays(s: State, a: Action, t: nat, page: nat, r: Ref)
    requires Inv(s) && Enabled(s, a) && t < |s.purges| && s.purges[t] == Watching(page) && a != Unset(t)
    requires Lookup(s, page) == Some(r) && !(a == LoadPage(page) && r.Sentinel?)
    ensures r in Step(s, a).hash && Holds(Step(s, a), r, page)
  {
    assert EntryAt(s, r);
    match a
    case Unset(u) => {
      StillWatched(s, t, page);
      UnsetLeavesOthers(s, u, t, page, r);
    }
    case LoadPage(p) => {
      if Lookup(s, p).Some? { assert SingleAt(s, Lookup(s, p).value, r, page); }
    }
    case Evict(b) => {
      assert BlockAt(s, b);
      StillWatched(s, t, page);
    }
    case SetAgain(u) => assert SlotAt(s, FirstUnused(s.slots));
    case SetFirst(u, p) =>
    case Fix(b) =>
    case Unfix(b) =>
  }

  lemma UnsetLeavesOthers(s: State, u: nat, t: nat, page: nat, r: Ref)
    requires Inv(s) && Enabled(s, Unset(u)) && t < |s.purges| && s.purges[t] == Watching(page) && u != t
    requires Lookup(s, page) == Some(r)
    ensures r in Step(s, Unset(u)).hash && Holds(Step(s, Unset(u)), r, page)
  {
    assert EntryAt(s, r);
    if r.Sentinel? { assert SlotAt(s, r.i); }
    WatchersOfPut(s.purges, u, Free, page);
    WatchersOfPut(s.purges[u := Free], t, Free, page);
    StillWatched(s, u, s.purges[u].page);
    if r != Lookup(s, s.purges[u].page).value { assert EntryAt(s, Lookup(s, s.purges[u].page).value); }
  }

  /** Once the page a thread watches has been read in, `watch_occurred` stays true until that thread unsets. */
  lemma {:induction false} OccurredStays(slots: nat, purges: nat, run: seq<State>, j: nat, k: nat, t: nat, page: nat)
    requires IsRun(slots, purges, run) && j <= k < |run|
    requires t < purges && forall i :: j <= i <= k ==> |run[i].purges| > t && run[i].purges[t] == Watching(page)
    requires Occurred(run[j], page)
    ensures Occurred(run[k], page)
    decreases k
  {
    if j < k {
      OccurredStays(slots, purges, run, j, k - 1, t, page);
      RunInv(slots, purges, run, k - 1);
      assert StepAt(run, k);
      var a :| Enabled(run[k - 1], a) && run[k] == Step(run[k - 1], a);
      UnsetEnds(run[k - 1], a, t);
      OccurredStep(run[k - 1], a, t, page);
    }
  }

  lemma UnsetEnds(s: State, a: Action, t: nat)
    requires Inv(s) && Enabled(s, a) && t < |s.purges| && Step(s, a).purges[t].Watching?
    ensures a != Unset(t)
  {
    StepInv(s, a);
  }
}
