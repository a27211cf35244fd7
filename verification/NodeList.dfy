/**
 The singly linked list of Project2 and the loops that run on it: pushing, erasing, copying a
 read-view and trimming a version list, on real nodes with `next` fields updated in place.
 Memory that the source deletes is memory that leaves `spine`.
 */
module NodeList {
  import opened Mvcc

  class Node<T> {
    var next: Node?<T>
    const data: T

    constructor (next: Node?<T>, data: T)
      ensures this.next == next && this.data == data
    {
      this.next := next;
      this.data := data;
    }
  }

  class List<T> {
    var head: Node?<T>
    ghost var spine: seq<Node<T>>

    ghost predicate Valid()
      reads this, spine
    {
      && head == At(0)
      && (forall k: nat :: NextAt(k))
      && (forall j, k :: 0 <= j < k < |spine| ==> spine[j] != spine[k])
    }

    ghost predicate NextAt(k: nat)
      reads this, spine
    {
      k < |spine| ==> spine[k].next == At(k + 1)
    }

    ghost function At(k: nat): Node?<T>
      reads this
    {
      if k < |spine| then spine[k] else null
    }

    ghost function Contents(): (r: seq<T>)
      reads this
      ensures |r| == |spine|
      ensures forall k :: 0 <= k < |r| ==> r[k] == spine[k].data
    {
      seq(|spine|, k requires 0 <= k < |spine| reads this => spine[k].data)
    }

    constructor ()
      ensures Valid() && Contents() == [] && spine == []
    {
      head := null;
      spine := [];
    }

    method PushFront(data: T) returns (node: Node<T>)
      requires Valid()
      modifies this
      ensures Valid() && fresh(node)
      ensures spine == [node] + old(spine)
      ensures Contents() == [data] + old(Contents())
    {
      node := new Node(head, data);
      head := node;
      spine := [node] + spine;
      forall k: nat ensures NextAt(k) { if k > 0 { assert old(NextAt(k - 1)); } }
    }

    /** Erase `node`, whose predecessor is known; answers the new successor of the predecessor. */
    method EraseAfter(prev: Node<T>, node: Node<T>, ghost p: nat) returns (after: Node?<T>)
      requires Valid() && 0 < p < |spine| && spine[p - 1] == prev && spine[p] == node
      modifies this`spine, prev
      ensures Valid() && head == old(head)
      ensures spine == Without(old(spine), p)
      ensures Contents() == Without(old(Contents()), p)
      ensures after == At(p)
    {
      ghost var was := spine;
      assert NextAt(p);
      prev.next := node.next;
      spine := spine[..p] + spine[p + 1..];
      after := prev.next;
      forall k: nat ensures NextAt(k) { assert old(NextAt(k)) && old(NextAt(k + 1)); }
    }

    method FindPredecessor(node: Node<T>) returns (prev: Node?<T>, ghost p: nat)
      requires Valid() && node in spine
      ensures p < |spine| && spine[p] == node
      ensures prev == if p == 0 then null else spine[p - 1]
    {
      prev := null;
      var it := head;
      p := 0;
      while it != null && it != node
        invariant p <= |spine| && it == At(p)
        invariant prev == if p == 0 then null else spine[p - 1]
        invariant node !in spine[..p]
        decreases |spine| - p
      {
        assert NextAt(p);
        prev := it;
        it := it.next;
        p := p + 1;
      }
    }

    /** Erase `node` after searching for its predecessor.  When the node is the head the answer is null. */
    method Erase(node: Node<T>) returns (after: Node?<T>, ghost p: nat)
      requires Valid() && node in spine
      modifies this, spine
      ensures Valid()
      ensures p < |old(spine)| && old(spine)[p] == node
      ensures spine == Without(old(spine), p)
      ensures Contents() == Without(old(Contents()), p)
      ensures after == if p == 0 then null else At(p)
    {
      var prev;
      prev, p := FindPredecessor(node);
      if prev == null {
        assert NextAt(0);
        head := node.next;
        spine := spine[1..];
        after := null;
        forall k: nat ensures NextAt(k) { assert old(NextAt(k + 1)); }
        assert Contents() == Without(old(Contents()), p);
      } else {
        after := EraseAfter(prev, node, p);
      }
    }
  }

  /** The copy loop of the read-view: pushing each entry in front reverses the list. */
  method CopyReadView(active: List<ActiveThread>) returns (view: List<ActiveThread>)
    requires active.Valid()
    ensures view.Valid() && fresh(view) && fresh(view.spine)
    ensures view.Contents() == Reversed(active.Contents())
  {
    view := new List();
    var node := active.head;
    ghost var p := 0;
    while node != null
      invariant active.Valid() && view.Valid() && fresh(view) && fresh(view.spine)
      invariant p <= |active.spine| && node == active.At(p)
      invariant view.Contents() == Reversed(active.Contents()[..p])
      decreases |active.spine| - p
    {
      ReversedSnoc(active.Contents(), p);
      var n := view.PushFront(node.data);
      assert active.NextAt(p);
      node := node.next;
      p := p + 1;
    }
    assert active.Contents()[..p] == active.Contents();
  }

  lemma {:induction false} ReversedSnoc(s: seq<ActiveThread>, p: nat)
    requires p < |s|
    ensures Reversed(s[..p + 1]) == [s[p]] + Reversed(s[..p])
  {
    if p > 0 {
      ReversedSnoc(s[1..], p - 1);
      assert s[..p + 1][1..] == s[1..][..p] && s[..p][1..] == s[1..][..p - 1];
    }
  }

  /** The collector's search for its starting bound: the version of the last active entry. */
  method LastActiveVersion(active: List<ActiveThread>) returns (version: int)
    requires active.Valid()
    ensures active.spine == [] ==> version == 0x7fff_ffff
    ensures active.spine != [] ==> version == active.spine[|active.spine| - 1].data.version
    ensures version == LastActive(active.Contents())
  {
    version := INT_MAX;
    var node := active.head;
    ghost var p := 0;
    while node != null
      invariant p <= |active.spine| && node == active.At(p)
      invariant version == INT_MAX && (node == null ==> active.spine == [])
      decreases |active.spine| - p
    {
      assert active.NextAt(p);
      if node.next == null {
        return node.data.version;
      }
      node := node.next;
      p := p + 1;
    }
  }

  // ---------- trimming one version list ----------

  /** What the collector leaves of a list: everything down to the first version below the bound, and one more. */
  function Kept(list: seq<Data>, bound: int): seq<Data> {
    if list == [] then []
    else if list[0].version < bound then (if |list| > 1 then list[..2] else list)
    else [list[0]] + Kept(list[1..], bound)
  }

  /** The two versions before position k are below the bound. */
  predicate TwoNewerBelow(list: seq<Data>, k: nat, bound: int) {
    2 <= k <= |list| && list[k - 1].version < bound && list[k - 2].version < bound
  }

  /** On a descending list exactly the versions with two newer ones below the bound are dropped. */
  lemma {:induction false} KeptIsExact(list: seq<Data>, bound: int)
    requires forall j, k :: 0 <= j < k < |list| ==> list[j].version > list[k].version
    ensures Kept(list, bound) <= list
    ensures forall k: nat :: k < |list| ==> (k < |Kept(list, bound)| <==> !TwoNewerBelow(list, k, bound))
  {
    if list != [] && list[0].version >= bound {
      KeptIsExact(list[1..], bound);
      forall k: nat | k < |list| ensures k < |Kept(list, bound)| <==> !TwoNewerBelow(list, k, bound) {
        if k > 0 {
          assert k - 1 < |Kept(list[1..], bound)| <==> !TwoNewerBelow(list[1..], k - 1, bound);
        }
      }
    }
  }

  lemma {:induction false} KeptAt(list: seq<Data>, p: nat, bound: int)
    requires p <= |list| && forall k :: 0 <= k < p ==> list[k].version >= bound
    ensures Kept(list, bound) == list[..p] + Kept(list[p..], bound)
  {
    if p > 0 {
      KeptAt(list[1..], p - 1, bound);
      assert list[1..][p - 1..] == list[p..] && list[..p] == [list[0]] + list[1..][..p - 1];
    } else {
      assert list[0..] == list;
    }
  }

  /** Of a list whose first version below the bound stands at p, that one and the next are the last kept. */
  lemma KeptBelow(list: seq<Data>, p: nat, bound: int)
    requires p < |list| && list[p].version < bound && forall k :: 0 <= k < p ==> list[k].version >= bound
    ensures Kept(list, bound) == if p + 1 < |list| then list[..p + 2] else list
  {
    KeptAt(list, p, bound);
    assert Kept(list[p..], bound) == if p + 1 < |list| then list[p..][..2] else list[p..];
    assert p + 1 < |list| ==> list[..p] + list[p..][..2] == list[..p + 2];
  }

  lemma KeptAll(list: seq<Data>, bound: int)
    requires forall k :: 0 <= k < |list| ==> list[k].version >= bound
    ensures Kept(list, bound) == list
  {
    KeptAt(list, |list|, bound);
  }

  method TrimVersions(list: List<Data>, bound: int)
    requires list.Valid()
    modifies list`spine, list.spine
    ensures list.Valid() && list.head == old(list.head)
    ensures list.Contents() == Kept(old(list.Contents()), bound)
  {
    hide Kept;
    var node := list.head;
    ghost var p := 0;
    while node != null
      invariant list.Valid() && list.head == old(list.head)
      invariant list.spine == old(list.spine) && list.Contents() == old(list.Contents())
      invariant p <= |list.spine| && node == list.At(p)
      invariant forall k :: 0 <= k < p ==> list.Contents()[k].version >= bound
      decreases |list.spine| - p
    {
      assert list.NextAt(p);
      if node.data.version < bound {
        KeptBelow(list.Contents(), p, bound);
        var prev := node.next;
        if prev != null {
          DropAllAfter(list, prev, p + 1);
        }
        return;
      }
      node := node.next;
      p := p + 1;
    }
    KeptAll(list.Contents(), bound);
  }

  method DropAllAfter(list: List<Data>, prev: Node<Data>, ghost p: nat)
    requires list.Valid() && p < |list.spine| && list.spine[p] == prev
    modifies list`spine, prev
    ensures list.Valid() && list.head == old(list.head)
    ensures list.Contents() == old(list.Contents())[..p + 1]
  {
    assert list.NextAt(p);
    var node := prev.next;
    while node != null
      invariant list.Valid() && list.head == old(list.head)
      invariant p < |list.spine| && list.spine[p] == prev && node == list.At(p + 1)
      invariant p < |old(list.spine)| && list.Contents()[..p + 1] == old(list.Contents())[..p + 1]
      decreases |list.spine|
    {
      node := list.EraseAfter(prev, node, p + 1);
    }
    assert list.Contents() == list.Contents()[..p + 1];
  }
}
