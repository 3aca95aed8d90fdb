/**
 * The expiry queue: an indexed binary heap ordered by deadline, then by admission
 * sequence. Every entry knows its own position, so any entry can be removed.
 */
module ExpiryQueue {
  import opened Prelude
  import opened Scheduling

  /** Earlier deadlines come first, and equal ones in the order of admission. */
  predicate Less(a: Request, b: Request)
    ensures Less(a, b) <==> a.deadline < b.deadline || (a.deadline == b.deadline && a.sequence < b.sequence)
  {
    if a.deadline == b.deadline then a.sequence < b.sequence else a.deadline < b.deadline
  }

  function Parent(i: nat): (r: nat)
    requires i > 0
  {
    (i - 1) / 2
  }

  /** Position `k` is not before its parent. */
  ghost predicate InPlace(q: seq<Request>, k: nat)
    requires 0 < k < |q|
  {
    !Less(q[k], q[Parent(k)])
  }

  ghost predicate Ordered(q: seq<Request>, n: nat)
    requires n <= |q|
  {
    forall k :: 0 < k < n ==> InPlace(q, k)
  }

  /** Children of `hole` are not before the hole's own parent. */
  ghost predicate Bridged(q: seq<Request>, hole: nat, n: nat)
    requires n <= |q|
  {
    hole == 0 || forall k :: 0 < k < n && Parent(k) == hole && hole < |q| ==> !Less(q[k], q[Parent(hole)])
  }

  /** Ordered except between `hole` and its parent. */
  ghost predicate OrderedAbove(q: seq<Request>, hole: nat, n: nat)
    requires n <= |q|
  {
    (forall k :: 0 < k < n && k != hole ==> InPlace(q, k)) && Bridged(q, hole, n)
  }

  /** Ordered except between `hole` and its neighbours; `settled` when its parent is in order. */
  ghost predicate OrderedBelow(q: seq<Request>, hole: nat, n: nat, settled: bool)
    requires n <= |q|
  {
    && (forall k :: 0 < k < n && Parent(k) != hole && (k != hole || settled) ==> InPlace(q, k))
    && Bridged(q, hole, n)
  }

  function Swapped(q: seq<Request>, i: nat, j: nat): (r: seq<Request>)
    requires i < |q| && j < |q|
  {
    q[i := q[j]][j := q[i]]
  }

  ghost predicate SameUpTo(q: seq<Request>, p: seq<Request>, n: nat)
    requires n <= |q|
  {
    |p| == |q| && multiset(p) == multiset(q) && p[n..] == q[n..]
  }

  /** Exchanging two positions below `n` permutes the list and keeps it from `n` on. */
  lemma SwapSame(q: seq<Request>, i: nat, j: nat, n: nat)
    requires i < n <= |q| && j < n
    ensures SameUpTo(q, Swapped(q, i, j), n)
  {
  }

  /** The head of an ordered heap is first of all. */
  lemma {:induction false} HeadIsFirst(q: seq<Request>, k: nat)
    requires Ordered(q, |q|) && k < |q|
    ensures !Less(q[k], q[0])
  {
    if k > 0 {
      HeadIsFirst(q, Parent(k));
      assert InPlace(q, k);
    }
  }

  lemma SiftUpStep(q: seq<Request>, j: nat, n: nat)
    requires 0 < j < n <= |q| && OrderedAbove(q, j, n) && Less(q[j], q[Parent(j)])
    ensures OrderedAbove(Swapped(q, Parent(j), j), Parent(j), n)
  {
    var i := Parent(j);
    var p := Swapped(q, i, j);
    forall k | 0 < k < n && k != i ensures InPlace(p, k) {
      if k != j {
        assert InPlace(q, k);
      }
    }
    if i > 0 {
      assert InPlace(q, i);
      forall k | 0 < k < n && Parent(k) == i ensures !Less(p[k], p[Parent(i)]) {
        if k != j {
          assert InPlace(q, k);
        }
      }
    }
  }

  lemma SiftDownStep(q: seq<Request>, i: nat, j: nat, n: nat, settled: bool)
    requires i < n <= |q| && 0 < j < n && Parent(j) == i && OrderedBelow(q, i, n, settled) && Less(q[j], q[i])
    requires forall k :: 0 < k < n && Parent(k) == i ==> !Less(q[k], q[j])
    ensures OrderedBelow(Swapped(q, i, j), j, n, true)
  {
    var p := Swapped(q, i, j);
    forall k | 0 < k < n && Parent(k) != j ensures InPlace(p, k) {
      if k != i && Parent(k) != i {
        assert InPlace(q, k);
      }
    }
    forall k | 0 < k < n && Parent(k) == j ensures !Less(p[k], p[Parent(j)]) {
      assert InPlace(q, k);
    }
  }

  /** `j` is the first child of `i` in deadline order. */
  lemma ChildrenOf(q: seq<Request>, i: nat, j: nat, n: nat)
    requires i < n <= |q| && 0 < j < n && (j == 2 * i + 1 || j == 2 * i + 2)
    requires j == 2 * i + 2 ==> Less(q[j], q[2 * i + 1])
    requires j == 2 * i + 1 && 2 * i + 2 < n ==> !Less(q[2 * i + 2], q[j])
    ensures Parent(j) == i
    ensures forall k :: 0 < k < n && Parent(k) == i ==> !Less(q[k], q[j])
    ensures !Less(q[j], q[i]) ==> forall k :: 0 < k < n && Parent(k) == i ==> InPlace(q, k)
  {
    assert forall k :: 0 < k < n && Parent(k) == i ==> k == 2 * i + 1 || k == 2 * i + 2;
  }

  lemma SiftDownDone(q: seq<Request>, i: nat, n: nat, settled: bool)
    requires i < n <= |q| && OrderedBelow(q, i, n, settled)
    requires forall k :: 0 < k < n && Parent(k) == i ==> InPlace(q, k)
    ensures OrderedAbove(q, i, n) && (settled ==> Ordered(q, n))
  {
  }

  lemma AppendHole(q: seq<Request>, item: Request)
    requires Ordered(q, |q|)
    ensures OrderedAbove(q + [item], |q|, |q| + 1)
  {
    var p := q + [item];
    forall k | 0 < k < |q| ensures InPlace(p, k) {
      assert InPlace(q, k);
    }
  }

  lemma OrderedPrefix(q: seq<Request>, n: nat)
    requires n <= |q| && Ordered(q, |q|)
    ensures Ordered(q, n)
  {
  }

  lemma DropTail(q: seq<Request>, n: nat)
    requires |q| == n + 1 && Ordered(q, n)
    ensures Ordered(q[..n], n)
    ensures multiset(q[..n]) == multiset(q) - multiset{q[n]}
  {
    forall k | 0 < k < n ensures InPlace(q[..n], k) {
      assert InPlace(q, k);
    }
    assert q == q[..n] + [q[n]];
  }

  class ExpiryQueue {
    var q: seq<Request>
    var heapIndex: map<nat, int>

    /** Every entry on the heap knows where it is, and every other knows it is off. */
    ghost predicate Indexed()
      reads this
    {
      && (forall i :: 0 <= i < |q| ==> q[i].id in heapIndex && heapIndex[q[i].id] == i)
      && (forall id :: id in heapIndex && heapIndex[id] >= 0 ==> heapIndex[id] < |q| && q[heapIndex[id]].id == id)
    }

    ghost predicate Valid()
      reads this
    {
      Indexed() && Ordered(q, |q|)
    }

    constructor ()
      ensures Valid() && q == []
    {
      q := [];
      heapIndex := map[];
    }

    method Swap(left: nat, right: nat)
      requires Indexed() && left < |q| && right < |q|
      modifies this
      ensures Indexed() && q == Swapped(old(q), left, right)
    {
      q := q[left := q[right]][right := q[left]];
      heapIndex := heapIndex[q[left].id := left][q[right].id := right];
    }

    method Up(start: nat, n: nat)
      requires Indexed() && start < n <= |q| && OrderedAbove(q, start, n)
      modifies this
      ensures Indexed() && SameUpTo(old(q), q, n)
      ensures Ordered(q, n)
    {
      var j: nat := start;
      while j > 0 && Less(q[j], q[Parent(j)])
        invariant j < n <= |q| && |q| == |old(q)| && Indexed()
        invariant OrderedAbove(q, j, n)
        invariant SameUpTo(old(q), q, n)
      {
        var i := Parent(j);
        SiftUpStep(q, j, n);
        SwapSame(q, i, j, n);
        Swap(i, j);
        j := i;
      }
      assert j > 0 ==> InPlace(q, j);
    }

    method Down(start: nat, n: nat) returns (moved: bool)
      requires Indexed() && start < n <= |q| && OrderedBelow(q, start, n, start == 0)
      modifies this
      ensures Indexed() && SameUpTo(old(q), q, n)
      ensures moved ==> Ordered(q, n)
      ensures !moved ==> q == old(q) && OrderedAbove(q, start, n)
    {
      hide OrderedBelow, OrderedAbove, Ordered, InPlace, Less, Swapped;
      var i: nat := start;
      while 2 * i + 1 < n
        invariant start <= i < n <= |q| && |q| == |old(q)| && Indexed()
        invariant OrderedBelow(q, i, n, start == 0 || i != start)
        invariant i == start ==> q == old(q)
        invariant SameUpTo(old(q), q, n)
      {
        var j := 2 * i + 1;
        if j + 1 < n && Less(q[j + 1], q[j]) {
          j := j + 1;
        }
        ChildrenOf(q, i, j, n);
        if !Less(q[j], q[i]) {
          break;
        }
        SiftDownStep(q, i, j, n, start == 0 || i != start);
        SwapSame(q, i, j, n);
        Swap(i, j);
        i := j;
      }
      SiftDownDone(q, i, n, start == 0 || i != start);
      moved := i > start;
    }

    /** Drops the last slot; the caller has put the entry to remove there. */
    method PopLast() returns (item: Request)
      requires Indexed() && |q| > 0
      modifies this
      ensures Indexed() && item == old(q)[|old(q)| - 1] && q == old(q)[..|old(q)| - 1]
      ensures item.id in heapIndex && heapIndex[item.id] == -1
    {
      var last := |q| - 1;
      item := q[last];
      heapIndex := heapIndex[item.id := -1];
      q := q[..last];
    }

    method Push(item: Request)
      requires Valid() && forall r :: r in q ==> r.id != item.id
      modifies this
      ensures Valid() && multiset(q) == multiset(old(q)) + multiset{item}
    {
      heapIndex := heapIndex[item.id := |q|];
      q := q + [item];
      AppendHole(old(q), item);
      Up(|q| - 1, |q|);
    }

    /**
     * Removes the entry wherever its own index says it is; an entry that is off
     * the heap is left alone.
     */
    method Remove(item: Request)
      requires Valid() && forall r :: r in q && r.id == item.id ==> r == item
      modifies this
      ensures Valid()
      ensures if item in old(q) then multiset(q) == multiset(old(q)) - multiset{item} else q == old(q)
    {
      hide OrderedBelow, OrderedAbove, Ordered, InPlace;
      OnHeap(item);
      if item.id in heapIndex && heapIndex[item.id] >= 0 {
        var i := heapIndex[item.id];
        var n := |q| - 1;
        OrderedPrefix(q, n);
        if i != n {
          MoveAside(i, n);
        }
        DropTail(q, n);
        var gone := PopLast();
      }
    }

    lemma OnHeap(item: Request)
      requires Indexed() && forall r :: r in q && r.id == item.id ==> r == item
      ensures item in q <==> item.id in heapIndex && heapIndex[item.id] >= 0
      ensures item in q ==> heapIndex[item.id] < |q| && q[heapIndex[item.id]] == item
    {
    }

    /** Exchanges the entry at `i` with the last one and restores order before it. */
    method MoveAside(i: nat, n: nat)
      requires Valid() && i < n == |q| - 1
      modifies this
      ensures Indexed() && |q| == |old(q)| && multiset(q) == multiset(old(q)) && q[n] == old(q[i])
      ensures Ordered(q, n)
    {
      hide OrderedBelow, OrderedAbove, Ordered, InPlace;
      SwapSame(q, i, n, n + 1);
      RemovalHole(q, i, n);
      Swap(i, n);
      ghost var tail := q[n..];
      var moved := Down(i, n);
      if !moved {
        Up(i, n);
      }
      assert q[n] == q[n..][0] == tail[0];
    }
  }

  /** Moving the last entry into a hole disturbs the order only around the hole. */
  lemma RemovalHole(q: seq<Request>, i: nat, n: nat)
    requires i < n == |q| - 1 && Ordered(q, |q|)
    ensures OrderedBelow(Swapped(q, i, n), i, n, i == 0)
  {
    var p := Swapped(q, i, n);
    forall k | 0 < k < n && Parent(k) != i && k != i ensures InPlace(p, k) {
      assert InPlace(q, k);
    }
    if i > 0 {
      assert InPlace(q, i);
      forall k | 0 < k < n && Parent(k) == i ensures !Less(p[k], p[Parent(i)]) {
        assert InPlace(q, k);
      }
    }
  }
}
