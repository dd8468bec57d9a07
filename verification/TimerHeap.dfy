/** The binary heap behind timer_heap: std::push_heap and std::pop_heap with the earliest deadline on top. */
module TimerHeap {

  datatype TimerEntry = TimerEntry(expire: int, co: nat)

  function Parent(i: nat): nat
    requires i > 0
  {
    (i - 1) / 2
  }

  predicate Ordered(h: seq<TimerEntry>, i: nat)
    requires 0 < i < |h|
  {
    h[Parent(i)].expire <= h[i].expire
  }

  predicate IsHeap(h: seq<TimerEntry>) {
    forall i :: 0 < i < |h| ==> Ordered(h, i)
  }

  /** The children of `k` may be out of order with `k`, not with the parent of `k`. */
  predicate Bridged(h: seq<TimerEntry>, k: nat) {
    0 < k < |h| ==> forall i :: 0 < i < |h| && Parent(i) == k ==> h[Parent(k)].expire <= h[i].expire
  }

  function Swap(h: seq<TimerEntry>, i: nat, j: nat): (r: seq<TimerEntry>)
    requires i < |h| && j < |h|
    ensures |r| == |h| && multiset(r) == multiset(h)
    ensures r[i] == h[j] && r[j] == h[i]
    ensures forall k :: 0 <= k < |h| && k != i && k != j ==> r[k] == h[k]
  {
    h[i := h[j]][j := h[i]]
  }

  /** One step up moves the only disorder from `k` to its parent. */
  lemma SwapUp(h: seq<TimerEntry>, k: nat)
    requires 0 < k < |h| && Bridged(h, k) && !Ordered(h, k)
    requires forall i :: 0 < i < |h| && i != k ==> Ordered(h, i)
    ensures var r := Swap(h, k, Parent(k));
            Bridged(r, Parent(k)) && forall i :: 0 < i < |h| && i != Parent(k) ==> Ordered(r, i)
  {
    var p := Parent(k);
    var r := Swap(h, k, p);
    forall i | 0 < i < |h| && i != p ensures Ordered(r, i) {
      assert i == k || Ordered(h, i);
    }
    if p > 0 {
      forall i | 0 < i < |h| && Parent(i) == p ensures r[Parent(p)].expire <= r[i].expire {
        assert Ordered(h, p);
        assert i == k || Ordered(h, i);
      }
    }
  }

  function SiftUp(h: seq<TimerEntry>, k: nat): (r: seq<TimerEntry>)
    requires k < |h| && Bridged(h, k)
    requires forall i :: 0 < i < |h| && i != k ==> Ordered(h, i)
    ensures IsHeap(r) && |r| == |h| && multiset(r) == multiset(h)
    decreases k
  {
    if k == 0 || Ordered(h, k) then h
    else
      SwapUp(h, k);
      SiftUp(Swap(h, k, Parent(k)), Parent(k))
  }

  /** The child with the earlier deadline. */
  function EarlierChild(h: seq<TimerEntry>, k: nat): (c: nat)
    requires 2 * k + 1 < |h|
    ensures 0 < c < |h| && Parent(c) == k
    ensures forall i :: 0 < i < |h| && Parent(i) == k ==> h[c].expire <= h[i].expire
  {
    if 2 * k + 2 < |h| && h[2 * k + 2].expire < h[2 * k + 1].expire then 2 * k + 2 else 2 * k + 1
  }

  /** One step down moves the only disorder from below `k` to below its earlier child. */
  lemma SwapDown(h: seq<TimerEntry>, k: nat)
    requires 2 * k + 1 < |h| && Bridged(h, k)
    requires forall i :: 0 < i < |h| && Parent(i) != k ==> Ordered(h, i)
    requires h[k].expire > h[EarlierChild(h, k)].expire
    ensures var c := EarlierChild(h, k);
            var r := Swap(h, k, c);
            Bridged(r, c) && forall i :: 0 < i < |h| && Parent(i) != c ==> Ordered(r, i)
  {
    var c := EarlierChild(h, k);
    var r := Swap(h, k, c);
    forall i | 0 < i < |h| && Parent(i) != c ensures Ordered(r, i) {
      assert Parent(i) == k || Ordered(h, i);
    }
    forall i | 0 < i < |h| && Parent(i) == c ensures r[Parent(c)].expire <= r[i].expire {
      assert Ordered(h, i);
    }
  }

  function SiftDown(h: seq<TimerEntry>, k: nat): (r: seq<TimerEntry>)
    requires k < |h| && Bridged(h, k)
    requires forall i :: 0 < i < |h| && Parent(i) != k ==> Ordered(h, i)
    ensures IsHeap(r) && |r| == |h| && multiset(r) == multiset(h)
    decreases |h| - k
  {
    if 2 * k + 1 >= |h| then h
    else
      var c := EarlierChild(h, k);
      if h[k].expire <= h[c].expire then h
      else
        SwapDown(h, k);
        SiftDown(Swap(h, k, c), c)
  }

  lemma HeapPrefix(h: seq<TimerEntry>)
    requires h != [] && IsHeap(h[..|h| - 1])
    ensures forall i :: 0 < i < |h| - 1 ==> Ordered(h, i)
  {
    forall i | 0 < i < |h| - 1 ensures Ordered(h, i) {
      assert Ordered(h[..|h| - 1], i);
    }
  }

  /** std::push_heap: the last entry joins the heap before it. */
  function PushHeap(h: seq<TimerEntry>): (r: seq<TimerEntry>)
    requires h != [] && IsHeap(h[..|h| - 1])
    ensures IsHeap(r) && |r| == |h| && multiset(r) == multiset(h)
  {
    HeapPrefix(h);
    SiftUp(h, |h| - 1)
  }

  /** std::pop_heap: the top entry goes to the back, the others become a heap again. */
  function PopHeap(h: seq<TimerEntry>): (r: seq<TimerEntry>)
    requires h != [] && IsHeap(h)
    ensures |r| == |h| && multiset(r) == multiset(h)
    ensures r[|r| - 1] == h[0] && IsHeap(r[..|r| - 1])
  {
    var n := |h| - 1;
    if n == 0 then h
    else
      var s := Swap(h, 0, n);
      assert s == s[..n] + [s[n]];
      assert forall i :: 0 < i < n && Parent(i) != 0 ==> Ordered(h, i) && Ordered(s[..n], i);
      var r := SiftDown(s[..n], 0) + [s[n]];
      assert r[..n] == SiftDown(s[..n], 0);
      r
  }

  /** No entry is due before the top one. */
  lemma {:induction false} TopIsEarliest(h: seq<TimerEntry>, i: nat)
    requires IsHeap(h) && i < |h|
    ensures h[0].expire <= h[i].expire
  {
    if i > 0 {
      assert Ordered(h, i);
      TopIsEarliest(h, Parent(i));
    }
  }
}
