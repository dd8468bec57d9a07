/** MultiScheduler::post: tickets from an atomic 32-bit counter, taken modulo the number of schedulers. */
module RoundRobin {
  import opened Schedulers

  /** The remainder of C++, which takes the sign of the dividend. */
  function Remainder(a: int, n: nat): int
    requires n > 0
  {
    if a >= 0 then a % n else -((-a) % n)
  }

  /** The index computed from the t-th ticket (counting from 0; the counter wraps at 2^31). */
  function Index(t: nat, n: nat): int
    requires n > 0
  {
    Remainder(ToInt32(t), n)
  }

  class MultiScheduler {
    const size: nat
    var rrIndex: int
    var queues: seq<seq<Job>>

    ghost predicate Valid()
      reads this
    {
      0 < size == |queues| && -INT_RANGE / 2 <= rrIndex < INT_RANGE / 2
    }

    /** The first t posts have reached the schedulers in their shares. */
    ghost predicate Served(t: nat)
      reads this
    {
      0 < size == |queues| && rrIndex == ToInt32(t) && forall i :: 0 <= i < size ==> |queues[i]| == Share(0, t, i, size)
    }

    constructor (size: nat)
      requires size > 0
      ensures Valid() && this.size == size && Served(0)
    {
      this.size, rrIndex, queues := size, 0, seq(size, _ => []);
    }

    /** `ok` is false where the program would index outside schedulers_. */
    method Post(f: Job) returns (ok: bool)
      requires Valid()
      modifies this`rrIndex, this`queues
      ensures Valid() && rrIndex == ToInt32(old(rrIndex) + 1)
      ensures var i := Remainder(old(rrIndex), size);
              && ok == (i >= 0) && i < size
              && queues == if ok then old(queues)[i := old(queues)[i] + [f]] else old(queues)
      ensures forall t: nat :: t < INT_RANGE / 2 && old(Served(t)) ==> ok && Served(t + 1)
    {
      var idx := Remainder(rrIndex, size);
      forall t: nat | Served(t) && t < INT_RANGE / 2 ensures idx >= 0 {
        IndexBeforeWrap(t, size);
      }
      rrIndex := ToInt32(rrIndex + 1);
      if idx < 0 {
        return false;
      }
      queues := queues[idx := queues[idx] + [f]];
      forall t: nat | old(Served(t)) && t < INT_RANGE / 2 ensures Served(t + 1) {
        IndexBeforeWrap(t, size);
        TicketAdvances(t);
      }
      return true;
    }
  }

  /** The counter that post has advanced t times holds the t-th ticket. */
  lemma TicketAdvances(t: nat)
    ensures ToInt32(ToInt32(t) + 1) == ToInt32(t + 1)
  {
    var q, r := t / INT_RANGE, t % INT_RANGE;
    assert t == INT_RANGE * q + r;
    assert (t + 1) % INT_RANGE == (r + 1) % INT_RANGE;
  }

  /** A ticket picks a scheduler unless the counter has wrapped to a negative number that the number of
      schedulers does not divide. */
  lemma InRangeIff(t: nat, n: nat)
    requires n > 0
    ensures 0 <= Index(t, n) < n <==> t % INT_RANGE < INT_RANGE / 2 || (INT_RANGE - t % INT_RANGE) % n == 0
  {
  }

  /** The first ticket past 2^31 misses with three schedulers. */
  lemma WrapMisses()
    ensures Index(0x8000_0000, 3) < 0
  {
    assert ToInt32(0x8000_0000) == -0x8000_0000;
  }

  // ----- fairness -----

  /** How many of the k tickets from `first` on go to scheduler i. */
  function Share(first: nat, k: nat, i: nat, n: nat): nat
    requires n > 0
  {
    if k == 0 then 0
    else Share(first, k - 1, i, n) + if Index(first + k - 1, n) == i then 1 else 0
  }

  lemma ModAdd(a: nat, k: nat, n: nat)
    requires k < n
    ensures (a + k) % n == if a % n + k < n then a % n + k else a % n + k - n
  {
    var q, r := a / n, a % n;
    assert a == q * n + r;
    if r + k < n {
      ModIs(a + k, q, r + k, n);
    } else {
      assert a + k == (q + 1) * n + (r + k - n);
      ModIs(a + k, q + 1, r + k - n, n);
    }
  }

  lemma Multiples(d: int, n: nat)
    ensures d >= 1 ==> d * n >= n
    ensures d <= -1 ==> d * n + n <= 0
  {
    if d >= 1 {
      assert d * n == (d - 1) * n + n;
    } else if d <= -1 {
      assert d * n == (d + 1) * n - n;
    }
  }

  /** Quotient and remainder are unique. */
  lemma ModIs(x: nat, q: nat, r: nat, n: nat)
    requires r < n && x == q * n + r
    ensures x % n == r && x / n == q
  {
    var q', r' := x / n, x % n;
    assert x == q' * n + r';
    assert (q - q') * n == q * n - q' * n;
    Multiples(q - q', n);
  }

  lemma IndexBeforeWrap(t: nat, n: nat)
    requires n > 0 && t < INT_RANGE / 2
    ensures Index(t, n) == t % n
  {
    assert t % INT_RANGE == t;
  }

  /** Fewer than n tickets in a row reach a scheduler at most once, n in a row exactly once. */
  lemma {:induction false} ShareOfWindow(first: nat, k: nat, i: nat, n: nat)
    requires i < n && k <= n && first + k <= INT_RANGE / 2
    ensures Share(first, k, i, n) == if (if i >= first % n then i - first % n else i - first % n + n) < k then 1 else 0
  {
    if k > 0 {
      ShareOfWindow(first, k - 1, i, n);
      IndexBeforeWrap(first + k - 1, n);
      ModAdd(first, k - 1, n);
    }
  }

  lemma {:induction false} ShareSplits(first: nat, k: nat, m: nat, i: nat, n: nat)
    requires n > 0
    ensures Share(first, k + m, i, n) == Share(first, k, i, n) + Share(first + k, m, i, n)
  {
    if m > 0 {
      ShareSplits(first, k, m - 1, i, n);
    }
  }

  /** Before the wrap, any k consecutive tickets give each scheduler k/n jobs, rounded down or up. */
  lemma {:induction false} FairShare(first: nat, k: nat, i: nat, n: nat)
    requires i < n && first + k <= INT_RANGE / 2
    ensures k / n <= Share(first, k, i, n) <= (k + n - 1) / n
    decreases k
  {
    if k <= n {
      ShareOfWindow(first, k, i, n);
      Quotients(k, n);
    } else {
      ShareSplits(first, k - n, n, i, n);
      ShareOfWindow(first + (k - n), n, i, n);
      FairShare(first, k - n, i, n);
      DivLess(k, n);
      DivLess(k + n - 1, n);
    }
  }

  lemma Quotients(k: nat, n: nat)
    requires 0 < n && k <= n
    ensures k / n == if k == n then 1 else 0
    ensures (k + n - 1) / n == if k == 0 then 0 else 1
  {
    if k == n {
      ModIs(k, 1, 0, n);
    } else {
      ModIs(k, 0, k, n);
    }
    if k == 0 {
      ModIs(n - 1, 0, n - 1, n);
    } else {
      ModIs(k + n - 1, 1, k - 1, n);
    }
  }

  lemma DivLess(a: nat, n: nat)
    requires 0 < n <= a
    ensures a / n == (a - n) / n + 1
  {
    var q, r := (a - n) / n, (a - n) % n;
    assert a - n == q * n + r;
    assert (q + 1) * n == q * n + n;
    ModIs(a, q + 1, r, n);
  }
}
