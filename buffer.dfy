/**
 * The sample history: a FIFO of bounded length (a deque with maxlen) that
 * drops its oldest samples when new ones arrive at capacity.
 */
module Buffer {

  /** r is what remains of s after dropping some of its oldest elements. */
  predicate IsSuffix(r: seq<int>, s: seq<int>) {
    |r| <= |s| && s[|s| - |r|..] == r
  }

  /** The last n elements of s, or all of s when it has no more than n. */
  function LastN(s: seq<int>, n: nat): (r: seq<int>)
    ensures |r| == if |s| < n then |s| else n
    ensures IsSuffix(r, s)
  {
    if |s| <= n then s else s[|s| - n..]
  }

  /** Once at least n elements come from q, the last n of p + q are the last n of q. */
  lemma LastNOfLongTail(p: seq<int>, q: seq<int>, n: nat)
    requires |q| >= n
    ensures LastN(p + q, n) == LastN(q, n)
  {
    var r := LastN(p + q, n);
    forall k | 0 <= k < n
      ensures r[k] == LastN(q, n)[k]
    {
      assert r[k] == (p + q)[|p| + |q| - n + k];
    }
  }

  /** Trimming before or after appending b gives the same contents. */
  lemma {:induction false} LastNConcat(a: seq<int>, b: seq<int>, n: nat)
    ensures LastN(LastN(a, n) + b, n) == LastN(a + b, n)
  {
    var a' := LastN(a, n);
    var p := a[..|a| - |a'|];
    assert a == p + a';
    assert a + b == p + (a' + b);
    if |a| > n {
      LastNOfLongTail(p, a' + b, n);
    } else {
      assert p == [];
      assert a' == a;
    }
  }

  /** Everything kept was supplied: an element of LastN(s, n) is an element of s. */
  lemma LastNElements(s: seq<int>, n: nat, k: nat)
    requires k < |LastN(s, n)|
    ensures LastN(s, n)[k] == s[|s| - |LastN(s, n)| + k]
  {
  }

  /** Overflow: capacity 100, fed 0..149, keeps 50..149. */
  lemma OverflowKeepsNewest()
    ensures LastN(seq(150, i => i), 100) == seq(100, i => i + 50)
  {
    var r := LastN(seq(150, i => i), 100);
    forall k | 0 <= k < 100
      ensures r[k] == k + 50
    {
      LastNElements(seq(150, i => i), 100, k);
    }
  }

  class SampleBuffer {
    /** maxlen of the deque. */
    const capacity: nat
    /** The retained samples, oldest first. */
    var samples: seq<int>

    ghost predicate Valid()
      reads this
    {
      |samples| <= capacity
    }

    constructor (capacity: nat)
      ensures Valid()
      ensures this.capacity == capacity && samples == []
    {
      this.capacity := capacity;
      samples := [];
    }

    /** deque.append with maxlen: add at the right, then drop from the left if over capacity. */
    method Append(x: int)
      requires Valid()
      modifies this
      ensures Valid()
      ensures samples == LastN(old(samples) + [x], capacity)
    {
      var s := samples + [x];
      if |s| > capacity {
        s := s[1..];
      }
      samples := s;
    }

    /** deque.extend: append every element of xs, in order. */
    method Extend(xs: seq<int>)
      requires Valid()
      modifies this
      ensures Valid()
      ensures samples == LastN(old(samples) + xs, capacity)
    {
      for i := 0 to |xs|
        invariant Valid()
        invariant samples == LastN(old(samples) + xs[..i], capacity)
      {
        ghost var before := old(samples) + xs[..i];
        Append(xs[i]);
        LastNConcat(before, [xs[i]], capacity);
        assert before + [xs[i]] == old(samples) + xs[..i + 1];
      }
      assert xs[..|xs|] == xs;
    }
  }

  /** The overflow scenario on the class itself: a history of capacity 100
      extended with 0..149 holds exactly 50..149. */
  method OverflowScenario()
  {
    var b := new SampleBuffer(100);
    b.Extend(seq(150, i => i));
    OverflowKeepsNewest();
    assert [] + seq(150, i => i) == seq(150, i => i);
    assert b.samples == seq(100, i => i + 50);
  }
}
