/** Python list semantics used throughout the model: `sum`, index
    normalisation (`s[i]` with a negative `i`) and clamped slicing. */
module PySeq {
  import opened Base

  /** `sum(s)`. */
  function Sum(s: seq<int>): int
  {
    if s == [] then 0 else Sum(s[..|s| - 1]) + s[|s| - 1]
  }

  lemma {:induction false} SumConcat(a: seq<int>, b: seq<int>)
    ensures Sum(a + b) == Sum(a) + Sum(b)
    decreases |b|
  {
    if b == [] {
      assert a + b == a;
    } else {
      assert (a + b)[..|a + b| - 1] == a + b[..|b| - 1];
      SumConcat(a, b[..|b| - 1]);
    }
  }

  /** Adding one more element to a prefix adds that element to its sum. */
  lemma SumPrefixStep(s: seq<int>, k: nat)
    requires k < |s|
    ensures Sum(s[..k + 1]) == Sum(s[..k]) + s[k]
  {
    assert s[..k + 1][..k] == s[..k];
  }

  /** Sums of non-negative entries only grow with the prefix. */
  lemma {:induction false} SumPrefixMonotone(s: seq<int>, j: nat, k: nat)
    requires j <= k <= |s|
    requires forall q :: 0 <= q < |s| ==> s[q] >= 0
    ensures Sum(s[..j]) <= Sum(s[..k])
    decreases k - j
  {
    if j < k {
      SumPrefixStep(s, k - 1);
      SumPrefixMonotone(s, j, k - 1);
    }
  }

  /** The sum of a slice is the difference of two prefix sums. */
  lemma SumSlice(s: seq<int>, lo: nat, hi: nat)
    requires lo <= hi <= |s|
    ensures Sum(s[lo..hi]) == Sum(s[..hi]) - Sum(s[..lo])
  {
    assert s[..hi] == s[..lo] + s[lo..hi];
    SumConcat(s[..lo], s[lo..hi]);
  }

  /** The position `s[i]` designates in a list of length `n`, or `None` where
      Python raises `IndexError`. */
  function PyIndex(n: int, i: int): (r: Option<nat>)
    ensures r.Some? <==> 0 - n <= i < n
    ensures r.Some? ==> r.value < n && (r.value == i || r.value == n + i)
  {
    if 0 <= i < n then Some(i) else if 0 - n <= i < 0 then Some(n + i) else None
  }

  /** A slice bound `x` in `s[x:]` or `s[:x]` as Python clamps it. */
  function Bound(n: nat, x: int): (r: nat)
    ensures r <= n
    ensures 0 <= x <= n ==> r == x
    ensures x > n ==> r == n
    ensures 0 - n <= x < 0 ==> r == n + x
    ensures x < 0 - n ==> r == 0
  {
    if x < 0 then (if x + n < 0 then 0 else x + n) else if x > n then n else x
  }

  /** `s[a:b]`. */
  function Slice<T>(s: seq<T>, a: int, b: int): (r: seq<T>)
    ensures 0 <= a <= b <= |s| ==> r == s[a..b]
    ensures |r| <= |s|
  {
    var lo := Bound(|s|, a);
    var hi := Bound(|s|, b);
    if lo <= hi then s[lo..hi] else []
  }

  /** `s[:k]`. */
  function Take<T>(s: seq<T>, k: int): (r: seq<T>)
    ensures 0 <= k <= |s| ==> r == s[..k]
    ensures k > |s| ==> r == s
    ensures k < 0 ==> |r| < |s| || s == []
  {
    s[..Bound(|s|, k)]
  }

  /** `s[k:]`. */
  function Drop<T>(s: seq<T>, k: int): (r: seq<T>)
    ensures 0 <= k <= |s| ==> r == s[k..]
    ensures k > |s| ==> r == []
  {
    s[Bound(|s|, k)..]
  }

  /** `list.insert(i, x)`: Python clamps the position into `[0, len]`. */
  function InsertAt<T>(s: seq<T>, i: int, x: T): (r: seq<T>)
    ensures |r| == |s| + 1
    ensures 0 <= i <= |s| ==> r == s[..i] + [x] + s[i..]
    ensures i > |s| ==> r == s + [x]
  {
    var k := Bound(|s|, i);
    s[..k] + [x] + s[k..]
  }

  /** `reversed(s)`. */
  function Reverse<T>(s: seq<T>): (r: seq<T>)
    ensures |r| == |s|
  {
    if s == [] then [] else Reverse(s[1..]) + [s[0]]
  }

  lemma {:induction false} ReverseIndex<T>(s: seq<T>)
    ensures forall k :: 0 <= k < |s| ==> Reverse(s)[k] == s[|s| - 1 - k]
  {
    if s != [] {
      ReverseIndex(s[1..]);
    }
  }

  lemma ReverseConcat<T>(a: seq<T>, b: seq<T>)
    ensures Reverse(a + b) == Reverse(b) + Reverse(a)
  {
    var l, r := Reverse(a + b), Reverse(b) + Reverse(a);
    ReverseIndex(a + b);
    ReverseIndex(a);
    ReverseIndex(b);
    assert |l| == |r|;
    forall k | 0 <= k < |l| ensures l[k] == r[k] {
      if k < |b| {
        assert l[k] == (a + b)[|a| + |b| - 1 - k] == b[|b| - 1 - k];
      } else {
        assert l[k] == (a + b)[|a| + |b| - 1 - k] == a[|a| - 1 - (k - |b|)];
      }
    }
  }
}
