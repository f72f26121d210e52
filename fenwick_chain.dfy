/** Index arithmetic of the binary indexed tree in lib/range.py: the lowest
    set bit `i & -i`, the chain of cells an update visits, and the chain of
    cells a prefix query visits. */
module FenwickChain {
  import opened PySeq

  /** `x & -x` for `x >= 0`: the value of the lowest set bit of `x`. */
  function LowBit(x: nat): (r: nat)
    ensures x >= 1 ==> 1 <= r <= x
    ensures x == 0 ==> r == 0
  {
    if x == 0 then 0 else if x % 2 == 1 then 1 else 2 * LowBit(x / 2)
  }

  /** Cell `x` is visited by `update(i, _)`: it is one of `i`,
      `i + LowBit(i)`, ... */
  predicate InUp(i: nat, x: nat)
    decreases x - i
  {
    if i == 0 || i > x then false
    else if i == x then true
    else InUp(i + LowBit(i), x)
  }

  /** Clearing the lowest set bit leaves an even number. */
  lemma ClearedIsEven(k: nat)
    requires k >= 1
    ensures (k - LowBit(k)) % 2 == 0
  {
    if k % 2 == 0 {
      var m := k / 2 - LowBit(k / 2);
      assert k - LowBit(k) == m + m;
    } else {
      assert LowBit(k) == 1;
    }
  }

  /** Between `i` and the next cell of its update chain, every `k` has a low
      bit no larger than its distance from `i`. */
  lemma {:induction false} LowBitInsideSpan(i: nat, k: nat)
    requires 1 <= i < k < i + LowBit(i)
    ensures LowBit(k) <= k - i
    decreases i
  {
    if i % 2 == 0 && k % 2 == 0 {
      LowBitInsideSpan(i / 2, k / 2);
    }
  }

  /** Past the next cell of the update chain from `i`, no `k` has
      `k - LowBit(k)` in `[i, i + LowBit(i))`. */
  lemma {:induction false} ClearedOutsideSpan(i: nat, k: nat)
    requires 1 <= i && i + LowBit(i) <= k
    ensures !(i <= k - LowBit(k) < i + LowBit(i))
    decreases k
  {
    if i % 2 == 1 {
      ClearedIsEven(k);
    } else if k % 2 == 0 {
      ClearedOutsideSpan(i / 2, k / 2);
    }
  }

  /** The cells covering position `i` are exactly those `k >= i` whose range
      `(k - LowBit(k), k]` contains `i`. */
  lemma {:induction false} InUpCovers(i: nat, k: nat)
    requires 1 <= i <= k
    ensures InUp(i, k) <==> k - LowBit(k) < i
    decreases k - i
  {
    if i < k {
      var j := i + LowBit(i);
      if j > k {
        LowBitInsideSpan(i, k);
      } else {
        InUpCovers(j, k);
        ClearedOutsideSpan(i, k);
      }
    }
  }

  lemma {:induction false} InUpBelow(i: nat, x: nat)
    requires InUp(i, x)
    ensures 1 <= i <= x
    decreases x - i
  {
  }

  /** Two cells on the update chain from `y` lie on each other's chain. */
  lemma {:induction false} InUpOrder(y: nat, a: nat, b: nat)
    requires InUp(y, a) && InUp(y, b) && a <= b
    ensures InUp(a, b)
    decreases a - y
  {
    if y < a {
      InUpOrder(y + LowBit(y), a, b);
    }
  }

  /** No chain cell lies strictly between a chain cell and its successor. */
  lemma NextOnChain(y: nat, a: nat, b: nat)
    requires InUp(y, a) && InUp(y, b) && a < b
    ensures a + LowBit(a) <= b
  {
    InUpOrder(y, a, b);
    InUpBelow(a + LowBit(a), b);
  }

  /** From a cell of the update chain, the walk moves on to the next cell
      of the chain and skips none. */
  lemma ChainAdvance(y: nat, p: nat)
    requires InUp(y, p)
    ensures InUp(y, p + LowBit(p))
    ensures forall x :: InUp(y, x) && p < x ==> p + LowBit(p) <= x
  {
    forall x | InUp(y, x) && p < x ensures p + LowBit(p) <= x {
      NextOnChain(y, p, x);
    }
    HopParent(y, p);
  }

  /** The chain cell visited just before `x` on the chain from `y`. */
  function Hop(y: nat, x: nat): (h: nat)
    requires y >= 1
    ensures y <= h
    decreases x - y
  {
    if y >= x then y else if y + LowBit(y) >= x then y else Hop(y + LowBit(y), x)
  }

  lemma {:induction false} HopOnChain(y: nat, x: nat)
    requires InUp(y, x)
    ensures Hop(y, x) <= x
    ensures Hop(y, x) == x <==> y == x
    ensures y < x ==> InUp(y, Hop(y, x)) && Hop(y, x) + LowBit(Hop(y, x)) == x
    decreases x - y
  {
    if y < x && y + LowBit(y) < x {
      HopOnChain(y + LowBit(y), x);
    }
  }

  lemma {:induction false} HopParent(y: nat, p: nat)
    requires InUp(y, p)
    ensures InUp(y, p + LowBit(p)) && Hop(y, p + LowBit(p)) == p
    decreases p - y
  {
    InUpBelow(y, p);
    if y < p {
      HopParent(y + LowBit(y), p);
    }
  }

  /** The prefix query chain from `k`: `t[k] + t[k - LowBit(k)] + ...`. */
  function DownSum(t: seq<int>, k: nat): int
    requires k < |t|
    decreases k
  {
    if k == 0 then 0 else t[k] + DownSum(t, k - LowBit(k))
  }

  /** `t2` is `t` after `update(i, d)` on a tree of the given size. */
  predicate UpdatedAlongChain(t: seq<int>, t2: seq<int>, i: nat, d: int, size: int)
  {
    |t| == |t2| &&
    forall x :: 0 <= x < |t| ==> t2[x] == t[x] + (if x <= size && InUp(i, x) then d else 0)
  }

  /** A prefix query meets the update chain from `i` exactly once when
      `i <= k`, and never otherwise. */
  lemma {:induction false} DownSumAfterUpdate(t: seq<int>, t2: seq<int>, i: nat, d: int, size: int, k: nat)
    requires i >= 1 && UpdatedAlongChain(t, t2, i, d, size)
    requires k < |t| && k <= size
    ensures DownSum(t2, k) == DownSum(t, k) + (if i <= k then d else 0)
    decreases k
  {
    if k > 0 {
      DownSumAfterUpdate(t, t2, i, d, size, k - LowBit(k));
      if i <= k {
        InUpCovers(i, k);
      } else if InUp(i, k) {
        InUpBelow(i, k);
      }
    }
  }

  /** Every cell `x` in `1..m` holds the sum of its range
      `e[x - LowBit(x) .. x]`. */
  predicate Covers(t: seq<int>, e: seq<int>, m: nat)
  {
    m < |t| && m <= |e| &&
    forall x :: 1 <= x <= m ==> t[x] == Sum(e[x - LowBit(x)..x])
  }

  /** Under `Covers`, a prefix query returns the prefix sum. */
  lemma {:induction false} DownSumOfCovers(t: seq<int>, e: seq<int>, m: nat, k: nat)
    requires Covers(t, e, m) && k <= m
    ensures DownSum(t, k) == Sum(e[..k])
    decreases k
  {
    if k > 0 {
      DownSumOfCovers(t, e, m, k - LowBit(k));
      SumSlice(e, k - LowBit(k), k);
    }
  }

  /** What `initialize` has added to cell `x` from element `q` once the
      first `i` positions are processed: the element travels up its chain,
      and reaches `x` when the cell before `x` on that chain is processed. */
  function Contribution(a: seq<int>, x: nat, i: nat, q: nat): int
    requires q < |a|
  {
    if InUp(q + 1, x) && Hop(q + 1, x) <= i then a[q] else 0
  }

  function Gathered(a: seq<int>, x: nat, i: nat, m: nat): int
    requires m <= |a|
  {
    if m == 0 then 0 else Gathered(a, x, i, m - 1) + Contribution(a, x, i, m - 1)
  }

  lemma ContributionStep(a: seq<int>, x: nat, i: nat, q: nat)
    requires q < |a|
    ensures Contribution(a, x, i + 1, q) ==
      Contribution(a, x, i, q)
      + (if x == i + 1 && q == i then a[q] else 0)
      + (if x == (i + 1) + LowBit(i + 1) then Contribution(a, i + 1, i + 1, q) else 0)
  {
    var p, y := i + 1, q + 1;
    HopTo(y, x, p);
    if InUp(y, p) {
      HopOnChain(y, p);
    }
  }

  /** The walk from `y` reaches `x` straight from `p` exactly when `x` is
      `p` itself and the walk starts there, or `x` is the cell after `p` on
      a chain through `p`. */
  lemma HopTo(y: nat, x: nat, p: nat)
    requires y >= 1 && p >= 1
    ensures (InUp(y, x) && Hop(y, x) == p) <==> ((x == p && y == p) || (x == p + LowBit(p) && InUp(y, p)))
  {
    if InUp(y, x) {
      HopOnChain(y, x);
      InUpBelow(y, x);
    }
    if InUp(y, p) {
      HopParent(y, p);
    }
  }

  lemma {:induction false} GatheredStep(a: seq<int>, x: nat, i: nat, m: nat)
    requires m <= |a|
    ensures Gathered(a, x, i + 1, m) ==
      Gathered(a, x, i, m)
      + (if x == i + 1 && i < m then a[i] else 0)
      + (if x == (i + 1) + LowBit(i + 1) then Gathered(a, i + 1, i + 1, m) else 0)
  {
    if m > 0 {
      GatheredStep(a, x, i, m - 1);
      ContributionStep(a, x, i, m - 1);
    }
  }

  lemma {:induction false} GatheredNone(a: seq<int>, x: nat, m: nat)
    requires m <= |a|
    ensures Gathered(a, x, 0, m) == 0
  {
    if m > 0 {
      GatheredNone(a, x, m - 1);
    }
  }

  /** Once every position up to `x` is processed, cell `x` holds the sum of
      its range (restricted to the first `m` elements). */
  lemma {:induction false} GatheredComplete(a: seq<int>, x: nat, i: nat, m: nat)
    requires 1 <= x <= i && m <= |a|
    ensures Gathered(a, x, i, m) ==
      Sum(a[..if x <= m then x else m]) - Sum(a[..if x - LowBit(x) <= m then x - LowBit(x) else m])
  {
    if m > 0 {
      GatheredComplete(a, x, i, m - 1);
      SumPrefixStep(a, m - 1);
      if InUp(m, x) {
        HopOnChain(m, x);
        InUpBelow(m, x);
        InUpCovers(m, x);
      } else if m <= x {
        InUpCovers(m, x);
      }
    }
  }

  /** Cell 0 is zero, every cell up to `len(a)` holds what has been
      gathered from the first `i` positions, and the cells past `len(a)`
      are zero. */
  predicate Gathering(t: seq<int>, a: seq<int>, i: nat)
  {
    |a| < |t| && t[0] == 0 &&
    (forall x :: 1 <= x <= |a| ==> t[x] == Gathered(a, x, i, |a|)) &&
    forall x :: |a| < x < |t| ==> t[x] == 0
  }

  /** One round of the `initialize` loop: position `i + 1` takes `a[i]`,
      then pushes its total to the next cell of its chain when that cell is
      within `len(a)`. */
  function InitStep(t: seq<int>, a: seq<int>, i: nat): (t2: seq<int>)
    requires i < |a| < |t|
    ensures |t2| == |t|
  {
    var p := i + 1;
    var t1 := t[p := t[p] + a[i]];
    var j := p + LowBit(p);
    if j <= |a| then t1[j := t1[j] + t1[p]] else t1
  }

  /** Each round of the `initialize` loop gathers one more position. */
  lemma InitializeStepGathers(t: seq<int>, a: seq<int>, i: nat)
    requires i < |a| && Gathering(t, a, i)
    ensures Gathering(InitStep(t, a, i), a, i + 1)
  {
    var p := i + 1;
    var t2 := InitStep(t, a, i);
    GatheredStep(a, p, i, |a|);
    forall x | 1 <= x <= |a| ensures t2[x] == Gathered(a, x, i + 1, |a|) {
      GatheredStep(a, x, i, |a|);
    }
  }

  /** When `initialize` has processed every position, each cell covers its
      range. */
  lemma GatheredCovers(t: seq<int>, a: seq<int>)
    requires |a| < |t|
    requires forall x :: 1 <= x <= |a| ==> t[x] == Gathered(a, x, |a|, |a|)
    ensures Covers(t, a, |a|)
  {
    forall x | 1 <= x <= |a| ensures t[x] == Sum(a[x - LowBit(x)..x]) {
      GatheredComplete(a, x, |a|, |a|);
      SumSlice(a, x - LowBit(x), x);
    }
  }

  /** The smallest power of two above `n`: `2 ** int(log2(n) + 1)`. */
  function PowerAbove(n: nat): (r: nat)
    ensures n < r
    ensures n >= 1 ==> r <= 2 * n
  {
    if n == 0 then 1 else 2 * PowerAbove(n / 2)
  }
}
