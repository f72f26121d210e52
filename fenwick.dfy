/** `FenwickTree` from lib/range.py: a binary indexed tree over the per-line
    lengths, kept in two Python lists (`tree`, one longer than `array`) that
    the methods update in place. */
module Fenwick {
  import opened Base
  import opened PySeq
  import opened FenwickChain
  import Accumulator

  function Zeros(n: nat): (r: seq<int>)
    ensures |r| == n && forall k :: 0 <= k < n ==> r[k] == 0
  {
    seq(n, _ => 0)
  }

  /** Every prefix query up to `m` returns the prefix sum of `e`. */
  predicate PrefixSums(t: seq<int>, e: seq<int>, m: nat)
  {
    m < |t| && m <= |e| && forall k :: 0 <= k <= m ==> DownSum(t, k) == Sum(e[..k])
  }

  /** A tree built by `initialize` answers every prefix query up to the
      length of its input. */
  lemma CoveredPrefixes(t: seq<int>, e: seq<int>, m: nat)
    requires Covers(t, e, m)
    ensures PrefixSums(t, e, m)
  {
    forall k | 0 <= k <= m ensures DownSum(t, k) == Sum(e[..k]) {
      DownSumOfCovers(t, e, m, k);
    }
  }

  lemma SumAfterAssign(e: seq<int>, p: nat, v: int, k: nat)
    requires p < |e| && k <= |e|
    ensures Sum(e[p := v][..k]) == Sum(e[..k]) + (if p < k then v - e[p] else 0)
  {
    var e2 := e[p := v];
    if p < k {
      assert e2[..k] == e2[..p] + [v] + e2[p + 1..k];
      assert e[..k] == e[..p] + [e[p]] + e[p + 1..k];
      assert e2[..p] == e[..p] && e2[p + 1..k] == e[p + 1..k];
      SumConcat(e2[..p] + [v], e2[p + 1..k]);
      SumConcat(e2[..p], [v]);
      SumConcat(e[..p] + [e[p]], e[p + 1..k]);
      SumConcat(e[..p], [e[p]]);
    } else {
      assert e2[..k] == e[..k];
    }
  }

  /** `ft[p] = v` keeps every prefix query equal to the prefix sum of the
      updated entries. */
  lemma AssignKeepsPrefixSums(t: seq<int>, t2: seq<int>, e: seq<int>, p: nat, v: int, m: nat, size: int)
    requires PrefixSums(t, e, m) && p < |e| && m <= size
    requires UpdatedAlongChain(t, t2, p + 1, v - e[p], size)
    ensures PrefixSums(t2, e[p := v], m)
  {
    forall k | 0 <= k <= m ensures DownSum(t2, k) == Sum(e[p := v][..k]) {
      DownSumAfterUpdate(t, t2, p + 1, v - e[p], size, k);
      SumAfterAssign(e, p, v, k);
    }
  }

  /** After `initialize(a)`, `ft[i]` (the query at `i + 1`) is the inclusive
      prefix sum of `a`, which is `NaiveAccumulator(a)[i + 1]`, and the query
      at `len(a)` (`ft[-1]`) is `sum(a)`. */
  lemma InitializedMatchesNaive(t: seq<int>, a: seq<int>)
    requires |a| >= 1 && Covers(t, a, |a|)
    ensures forall k :: 1 <= k <= |a| ==>
      DownSum(t, k) == Sum(a[..k]) == Accumulator.Cumulative(a + [0], |a|, k)
    ensures DownSum(t, |a|) == Sum(a)
  {
    CoveredPrefixes(t, a, |a|);
    forall k | 1 <= k <= |a|
      ensures Sum(a[..k]) == Accumulator.Cumulative(a + [0], |a|, k)
    {
      assert (a + [0])[..k] == a[..k];
    }
    assert a[..|a|] == a;
  }

  /** The arrays `initialize` fills: the entries `a` padded with zeros to
      `size`, and each tree cell up to `len(a)` the sum of its range. */
  method Build(a: seq<int>, size: nat) returns (t: array<int>, e: array<int>)
    requires 1 <= |a| <= size
    ensures fresh(t) && fresh(e) && t.Length == size + 1 && e.Length == size
    ensures forall q :: 0 <= q < e.Length ==> e[q] == if q < |a| then a[q] else 0
    ensures t[0] == 0 && Covers(t[..], a, |a|)
    ensures forall x :: |a| < x < t.Length ==> t[x] == 0
  {
    var n := |a|;
    t := new int[size + 1](_ => 0);
    e := new int[size](_ => 0);
    forall x | 1 <= x <= n ensures Gathered(a, x, 0, n) == 0 {
      GatheredNone(a, x, n);
    }
    assert Gathering(t[..], a, 0);
    var i := 0;
    while i < n
      invariant 0 <= i <= n
      invariant forall q :: 0 <= q < i ==> e[q] == a[q]
      invariant forall q :: i <= q < e.Length ==> e[q] == 0
      invariant Gathering(t[..], a, i)
    {
      e[i] := a[i];
      InitializeStepGathers(t[..], a, i);
      Gather(t, a, i);
      i := i + 1;
    }
    GatheredCovers(t[..], a);
  }

  /** The tree half of one round of `initialize`. */
  method Gather(t: array<int>, a: seq<int>, i: nat)
    requires i < |a| < t.Length
    modifies t
    ensures t[..] == InitStep(old(t[..]), a, i)
  {
    t[i + 1] := t[i + 1] + a[i];
    var j := (i + 1) + LowBit(i + 1);
    if j <= |a| {
      t[j] := t[j] + t[i + 1];
    }
  }

  class FenwickTree {
    var size: int
    var tree: array<int>
    /** The raw entries (`array` in the source). */
    var vals: array<int>
    var lastIndex: int

    ghost predicate Valid()
      reads this
    {
      tree != vals && tree.Length == vals.Length + 1 && size <= vals.Length &&
      -1 <= lastIndex <= vals.Length
    }

    /** The value a prefix query at `k` returns, or the error it raises. */
    function Query(k: int): Result<int>
      reads this, tree
    {
      if k <= 0 then Ok(0) else if k < tree.Length then Ok(DownSum(tree[..], k)) else Err("IndexError")
    }

    /** `FenwickTree(size)`. */
    constructor (size: int)
      ensures this.size == size && lastIndex == -1
      ensures fresh(tree) && fresh(vals)
      ensures size >= 0 ==> Valid() && vals[..] == Zeros(size) && tree[..] == Zeros(size + 1)
    {
      this.size := size;
      tree := new int[if size + 1 < 0 then 0 else size + 1](_ => 0);
      vals := new int[if size < 0 then 0 else size](_ => 0);
      lastIndex := -1;
    }

    /** `initialize(a)`: `log2(0)` raises on an empty `a`; otherwise the
        size grows to at least the power of two above `len(a)`, the entries
        become `a` padded with zeros, and each tree cell up to `len(a)` holds
        the sum of its range, with no propagation past `len(a)`. */
    method Initialize(a: seq<int>) returns (out: Outcome)
      modifies this
      ensures |a| == 0 ==> out == Raised("ValueError") && unchanged(this)
      ensures |a| >= 1 ==>
        out == Done && fresh(tree) && fresh(vals) && Valid() &&
        size == Max(old(size), PowerAbove(|a|)) && lastIndex == |a| - 1 &&
        vals.Length == size &&
        (forall q :: 0 <= q < vals.Length ==> vals[q] == if q < |a| then a[q] else 0) &&
        tree[0] == 0 && Covers(tree[..], a, |a|) &&
        forall x :: |a| < x < tree.Length ==> tree[x] == 0
    {
      if |a| == 0 {
        return Raised("ValueError");
      }
      var n := |a|;
      var newSize := Max(size, PowerAbove(n));
      var t, e := Build(a, newSize);
      size, lastIndex, tree, vals := newSize, n - 1, t, e;
      return Done;
    }

    /** `update(index, diff)`: adds `diff` to every cell on the update chain
        from `index` up to `size`. The source loops forever for an index
        below 1. */
    method Update(index: int, diff: int)
      requires index >= 1 && Valid()
      modifies tree
      ensures UpdatedAlongChain(old(tree[..]), tree[..], index, diff, size)
    {
      var cur := index;
      while cur <= size
        invariant InUp(index, cur)
        invariant forall x :: 0 <= x < tree.Length ==>
          tree[x] == old(tree[x]) + (if x < cur && InUp(index, x) then diff else 0)
        invariant forall x :: 0 <= x < cur && InUp(index, x) ==> x <= size
        decreases size - cur
      {
        tree[cur] := tree[cur] + diff;
        ChainAdvance(index, cur);
        cur := cur + LowBit(cur);
      }
    }

    /** `get_cumulative_value(index)`: the sum of the cells on the query
        chain from `index`. */
    method GetCumulativeValue(index: int) returns (r: Result<int>)
      ensures r == Query(index)
    {
      if index <= 0 {
        return Ok(0);
      }
      if index >= tree.Length {
        return Err("IndexError");
      }
      var sum := 0;
      var k := index;
      while k > 0
        invariant 0 <= k <= index
        invariant sum + DownSum(tree[..], k) == DownSum(tree[..], index)
      {
        sum := sum + tree[k];
        k := k - LowBit(k);
      }
      return Ok(sum);
    }

    /** `ft[index]`: the inclusive prefix sum, with -1 meaning `last_index`. */
    method GetItem(index: int) returns (r: Result<int>)
      ensures r == Query((if index == -1 then lastIndex else index) + 1)
    {
      var k := if index == -1 then lastIndex else index;
      r := GetCumulativeValue(k + 1);
    }

    /** `position(row, col)`. */
    method Position(row: int, col: int) returns (r: Result<int>)
      ensures var q := Query((if row == -1 then lastIndex else row) + 1);
        r == if q.Ok? then Ok(q.value + col) else q
    {
      var p := GetItem(row);
      r := if p.Ok? then Ok(p.value + col) else p;
    }

    /** `ft[index] = value`: overwrites the entry and moves the tree by the
        difference, so every prefix query stays the prefix sum of the
        entries (`AssignKeepsPrefixSums`). An index outside `array` raises
        before anything changes; the source loops forever for any other
        index below -1, and for -1 on an empty tree. */
    method SetItem(index: int, value: int) returns (out: Outcome)
      requires Valid()
      requires index >= 0 || (index == -1 && lastIndex >= 0) ||
        (if index == -1 then lastIndex else index) < -vals.Length
      modifies tree, vals
      ensures var k := if index == -1 then lastIndex else index;
        if k >= old(vals.Length) || k < -old(vals.Length) then
          out == Raised("IndexError") && unchanged(tree) && unchanged(vals)
        else
          out == Done && vals[..] == old(vals[..])[k := value] &&
          UpdatedAlongChain(old(tree[..]), tree[..], k + 1, value - old(vals[k]), size)
    {
      var k := if index == -1 then lastIndex else index;
      if k >= vals.Length || k < -vals.Length {
        return Raised("IndexError");
      }
      Place(k, value);
      return Done;
    }

    /** `search(v)`: the same linear scan as `NaiveAccumulator.search` over
        the entries up to `last_index`; reading past the end of `array`
        raises. */
    method Search(v: int) returns (r: Result<(int, int)>)
      requires Valid()
      ensures var pre := vals[..Min(lastIndex + 1, vals.Length)];
        var (row, col) := Accumulator.Locate(pre, lastIndex, v);
        r == if lastIndex == vals.Length && row == lastIndex then Err("IndexError") else Ok((row, col))
    {
      ghost var pre := vals[..Min(lastIndex + 1, vals.Length)];
      var t := 0;
      var i := 0;
      while i <= lastIndex
        invariant 0 <= i <= |pre|
        invariant Accumulator.SearchFrom(pre, lastIndex, v, i, t) == Accumulator.Locate(pre, lastIndex, v)
      {
        if i >= vals.Length {
          return Err("IndexError");
        }
        if t + vals[i] >= v {
          return Ok((i, v - t));
        }
        t := t + vals[i];
        i := i + 1;
      }
      return Ok((lastIndex, 0));
    }

    /** `resize(new_size)` reading the list `contents` as `array`: a fresh
        tree of `new_size` initialised from `contents`, of which only the
        two lists are kept while `size` becomes `new_size`. */
    method Resize(contents: seq<int>, newSize: int) returns (out: Outcome)
      requires Valid() && |contents| >= vals.Length
      modifies this
      ensures |contents| == 0 ==> out == Raised("ValueError") && unchanged(this)
      ensures |contents| >= 1 ==>
        out == Done && fresh(tree) && fresh(vals) && Valid() &&
        size == newSize && lastIndex == old(lastIndex) &&
        vals.Length == Max(newSize, PowerAbove(|contents|)) &&
        vals[..] == contents + Zeros(vals.Length - |contents|) &&
        Covers(tree[..], contents, |contents|)
    {
      var rebuilt := new FenwickTree(newSize);
      out := rebuilt.Initialize(contents);
      if out.Raised? {
        return;
      }
      size := newSize;
      tree := rebuilt.tree;
      vals := rebuilt.vals;
    }

    /** `append(value)`: writes `value` just past `last_index`, resizing to
        twice that index first when it reaches `size`. */
    method Append(value: int) returns (out: Outcome)
      requires Valid()
      modifies this, tree, vals
      ensures var index := old(lastIndex) + 1;
        if index >= old(size) && old(vals.Length) == 0 then
          out == Raised("ValueError") && unchanged(this)
        else
          out == Done && Valid() && lastIndex == index &&
          vals.Length >= old(vals.Length) && index < vals.Length &&
          vals[..] == (old(vals[..]) + Zeros(vals.Length - old(vals.Length)))[index := value] &&
          (index >= old(size) ==>
             size == 2 * index && vals.Length == Max(2 * index, PowerAbove(old(vals.Length)))) &&
          (index < old(size) ==>
             size == old(size) && tree == old(tree) && vals == old(vals) &&
             UpdatedAlongChain(old(tree[..]), tree[..], index + 1, value - old(vals[index]), size))
    {
      var index := lastIndex + 1;
      if index >= size {
        out := Resize(vals[..], index * 2);
        if out.Raised? {
          return;
        }
      }
      out := Done;
      Place(index, value);
      lastIndex := index;
    }

    /** `self.array[index] = value` and the update of the tree by the
        difference, as `append` does them. */
    method Place(index: int, value: int)
      requires Valid() && 0 <= index < vals.Length
      modifies tree, vals
      ensures vals[..] == old(vals[..])[index := value]
      ensures UpdatedAlongChain(old(tree[..]), tree[..], index + 1, value - old(vals[index]), size)
    {
      var diff := value - vals[index];
      vals[index] := value;
      Update(index + 1, diff);
    }

    /** `remove(index)`: shifts the entries after `index` down by one
        (a negative `index` counts back from `last_index + 1`), zeroes the
        old last slot and decrements `last_index`. An `index` past
        `last_index` only zeroes the last slot. When `last_index` has run
        one past the end of `array`, reading there raises part-way. On an
        empty tree the loop is empty, `array[-1]`, the last slot, is zeroed
        and `last_index` drops to -2. */
    method Remove(index: int) returns (out: Outcome)
      requires Valid()
      requires index >= 0 || lastIndex + index + 1 >= 0
      modifies this, tree, vals
      ensures tree == old(tree) && vals == old(vals) && size == old(size)
      ensures old(lastIndex) >= 0 ==> Valid()
      ensures old(lastIndex) == -1 ==>
        if vals.Length == 0 then out == Raised("IndexError") && lastIndex == -1
        else out == Done && lastIndex == -2 && vals[..] == old(vals[..])[vals.Length - 1 := 0]
      ensures var k := if index < 0 then old(lastIndex) + index + 1 else index;
        0 <= old(lastIndex) < vals.Length ==>
          out == Done && lastIndex == old(lastIndex) - 1 &&
          forall j :: 0 <= j < vals.Length ==>
            vals[j] == (if k <= j < old(lastIndex) then old(vals[j + 1])
                        else if j == old(lastIndex) then 0 else old(vals[j]))
      ensures var k := if index < 0 then old(lastIndex) + index + 1 else index;
        old(lastIndex) == vals.Length ==>
          out == Raised("IndexError") && lastIndex == old(lastIndex) &&
          forall j :: 0 <= j < vals.Length ==>
            vals[j] == (if k <= j < old(lastIndex) - 1 then old(vals[j + 1]) else old(vals[j]))
    {
      if lastIndex < 0 {
        if vals.Length == 0 {
          return Raised("IndexError");
        }
        vals[vals.Length - 1] := 0;
        lastIndex := -2;
        return Done;
      }
      var k := if index < 0 then lastIndex + index + 1 else index;
      var i := k;
      while i < lastIndex
        invariant lastIndex == old(lastIndex) && size == old(size)
        invariant tree == old(tree) && vals == old(vals)
        invariant k <= i && (i <= lastIndex || i == k) && (i < vals.Length || i == k)
        invariant forall j :: 0 <= j < vals.Length ==>
          vals[j] == (if k <= j < i then old(vals[j + 1]) else old(vals[j]))
        decreases lastIndex - i
      {
        if i + 1 >= vals.Length {
          return Raised("IndexError");
        }
        var diff := vals[i + 1] - vals[i];
        var r := i + LowBit(i);
        if r < size {
          tree[r] := tree[r] + diff;
        }
        tree[i] := tree[i] + diff;
        vals[i] := vals[i + 1];
        i := i + 1;
      }
      if lastIndex >= vals.Length {
        return Raised("IndexError");
      }
      vals[lastIndex] := 0;
      lastIndex := lastIndex - 1;
      return Done;
    }

    /** `insert(index, value)`: near the end of the tree (`index + 1 >=
        size`) Python's `list.insert` followed by `resize(2 * index)`,
        leaving `last_index` alone; at or past `last_index` an `append`;
        otherwise the entries from `index` shift up by one, the value lands
        at `index`, and the displaced last entry is kept only while the new
        `last_index` is below `size`. */
    method Insert(index: int, value: int) returns (out: Outcome)
      requires Valid()
      requires index + 1 >= size || index >= 0 || lastIndex + index + 1 >= 0
      modifies this, tree, vals
      ensures out == Done ==> Valid()
      ensures index + 1 >= old(size) ==>
        out == Done &&
        lastIndex == old(lastIndex) && size == 2 * index && vals.Length > old(vals.Length) &&
        vals[..] == InsertAt(old(vals[..]), index, value) + Zeros(vals.Length - old(vals.Length) - 1)
      ensures var k := if index < 0 then old(lastIndex) + index + 1 else index;
        index + 1 < old(size) && k >= old(lastIndex) ==>
          out == Done && lastIndex == old(lastIndex) + 1 &&
          vals.Length >= old(vals.Length) && lastIndex < vals.Length &&
          vals[..] == (old(vals[..]) + Zeros(vals.Length - old(vals.Length)))[lastIndex := value]
      ensures var k := if index < 0 then old(lastIndex) + index + 1 else index;
        var last := old(lastIndex) + 1;
        index + 1 < old(size) && k < old(lastIndex) ==>
          lastIndex == last && vals == old(vals) && size == old(size) &&
          (last <= vals.Length ==> out == Done) &&
          (last > vals.Length ==> out == Raised("IndexError")) &&
          forall j :: 0 <= j < vals.Length ==>
            vals[j] == (if j < k then old(vals[j]) else if j == k then value
                        else if j < last then old(vals[j - 1])
                        else if j == last && last < size then old(vals[j - 1])
                        else old(vals[j]))
    {
      if index + 1 >= size {
        out := Resize(InsertAt(vals[..], index, value), index * 2);
        return;
      }
      var k := if index < 0 then lastIndex + index + 1 else index;
      if k >= lastIndex {
        out := Append(value);
        return;
      }
      out := ShiftIn(k, value);
    }

    /** The middle case of `insert`: the entries from `k` move up by one
        slot and `value` lands at `k`. */
    method ShiftIn(k: int, value: int) returns (out: Outcome)
      requires Valid() && 0 <= k < lastIndex
      modifies this`lastIndex, tree, vals
      ensures out == Done ==> Valid()
      ensures var last := old(lastIndex) + 1;
        lastIndex == last &&
        (last <= vals.Length ==> out == Done) &&
        (last > vals.Length ==> out == Raised("IndexError")) &&
        forall j :: 0 <= j < vals.Length ==>
          vals[j] == (if j < k then old(vals[j]) else if j == k then value
                      else if j < last then old(vals[j - 1])
                      else if j == last && last < size then old(vals[j - 1])
                      else old(vals[j]))
    {
      out := Done;
      lastIndex := lastIndex + 1;
      var previous := value;
      var i := k;
      while i < lastIndex
        invariant lastIndex == old(lastIndex) + 1
        invariant 0 <= k <= i <= lastIndex && i <= vals.Length
        invariant previous == if i == k then value else old(vals[i - 1])
        invariant forall j :: 0 <= j < vals.Length ==>
          vals[j] == (if j == k && k < i then value
                      else if k < j < i then old(vals[j - 1]) else old(vals[j]))
      {
        if i >= vals.Length {
          return Raised("IndexError");
        }
        var diff := previous - vals[i];
        var r := i + LowBit(i);
        if r < size {
          tree[r] := tree[r] + diff;
        }
        tree[i] := tree[i] + diff;
        vals[i], previous := previous, vals[i];
        i := i + 1;
      }
      if lastIndex < size {
        vals[lastIndex] := previous;
        Update(lastIndex + 1, previous);
      }
    }
  }
}
