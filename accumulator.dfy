/** `NaiveAccumulator` from lib/range.py: a list of per-line lengths whose
    prefix sums turn a (row, column) pair into a character offset
    (`position`) and back (`search`). */
module Accumulator {
  import opened Base
  import opened PySeq

  /** `na[index]`: the sum of the entries before `index`, with Python's
      treatment of a negative index (first `len + index`, then slicing). */
  function Cumulative(entries: seq<int>, lastIndex: int, index: int): (r: int)
    ensures lastIndex == |entries| - 1 && 0 <= index ==>
      r == Sum(entries[..Min(index, |entries|)])
    ensures lastIndex == |entries| - 1 && 0 - |entries| <= index < 0 ==>
      r == Sum(entries[..|entries| + index])
  {
    var k := if index < 0 then |entries| + index else index;
    Sum(Take(entries, Min(k, lastIndex + 1)))
  }

  /** The loop of `search` from entry `i` on, with running total `t`. */
  function SearchFrom(entries: seq<int>, lastIndex: int, v: int, i: nat, t: int): (int, int)
    decreases |entries| - i
  {
    if i >= |entries| then (lastIndex, 0)
    else if t + entries[i] >= v then (i, v - t)
    else SearchFrom(entries, lastIndex, v, i + 1, t + entries[i])
  }

  /** `search(v)`: the (row, column) an offset `v` falls in. */
  function Locate(entries: seq<int>, lastIndex: int, v: int): (int, int)
  {
    SearchFrom(entries, lastIndex, v, 0, 0)
  }

  /** The first row whose running total reaches `v`. */
  predicate Reaches(entries: seq<int>, v: int, row: int)
  {
    0 <= row < |entries| && Sum(entries[..row + 1]) >= v
  }

  lemma {:induction false} SearchFromFirst(entries: seq<int>, lastIndex: int, v: int, i: nat)
    requires i <= |entries|
    requires forall j :: 0 <= j < i ==> !Reaches(entries, v, j)
    ensures var (row, col) := SearchFrom(entries, lastIndex, v, i, Sum(entries[..i]));
      ((exists j :: Reaches(entries, v, j)) ==>
         Reaches(entries, v, row) && col == v - Sum(entries[..row]) &&
         forall j :: 0 <= j < row ==> !Reaches(entries, v, j)) &&
      ((forall j :: !Reaches(entries, v, j)) ==> row == lastIndex && col == 0)
    decreases |entries| - i
  {
    if i < |entries| {
      SumPrefixStep(entries, i);
      if Sum(entries[..i]) + entries[i] < v {
        SearchFromFirst(entries, lastIndex, v, i + 1);
      } else {
        assert Reaches(entries, v, i);
      }
    } else {
      assert forall j :: !Reaches(entries, v, j);
    }
  }

  /** `search(v)` reports the first row whose running total reaches `v`,
      with `v` minus the total before that row as the column; when no row
      reaches `v` it reports `(last_index, 0)`. */
  lemma LocateFirst(entries: seq<int>, lastIndex: int, v: int)
    ensures var (row, col) := Locate(entries, lastIndex, v);
      ((exists j :: Reaches(entries, v, j)) ==>
         Reaches(entries, v, row) && col == v - Sum(entries[..row]) &&
         forall j :: 0 <= j < row ==> !Reaches(entries, v, j)) &&
      ((forall j :: !Reaches(entries, v, j)) ==> row == lastIndex && col == 0)
  {
    SearchFromFirst(entries, lastIndex, v, 0);
  }

  predicate NonNegative(entries: seq<int>)
  {
    forall k :: 0 <= k < |entries| ==> entries[k] >= 0
  }

  /** With non-negative line lengths and a non-negative offset, the column
      `search` reports lies within the row it reports. */
  lemma LocateColumnInRow(entries: seq<int>, lastIndex: int, v: int)
    requires NonNegative(entries) && v >= 0
    requires exists j :: Reaches(entries, v, j)
    ensures var (row, col) := Locate(entries, lastIndex, v);
      0 <= row < |entries| && 0 <= col <= entries[row]
  {
    LocateFirst(entries, lastIndex, v);
    var (row, col) := Locate(entries, lastIndex, v);
    SumPrefixStep(entries, row);
    if row > 0 {
      assert !Reaches(entries, v, row - 1);
    }
  }

  /** `search` inverts `position`: an offset `position(row, col)` with
      `0 < col <= array[row]` (or the origin) is reported as `(row, col)`;
      in particular an offset at the end of a row reports that row with
      `col == array[row]`. */
  lemma LocatePosition(entries: seq<int>, row: int, col: int)
    requires NonNegative(entries)
    requires 0 <= row < |entries|
    requires 0 < col <= entries[row] || (row == 0 && col == 0)
    ensures Locate(entries, |entries| - 1, Cumulative(entries, |entries| - 1, row) + col) == (row, col)
  {
    var last := |entries| - 1;
    var v := Cumulative(entries, last, row) + col;
    assert v == Sum(entries[..row]) + col;
    SumPrefixStep(entries, row);
    assert Reaches(entries, v, row);
    LocateFirst(entries, last, v);
    var (r, c) := Locate(entries, last, v);
    if r < row {
      SumPrefixMonotone(entries, r + 1, row);
    }
  }

  /** An offset at the very start of row `row > 0` is reported as the end of
      the previous row (`search` compares with `>=`). */
  lemma LocateRowStart(entries: seq<int>, row: int)
    requires NonNegative(entries)
    requires 0 < row < |entries| && entries[row - 1] > 0
    ensures Locate(entries, |entries| - 1, Cumulative(entries, |entries| - 1, row)) == (row - 1, entries[row - 1])
  {
    SumPrefixStep(entries, row - 1);
    LocatePosition(entries, row - 1, entries[row - 1]);
  }

  class NaiveAccumulator {
    /** The per-line entries (`array` in the source). */
    var entries: seq<int>
    var lastIndex: int

    ghost predicate Valid()
      reads this
    {
      lastIndex == |entries| - 1
    }

    /** `NaiveAccumulator(base)`. */
    constructor (base: seq<int>)
      ensures entries == base + [0] && lastIndex == |base|
      ensures Valid()
    {
      entries := [0];
      lastIndex := 0;
      new;
      Initialize(base);
    }

    /** `initialize(a)`: the entries become `a` followed by a single zero. */
    method Initialize(a: seq<int>)
      modifies this
      ensures entries == a + [0] && lastIndex == |a|
      ensures Valid()
    {
      entries := [0];
      lastIndex := 0;
      var i := 0;
      while i < |a|
        invariant 0 <= i <= |a|
        invariant entries == a[..i] + [0] && lastIndex == i
      {
        Insert(i, a[i]);
        assert a[..i + 1] == a[..i] + [a[i]];
        i := i + 1;
      }
      assert a[..i] == a;
    }

    /** `insert(index, value)`: Python's `list.insert`, then one more entry. */
    method Insert(index: int, value: int)
      modifies this
      ensures entries == InsertAt(old(entries), index, value)
      ensures lastIndex == old(lastIndex) + 1
      ensures old(Valid()) ==> Valid()
    {
      entries := InsertAt(entries, index, value);
      lastIndex := lastIndex + 1;
    }

    /** `na[index]` and `get_cumulative_value(index)`. */
    function Get(index: int): int
      reads this
    {
      Cumulative(entries, lastIndex, index)
    }

    /** `position(row, col)`. */
    function Position(row: int, col: int): int
      reads this
    {
      Get(row) + col
    }

    /** `remove(index)` and `del na[index]`: deletes one entry, counting a
        negative index from the end; an index out of range raises. */
    method Remove(index: int) returns (out: Outcome)
      modifies this
      ensures var k := if index < 0 then |old(entries)| + index else index;
        match PyIndex(|old(entries)|, k)
        case None =>
          out == Raised("IndexError") && entries == old(entries) && lastIndex == old(lastIndex)
        case Some(p) =>
          out == Done && entries == old(entries[..p] + entries[p + 1..]) &&
          lastIndex == old(lastIndex) - 1
      ensures old(Valid()) ==> Valid()
    {
      var k := if index < 0 then |entries| + index else index;
      match PyIndex(|entries|, k)
      case None =>
        return Raised("IndexError");
      case Some(p) =>
        entries := entries[p := 0];
        entries := entries[..p] + entries[p + 1..];
        lastIndex := lastIndex - 1;
        return Done;
    }

    /** `update(index, diff)`: adds `diff` to an existing entry, or appends
        `diff` when `index` lies beyond the last entry. */
    method Update(index: int, diff: int) returns (out: Outcome)
      modifies this
      ensures index > old(lastIndex) ==>
        out == Done && entries == old(entries) + [diff] && lastIndex == old(lastIndex) + 1
      ensures index <= old(lastIndex) ==>
        match PyIndex(|old(entries)|, index)
        case None => out == Raised("IndexError") && entries == old(entries) && lastIndex == old(lastIndex)
        case Some(p) => out == Done && entries == old(entries)[p := old(entries)[p] + diff] &&
                        lastIndex == old(lastIndex)
      ensures old(Valid()) ==> Valid()
    {
      if index > lastIndex {
        entries := entries + [diff];
        lastIndex := lastIndex + 1;
        return Done;
      }
      match PyIndex(|entries|, index)
      case None =>
        return Raised("IndexError");
      case Some(p) =>
        entries := entries[p := entries[p] + diff];
        return Done;
    }

    /** `na[index] = value`: overwrites an existing entry, or appends when
        `index` lies beyond the last entry. */
    method SetItem(index: int, value: int) returns (out: Outcome)
      modifies this
      ensures index > old(lastIndex) ==>
        out == Done && entries == old(entries) + [value] && lastIndex == old(lastIndex) + 1
      ensures index <= old(lastIndex) ==>
        match PyIndex(|old(entries)|, index)
        case None => out == Raised("IndexError") && entries == old(entries) && lastIndex == old(lastIndex)
        case Some(p) => out == Done && entries == old(entries)[p := value] && lastIndex == old(lastIndex)
      ensures old(Valid()) ==> Valid()
    {
      if index > lastIndex {
        entries := entries + [value];
        lastIndex := lastIndex + 1;
        return Done;
      }
      match PyIndex(|entries|, index)
      case None =>
        return Raised("IndexError");
      case Some(p) =>
        entries := entries[p := value];
        return Done;
    }

    /** `search(v)`. */
    method Search(v: int) returns (row: int, col: int)
      ensures (row, col) == Locate(entries, lastIndex, v)
    {
      var t := 0;
      var i := 0;
      while i < |entries|
        invariant 0 <= i <= |entries|
        invariant SearchFrom(entries, lastIndex, v, i, t) == Locate(entries, lastIndex, v)
      {
        if t + entries[i] >= v {
          return i, v - t;
        }
        t := t + entries[i];
        i := i + 1;
      }
      return lastIndex, 0;
    }

    /** The `arr` property: the entries up to `last_index`. */
    function Arr(): (r: seq<int>)
      reads this
      ensures Valid() ==> r == entries
    {
      Take(entries, lastIndex + 1)
    }
  }
}
