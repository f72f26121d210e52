/** The interval bookkeeping shared by the comment and tracked-change
    controllers (buffers/controllers/range.py and its older copy
    buffers/controllers/thread.py). The `intervaltree` library is modelled
    as a set of `(begin, end, data)` triples: equal triples collapse, null
    intervals (`begin >= end`) are refused, and its queries are the set
    comprehensions below. */
module Intervals {
  import opened Base

  /** The `data` an interval carries: none (selections and `doubled`), a
      comment thread id, or a tracked change's `(insertion, id)` pair. */
  datatype Payload = NoData | ThreadId(id: string) | Change(insertion: bool, changeId: Option<string>)

  datatype Interval = Interval(begin: int, end: int, data: Payload)

  predicate IsNull(x: Interval) { x.begin >= x.end }

  /** What an `IntervalTree` can hold: no null interval. */
  predicate Proper(t: set<Interval>)
  {
    forall x :: x in t ==> !IsNull(x)
  }

  /** `t[p]`. */
  function At(t: set<Interval>, p: int): set<Interval>
  {
    set x | x in t && x.begin <= p < x.end
  }

  /** `t[s:e]`. */
  function Overlap(t: set<Interval>, s: int, e: int): set<Interval>
  {
    if s >= e then {} else set x | x in t && x.begin < e && x.end > s
  }

  /** `t[a:]`. */
  function From(t: set<Interval>, a: int): set<Interval>
  {
    set x | x in t && x.end > a
  }

  /** `t[:b]`. */
  function Until(t: set<Interval>, b: int): set<Interval>
  {
    set x | x in t && x.begin < b
  }

  /** The intervals lying wholly after `o`, and wholly at or before `o`. */
  function After(t: set<Interval>, o: int): set<Interval>
  {
    set x | x in t && x.begin > o
  }

  function Before(t: set<Interval>, o: int): set<Interval>
  {
    set x | x in t && x.end <= o
  }

  /** In a proper tree, `t[o+1:] - t[o]` is the set of intervals beginning
      after `o`, and `t[:o] - t[o]` the set of those ending at or before
      `o`. */
  lemma NavigationSets(t: set<Interval>, o: int)
    ensures Proper(t) ==> From(t, o + 1) - At(t, o) == After(t, o)
    ensures Proper(t) ==> Until(t, o) - At(t, o) == Before(t, o)
  {
  }

  lemma SubsetSize<T>(a: set<T>, b: set<T>)
    requires a <= b
    ensures |a| <= |b|
  {
    if a != {} {
      var x :| x in a;
      SubsetSize(a - {x}, b - {x});
    }
  }

  /** `min(s).begin`. */
  function MinBegin(s: set<Interval>): (b: int)
    requires s != {}
    ensures exists x :: x in s && x.begin == b
    ensures forall x :: x in s ==> b <= x.begin
  {
    var x :| x in s;
    if s == {x} then x.begin
    else
      var rest := MinBegin(s - {x});
      if x.begin <= rest then x.begin else rest
  }

  /** `max(s).begin`. */
  function MaxBegin(s: set<Interval>): (b: int)
    requires s != {}
    ensures exists x :: x in s && x.begin == b
    ensures forall x :: x in s ==> x.begin <= b
  {
    var x :| x in s;
    if s == {x} then x.begin
    else
      var rest := MaxBegin(s - {x});
      if x.begin >= rest then x.begin else rest
  }

  /** A navigation answer: a begin offset and a count, or `((-1, -1), 0)`. */
  datatype Nav = Found(begin: int, count: int) | NotFound

  /** `getNextPosition(offset)`. */
  function NextPosition(t: set<Interval>, o: int): (r: Nav)
    ensures Proper(t) && After(t, o) != {} ==>
      r == Found(MinBegin(After(t, o)), |t| - |After(t, o)| + 1)
    ensures Proper(t) && After(t, o) == {} && Before(t, o) != {} ==>
      r == Found(MinBegin(Before(t, o)), 1)
    ensures Proper(t) && After(t, o) == {} && Before(t, o) == {} ==> r == NotFound
  {
    NavigationSets(t, o);
    var positions := From(t, o + 1) - At(t, o);
    if positions != {} then Found(MinBegin(positions), |t| - |positions| + 1)
    else
      var wrapped := Until(t, o) - At(t, o);
      if wrapped != {} then Found(MinBegin(wrapped), 1) else NotFound
  }

  /** `getPrevPosition(offset)`. */
  function PrevPosition(t: set<Interval>, o: int): (r: Nav)
    ensures Proper(t) && Before(t, o) != {} ==>
      r == Found(MaxBegin(Before(t, o)), |Before(t, o)|)
    ensures Proper(t) && Before(t, o) == {} && After(t, o) != {} ==>
      r == Found(MaxBegin(After(t, o)), 1)
    ensures Proper(t) && Before(t, o) == {} && After(t, o) == {} ==> r == NotFound
  {
    NavigationSets(t, o);
    var positions := Until(t, o) - At(t, o);
    if positions != {} then Found(MaxBegin(positions), |positions|)
    else
      var wrapped := From(t, o + 1) - At(t, o);
      if wrapped != {} then Found(MaxBegin(wrapped), 1) else NotFound
  }

  /** Navigation never lands on an interval holding the cursor: the answer
      is the begin of an interval that does not contain `o`, the nearest
      such begin after `o` (else the first one before it), and the count is
      between 1 and the number of intervals. */
  lemma NextPositionSkipsCursor(t: set<Interval>, o: int)
    requires Proper(t)
    ensures var r := NextPosition(t, o);
      r.Found? ==>
        (exists x :: x in t && x.begin == r.begin && !(x.begin <= o < x.end)) &&
        1 <= r.count <= |t| &&
        (r.begin > o || After(t, o) == {})
    ensures NextPosition(t, o) == NotFound <==> forall x :: x in t ==> x.begin <= o < x.end
  {
    var a, b := After(t, o), Before(t, o);
    SubsetSize(a, t);
    SubsetSize(b, t);
    if a != {} {
      var x :| x in a;
    } else if b != {} {
      var x :| x in b;
    }
    if NextPosition(t, o) == NotFound {
      forall x | x in t ensures x.begin <= o < x.end {
        assert x !in a && x !in b;
      }
    }
  }

  /** The mirror image for `getPrevPosition`. */
  lemma PrevPositionSkipsCursor(t: set<Interval>, o: int)
    requires Proper(t)
    ensures var r := PrevPosition(t, o);
      r.Found? ==>
        (exists x :: x in t && x.begin == r.begin && !(x.begin <= o < x.end)) &&
        1 <= r.count <= |t| &&
        (r.begin < o || Before(t, o) == {})
    ensures PrevPosition(t, o) == NotFound <==> forall x :: x in t ==> x.begin <= o < x.end
  {
    var a, b := After(t, o), Before(t, o);
    SubsetSize(a, t);
    SubsetSize(b, t);
    if b != {} {
      var x :| x in b;
    } else if a != {} {
      var x :| x in a;
    }
    if PrevPosition(t, o) == NotFound {
      forall x | x in t ensures x.begin <= o < x.end {
        assert x !in a && x !in b;
      }
    }
  }

  /** The payload-free intersection of two intervals. */
  function Meet(x: Interval, y: Interval): Interval
  {
    Interval(Max(x.begin, y.begin), Min(x.end, y.end), NoData)
  }

  /** The value of the `doubled` property. */
  function DoubledSpec(t: set<Interval>): set<Interval>
  {
    set x, y | x in t && y in Overlap(t, x.begin, x.end) && y != x :: Meet(x, y)
  }

  /** `doubled`: for every stored interval, the intersections with each
      other interval it overlaps. */
  method Doubled(t: set<Interval>) returns (r: set<Interval>)
    ensures r == DoubledSpec(t)
  {
    r := {};
    var outer := t;
    while outer != {}
      invariant outer <= t
      invariant r == set x, y | x in t - outer && y in Overlap(t, x.begin, x.end) && y != x :: Meet(x, y)
      decreases |outer|
    {
      var x :| x in outer;
      var overlaps := Overlap(t, x.begin, x.end);
      ghost var before := r;
      var inner := overlaps;
      while inner != {}
        invariant inner <= overlaps
        invariant r == before + set y | y in overlaps - inner && y != x :: Meet(x, y)
        decreases |inner|
      {
        var y :| y in inner;
        if y != x {
          r := r + {Meet(x, y)};
        }
        inner := inner - {y};
      }
      outer := outer - {x};
    }
  }

  /** In a proper tree, `doubled` holds exactly the intersections of the
      pairs of distinct stored intervals that overlap; each is non-empty and
      lies within both. */
  lemma DoubledMeaning(t: set<Interval>, z: Interval)
    requires Proper(t)
    ensures z in DoubledSpec(t) <==>
      exists x, y :: x in t && y in t && x != y && y.begin < x.end && x.begin < y.end && z == Meet(x, y)
    ensures z in DoubledSpec(t) ==> !IsNull(z) && z.data == NoData
  {
  }

  /** Intervals that pairwise share no offset give no `doubled` range. */
  lemma DoubledOfDisjoint(t: set<Interval>)
    requires Proper(t)
    requires forall x, y :: x in t && y in t && x != y ==> x.end <= y.begin || y.end <= x.begin
    ensures DoubledSpec(t) == {}
  {
  }

  /** `{[0,20), [10,30)}` doubles exactly on `[10,20)`. */
  lemma DoubledExample(a: Payload, b: Payload)
    ensures DoubledSpec({Interval(0, 20, a), Interval(10, 30, b)}) == {Interval(10, 20, NoData)}
  {
    var t := {Interval(0, 20, a), Interval(10, 30, b)};
    assert Meet(Interval(0, 20, a), Interval(10, 30, b)) == Interval(10, 20, NoData);
    assert Interval(10, 30, b) in Overlap(t, 0, 20);
  }

  /** `x` moved by `d`. */
  function Moved(x: Interval, d: int): Interval
  {
    Interval(x.begin + d, x.end + d, x.data)
  }

  function MoveAll(s: set<Interval>, d: int): set<Interval>
  {
    set x | x in s :: Moved(x, d)
  }

  /** No moved copy coincides with another interval that still has to move. */
  predicate NoCollision(f: set<Interval>, d: int)
  {
    forall x :: x in f ==> Moved(x, d) !in f
  }

  /** The outcome of moving each interval of `f` by `d` within `t`, one at
      a time in any order: intervals outside `f` stay, and the moved copies
      arrive, except that a moved copy equal to an interval of `f` still
      waiting to move is removed again when that interval moves. */
  predicate MovedWithin(t: set<Interval>, f: set<Interval>, d: int, r: set<Interval>)
  {
    r - (t - f) <= MoveAll(f, d) &&
    t - f <= r &&
    MoveAll(f, d) - f <= r &&
    r <= (t - f) + MoveAll(f, d)
  }

  /** One turn of the moving loop keeps its invariant: `done` have moved,
      `rest` still wait, and `q` holds the moved copies still present. */
  lemma MoveStep(t: set<Interval>, f: set<Interval>, d: int,
                 rest: set<Interval>, q: set<Interval>, x: Interval)
    requires rest <= f && x in rest
    requires q <= MoveAll(f - rest, d)
    requires MoveAll(f - rest, d) - f <= q
    ensures ((t - f) + rest + q) - {x} + {Moved(x, d)} ==
            (t - f) + (rest - {x}) + ((q - {x}) + {Moved(x, d)})
    ensures (q - {x}) + {Moved(x, d)} <= MoveAll(f - (rest - {x}), d)
    ensures MoveAll(f - (rest - {x}), d) - f <= (q - {x}) + {Moved(x, d)}
  {
    assert f - (rest - {x}) == (f - rest) + {x};
    assert MoveAll(f - (rest - {x}), d) == MoveAll(f - rest, d) + {Moved(x, d)};
  }

  /** The second loop of `_remove`/`_insert`: each interval of `f` is
      removed and re-added moved by `d`. Set iteration order is not fixed,
      so the loop takes the intervals in any order. */
  method MoveEach(t: set<Interval>, f: set<Interval>, d: int) returns (r: set<Interval>)
    requires f <= t
    ensures MovedWithin(t, f, d, r)
    ensures NoCollision(f, d) ==> r == (t - f) + MoveAll(f, d)
  {
    r := t;
    var rest := f;
    ghost var q: set<Interval> := {};
    assert f - rest == {};
    while rest != {}
      invariant rest <= f
      invariant r == (t - f) + rest + q
      invariant q <= MoveAll(f - rest, d)
      invariant MoveAll(f - rest, d) - f <= q
      decreases |rest|
    {
      var x :| x in rest;
      MoveStep(t, f, d, rest, q, x);
      r := r - {x} + {Moved(x, d)};
      q := (q - {x}) + {Moved(x, d)};
      rest := rest - {x};
    }
    assert f - rest == f;
    MoveDone(t, f, d, q);
  }

  /** When every interval of `f` has been taken, the loop's invariant gives
      the outcome. */
  lemma MoveDone(t: set<Interval>, f: set<Interval>, d: int, q: set<Interval>)
    requires q <= MoveAll(f, d) && MoveAll(f, d) - f <= q
    ensures MovedWithin(t, f, d, (t - f) + q)
    ensures NoCollision(f, d) ==> (t - f) + q == (t - f) + MoveAll(f, d)
  {
    if NoCollision(f, d) {
      assert MoveAll(f, d) - f == MoveAll(f, d);
    }
  }

  /** Putting the reshaped intervals back after the moving loop gives the
      exact outcome up to collisions, and keeps the tree proper. */
  lemma Assemble(base: set<Interval>, f: set<Interval>, d: int, cur: set<Interval>, extra: set<Interval>)
    requires f <= base
    requires MovedWithin(base, f, d, cur)
    requires NoCollision(f, d) ==> cur == (base - f) + MoveAll(f, d)
    ensures cur + extra <= (base - f) + MoveAll(f, d) + extra
    ensures ((base - f) + MoveAll(f, d) + extra) - (cur + extra) <= MoveAll(f, d) * f
    ensures NoCollision(f, d) ==> cur + extra == (base - f) + MoveAll(f, d) + extra
    ensures Proper(base) && Proper(extra) ==> Proper(cur + extra)
  {
    if Proper(base) {
      forall y | y in cur ensures !IsNull(y) {
        if y !in base - f {
          var x :| x in f && y == Moved(x, d);
        }
      }
    }
  }

  /** How `_remove(start, end)` reshapes an interval it overlaps: it starts
      at `min(begin, start)` and stops at `start` when the deletion covers
      its end, else `end - start` earlier; an empty result is widened to
      one character. */
  function Shrunk(x: Interval, start: int, end: int): (y: Interval)
    ensures !IsNull(y) && y.data == x.data
  {
    var begin := x.begin + Min(start - x.begin, 0);
    var stop := if end >= x.end then start else x.end - (end - start);
    Interval(begin, if begin >= stop then begin + 1 else stop, x.data)
  }

  /** The intervals `_remove(start, end)` reshapes, and those it moves. */
  function RemoveHit(t: set<Interval>, start: int, end: int): set<Interval>
  {
    Overlap(t, start, end + 1)
  }

  function RemoveMoving(t: set<Interval>, start: int, end: int): set<Interval>
  {
    From(t - RemoveHit(t, start, end), end + 1)
  }

  /** `_remove(start, end)` when no moved copy collides. */
  function RemoveExact(t: set<Interval>, start: int, end: int): set<Interval>
  {
    var hit := RemoveHit(t, start, end);
    var moving := RemoveMoving(t, start, end);
    ((t - hit) - moving) + MoveAll(moving, start - end) + set x | x in hit :: Shrunk(x, start, end)
  }

  /** What `_remove(start, end)` may leave, whatever order the tree is
      walked in: the exact outcome, less only moved copies that coincide
      with another moving interval, and exactly it when none coincide; a
      proper tree stays proper. */
  predicate RemovedBy(t: set<Interval>, start: int, end: int, r: set<Interval>)
  {
    var moving := RemoveMoving(t, start, end);
    r <= RemoveExact(t, start, end) &&
    RemoveExact(t, start, end) - r <= MoveAll(moving, start - end) * moving &&
    (NoCollision(moving, start - end) ==> r == RemoveExact(t, start, end)) &&
    (Proper(t) ==> Proper(r))
  }

  /** `_remove(start, end)`: the overlapped intervals are taken out and
      reshaped, the ones after the deletion move back by its length, and
      the reshaped ones go back in. */
  method RemoveSpan(t: set<Interval>, start: int, end: int) returns (r: set<Interval>)
    ensures RemovedBy(t, start, end, r)
  {
    var delta := end - start;
    var hit := Overlap(t, start, end + 1);
    var overlap := {};
    var cur := t;
    var rest := hit;
    while rest != {}
      invariant rest <= hit
      invariant cur == t - (hit - rest)
      invariant overlap == set x | x in hit - rest :: Shrunk(x, start, end)
      decreases |rest|
    {
      var x :| x in rest;
      cur := cur - {x};
      overlap := overlap + {Shrunk(x, start, end)};
      rest := rest - {x};
    }
    assert hit - rest == hit;
    ghost var base := cur;
    cur := MoveEach(cur, From(cur, end + 1), -delta);
    Assemble(base, From(base, end + 1), -delta, cur, overlap);
    r := cur + overlap;
  }

  /** The three rules of `_remove(s, e)` on a proper tree, with `s <= e`:
      an interval ending at or before `s` stays; one beginning after `e`
      moves back by `e - s`; any other is reshaped by `Shrunk`, which
      starts it at `min(begin, s)` and stops it at `s` (when `end <= e`) or
      `end - (e - s)`, but at least one character after its start. Nothing
      else appears. */
  lemma RemoveRules(t: set<Interval>, s: int, e: int)
    requires Proper(t) && s <= e
    ensures forall x :: x in t && x.end <= s ==> x in RemoveExact(t, s, e)
    ensures forall x :: x in t && x.begin > e ==> Moved(x, s - e) in RemoveExact(t, s, e)
    ensures forall x :: x in t && x.end > s && x.begin <= e ==>
      Shrunk(x, s, e) in RemoveExact(t, s, e) &&
      Shrunk(x, s, e).begin == Min(x.begin, s) &&
      Shrunk(x, s, e).end == Max(if x.end <= e then s else x.end - (e - s), Min(x.begin, s) + 1)
    ensures forall y :: y in RemoveExact(t, s, e) ==>
      exists x :: x in t && ((x.end <= s && y == x) || (x.begin > e && y == Moved(x, s - e)) ||
       (x.end > s && x.begin <= e && y == Shrunk(x, s, e)))
  {
    var hit := RemoveHit(t, s, e);
    var moving := RemoveMoving(t, s, e);
    assert forall x :: x in t ==> (x in hit <==> x.end > s && x.begin <= e);
    assert forall x :: x in t ==> (x in moving <==> x.begin > e);
  }

  /** How `_insert(start, end)` stretches an interval holding `start`. */
  function Stretched(x: Interval, d: int): Interval
  {
    Interval(x.begin, x.end + d, x.data)
  }

  function InsertMoving(t: set<Interval>, start: int): set<Interval>
  {
    From(t - At(t, start), start + 1)
  }

  /** `_insert(start, end)` when no moved copy collides. */
  function InsertExact(t: set<Interval>, start: int, end: int): set<Interval>
  {
    var hit := At(t, start);
    var moving := InsertMoving(t, start);
    ((t - hit) - moving) + MoveAll(moving, end - start) + set x | x in hit :: Stretched(x, end - start)
  }

  /** What `_insert(start, end)` may leave, in the same sense as
      `RemovedBy`. */
  predicate InsertedBy(t: set<Interval>, start: int, end: int, r: set<Interval>)
  {
    var moving := InsertMoving(t, start);
    r <= InsertExact(t, start, end) &&
    InsertExact(t, start, end) - r <= MoveAll(moving, end - start) * moving &&
    (NoCollision(moving, end - start) ==> r == InsertExact(t, start, end)) &&
    (Proper(t) && start <= end ==> Proper(r))
  }

  /** `_insert(start, end)`: the intervals holding `start` are stretched by
      the insertion's length, and the ones after it move forward. */
  method InsertSpan(t: set<Interval>, start: int, end: int) returns (r: set<Interval>)
    ensures InsertedBy(t, start, end, r)
  {
    var delta := end - start;
    var hit := At(t, start);
    var overlap := {};
    var cur := t;
    var rest := hit;
    while rest != {}
      invariant rest <= hit
      invariant cur == t - (hit - rest)
      invariant overlap == set x | x in hit - rest :: Stretched(x, delta)
      decreases |rest|
    {
      var x :| x in rest;
      cur := cur - {x};
      overlap := overlap + {Stretched(x, delta)};
      rest := rest - {x};
    }
    assert hit - rest == hit;
    ghost var base := cur;
    cur := MoveEach(cur, From(cur, start + 1), delta);
    Assemble(base, From(base, start + 1), delta, cur, overlap);
    r := cur + overlap;
  }

  /** The rules of `_insert(s, e)` on a proper tree: an interval with
      `begin <= s < end` grows to `[begin, end + (e - s))`, one beginning
      after `s` moves forward by `e - s`, one ending at or before `s`
      stays. Nothing else appears. */
  lemma InsertRules(t: set<Interval>, s: int, e: int)
    requires Proper(t)
    ensures forall x :: x in t && x.begin <= s < x.end ==>
      Interval(x.begin, x.end + (e - s), x.data) in InsertExact(t, s, e)
    ensures forall x :: x in t && x.begin > s ==> Moved(x, e - s) in InsertExact(t, s, e)
    ensures forall x :: x in t && x.end <= s ==> x in InsertExact(t, s, e)
    ensures forall y :: y in InsertExact(t, s, e) ==>
      exists x :: x in t && ((x.end <= s && y == x) || (x.begin > s && y == Moved(x, e - s)) ||
       (x.begin <= s < x.end && y == Interval(x.begin, x.end + (e - s), x.data)))
  {
    var hit := At(t, s);
    var moving := InsertMoving(t, s);
    assert forall x :: x in t ==> (x in moving <==> x.begin > s);
  }

  /** The payloads of a set of intervals, one per interval (`[r.data for r
      in ...]`, whose order follows the tree's iteration order). */
  ghost function Payloads(s: set<Interval>): (m: multiset<Payload>)
    ensures |m| == |s|
    ensures forall d :: d in m <==> exists x :: x in s && x.data == d
  {
    if s == {} then multiset{}
    else
      var x :| x in s;
      multiset{x.data} + Payloads(s - {x})
  }
}
