/** The value-level pieces shared by the comment and tracked-change
    controllers: where `create` anchors a new interval, which comments it
    accepts, which spans an op shifts, and the tracked-change records of
    `Changes.applyOp`. */
module Tracker {
  import opened Base
  import opened Ops
  import opened Intervals

  /** Editor coordinates `(start_line, start_col, end_line, end_col)`. */
  datatype Coords = Coords(startLine: int, startCol: int, endLine: int, endCol: int)

  /** The offsets `create` stores and the coordinates it reports. */
  datatype Anchored = Anchored(begin: int, end: int, coords: Coords)

  /** Where `create` anchors a comment or change of `n` characters at `p`.
      `q` is what `text.query(p, p + n)` reports and `lastCol` is
      `text.lines[end_line] - text.lines[end_line - 1] - 1`. An empty span
      is widened to the two characters around `p`. */
  function Anchor(p: int, n: nat, q: Coords, lastCol: int): (a: Anchored)
    ensures a.begin <= p < a.end
    ensures n > 0 ==> a.end - a.begin == n && a.coords == q
    ensures n == 0 ==>
      a.end - a.begin == 2 &&
      a.coords.startLine == q.startLine && a.coords.endLine == q.endLine &&
      0 <= a.coords.startCol <= Max(q.startCol - 1, 0) &&
      a.coords.endCol <= lastCol && a.coords.endCol <= q.endCol + 1
  {
    if n == 0 then
      Anchored(p - 1, p + 1, Coords(q.startLine, Max(q.startCol - 1, 0), q.endLine, Min(q.endCol + 1, lastCol)))
    else
      Anchored(p, p + n, q)
  }

  /** The `thread` argument of `Threads.create`: its `id`, `op.p` and
      `op.c`. */
  datatype ThreadRef = ThreadRef(id: Option<string>, p: int, c: string)

  /** The `changes` argument of `Changes.create`: its `id`, `op.p` and the
      optional `op.i`. */
  datatype ChangeRef = ChangeRef(id: Option<string>, p: int, i: Option<string>)

  /** The `comments` map sent by the server, keyed by thread id. An entry
      is `None` when its object is empty, else whether it is resolved (a
      missing `resolved` key reads as false). */
  type CommentMap = map<string, Option<bool>>

  /** Whether `Threads.create` anchors the thread: the comments are
      non-empty, the thread is listed with a non-empty object, and it is
      not resolved. */
  predicate ThreadShown(comments: Option<CommentMap>, id: Option<string>)
  {
    comments.Some? && comments.value != map[] &&
    id.Some? && id.value in comments.value && comments.value[id.value] == Some(false)
  }

  /** A comment thread as `applyOp` stores it in `data`. */
  datatype ThreadRecord = ThreadRecord(id: string, metadata: Meta, op: Op)

  /** The span `_remove` receives for the deletion of an op. */
  function DeletedSpan(op: Op): Option<(int, int)>
  {
    if op.d.Some? then Some((op.p, op.p + |op.d.value|)) else None
  }

  /** The span `_insert` receives for the insertion of an op, in
      `Threads.applyOp`. */
  function InsertedSpan(op: Op): Option<(int, int)>
  {
    if op.i.Some? then Some((op.p, op.p + |op.i.value|)) else None
  }

  /** The span `Changes.applyOp` passes instead: `_insert(start, start +
      end)` where `end` is already `p + len(i)`. */
  function InsertedSpanAsWritten(op: Op): Option<(int, int)>
  {
    if op.i.Some? then Some((op.p, op.p + (op.p + |op.i.value|))) else None
  }

  /** The tree after an op's deletion span (if any) and then its insertion
      span (if any). */
  ghost predicate EditedBy(t: set<Interval>, del: Option<(int, int)>, ins: Option<(int, int)>, r: set<Interval>)
  {
    match (del, ins)
    case (None, None) => r == t
    case (Some(d), None) => RemovedBy(t, d.0, d.1, r)
    case (None, Some(i)) => InsertedBy(t, i.0, i.1, r)
    case (Some(d), Some(i)) => exists m :: RemovedBy(t, d.0, d.1, m) && InsertedBy(m, i.0, i.1, r)
  }

  /** `_remove` on the deletion span, then `_insert` on the insertion
      span, as the `applyOp` methods do. */
  method ApplyEdits(t: set<Interval>, del: Option<(int, int)>, ins: Option<(int, int)>) returns (r: set<Interval>)
    ensures EditedBy(t, del, ins, r)
  {
    r := t;
    if del.Some? {
      r := RemoveSpan(r, del.value.0, del.value.1);
    }
    ghost var mid := r;
    if ins.Some? {
      r := InsertSpan(r, ins.value.0, ins.value.1);
    }
    if del.Some? && ins.Some? {
      assert RemovedBy(t, del.value.0, del.value.1, mid);
    }
  }

  /** An op's edits keep a proper tree proper, given that an insertion
      span does not run backwards. */
  lemma EditedKeepsProper(t: set<Interval>, del: Option<(int, int)>, ins: Option<(int, int)>, r: set<Interval>)
    requires EditedBy(t, del, ins, r) && Proper(t)
    requires ins.Some? ==> ins.value.0 <= ins.value.1
    ensures Proper(r)
  {
    if del.Some? && ins.Some? {
      var m :| RemovedBy(t, del.value.0, del.value.1, m) && InsertedBy(m, ins.value.0, ins.value.1, r);
    }
  }

  /** The shift `_insert` applies to intervals after the insertion point:
      as written in `Changes.applyOp`, an insertion of 2 characters at 5
      moves `[6, 8)` by 7, where the same insertion in `Threads.applyOp`
      moves it by 2. */
  lemma ChangeInsertOvershoots(d: Payload)
    ensures var op := Insertion(5, "ab");
      InsertExact({Interval(6, 8, d)}, InsertedSpanAsWritten(op).value.0, InsertedSpanAsWritten(op).value.1) ==
        {Interval(13, 15, d)}
    ensures var op := Insertion(5, "ab");
      InsertExact({Interval(6, 8, d)}, InsertedSpan(op).value.0, InsertedSpan(op).value.1) ==
        {Interval(8, 10, d)}
  {
    var t := {Interval(6, 8, d)};
    assert At(t, 5) == {};
    assert InsertMoving(t, 5) == t;
    assert MoveAll(t, 7) == {Interval(13, 15, d)};
    assert MoveAll(t, 2) == {Interval(8, 10, d)};
  }

  /** With the span `p .. p + len(i)`, every interval after `p` moves
      forward by exactly the insertion's length and an interval holding
      `p` grows by it. */
  lemma InsertedSpanShiftsByLength(t: set<Interval>, op: Op)
    requires Proper(t) && op.i.Some?
    ensures InsertedSpan(op) == Some((op.p, op.p + |op.i.value|))
    ensures forall x :: x in t && x.begin > op.p ==>
      Moved(x, |op.i.value|) in InsertExact(t, op.p, op.p + |op.i.value|)
    ensures forall x :: x in t && x.begin <= op.p < x.end ==>
      Interval(x.begin, x.end + |op.i.value|, x.data) in InsertExact(t, op.p, op.p + |op.i.value|)
  {
    InsertExactShifts(t, op.p, op.p + |op.i.value|);
  }

  /** Where `_insert(start, end)` puts the intervals of a proper tree. */
  lemma InsertExactShifts(t: set<Interval>, start: int, end: int)
    requires Proper(t)
    ensures forall x :: x in t && x.begin > start ==> Moved(x, end - start) in InsertExact(t, start, end)
    ensures forall x :: x in t && x.begin <= start < x.end ==>
      Interval(x.begin, x.end + (end - start), x.data) in InsertExact(t, start, end)
  {
    forall x | x in t
      ensures x.begin > start ==> Moved(x, end - start) in InsertExact(t, start, end)
      ensures x.begin <= start < x.end ==> Stretched(x, end - start) in InsertExact(t, start, end)
    {
      InsertExactKeeps(t, x, start, end);
    }
  }

  /** Where `_insert(start, end)` puts one interval of a proper tree. */
  lemma InsertExactKeeps(t: set<Interval>, x: Interval, start: int, end: int)
    requires Proper(t) && x in t
    ensures x.begin > start ==> Moved(x, end - start) in InsertExact(t, start, end)
    ensures x.begin <= start < x.end ==> Stretched(x, end - start) in InsertExact(t, start, end)
  {
    assert !IsNull(x);
    if x.begin > start {
      assert x !in At(t, start);
      assert x in InsertMoving(t, start);
      assert Moved(x, end - start) in MoveAll(InsertMoving(t, start), end - start);
    } else if start < x.end {
      assert x in At(t, start);
    }
  }

  /** The tracked-change state of `Changes`: the tree and `lookup`. */
  datatype Tracked = Tracked(range: set<Interval>, lookup: map<Option<string>, Interval>)

  /** The undo branch of `Changes.applyOp` as written: a known id reaches
      the undefined name `interval` and raises `NameError`; an unknown id
      returns. */
  function UndoAsWritten(s: Tracked, tc: string): Result<Tracked>
  {
    if Some(tc) in s.lookup then Err("NameError") else Ok(s)
  }

  /** The undo branch as evidently intended: the recorded interval leaves
      the tree (which raises if it is no longer there) and its id leaves
      `lookup`. */
  function Undo(s: Tracked, tc: string): (r: Result<Tracked>)
    ensures Some(tc) !in s.lookup ==> r == Ok(s)
    ensures Some(tc) in s.lookup ==> (r.Ok? <==> s.lookup[Some(tc)] in s.range)
    ensures r.Ok? ==> Some(tc) !in r.value.lookup && r.value.range <= s.range
    ensures r.Ok? && Some(tc) in s.lookup ==>
      s.lookup[Some(tc)] !in r.value.range &&
      s.range == r.value.range + {s.lookup[Some(tc)]} &&
      s.lookup == r.value.lookup[Some(tc) := s.lookup[Some(tc)]]
  {
    if Some(tc) !in s.lookup then Ok(s)
    else
      var x := s.lookup[Some(tc)];
      if x !in s.range then Err("ValueError")
      else Ok(Tracked(s.range - {x}, s.lookup - {Some(tc)}))
  }

  /** As written, undoing a change that is tracked and still in the tree
      raises and leaves it in place, where the intended undo drops it. */
  lemma UndoAsWrittenKeepsChange(s: Tracked, tc: string)
    requires Some(tc) in s.lookup && s.lookup[Some(tc)] in s.range
    ensures UndoAsWritten(s, tc).Err?
    ensures Undo(s, tc).Ok? && s.lookup[Some(tc)] !in Undo(s, tc).value.range
  {
  }

  /** The interval `Changes.applyOp` records under `tc`: `[p, p + len(i))`
      flagged as an insertion when the op inserts, else `[p, p + 1)` for a
      deletion, else `[0, 0)`. */
  function ChangeMark(op: Op, tc: string): (x: Interval)
    ensures op.i.Some? ==> x.begin == op.p && x.end == op.p + |op.i.value| && x.data == Change(true, Some(tc))
    ensures op.i.None? && op.d.Some? ==> x.begin == op.p && x.end == op.p + 1 && x.data == Change(false, Some(tc))
  {
    var start := if op.i.Some? || op.d.Some? then op.p else 0;
    var end := if op.i.Some? then start + |op.i.value| else if op.d.Some? then start + 1 else 0;
    Interval(start, end, Change(op.i.Some?, Some(tc)))
  }

  /** Whether `Changes.applyOp` goes on to record a change: a non-empty
      `tc` and a non-zero end (an op with neither `d` nor `i` has end 0). */
  predicate Tracks(op: Op, packet: Packet)
  {
    var tc := TrackedId(packet);
    tc.Some? && tc.value != "" && ChangeMark(op, tc.value).end != 0
  }

  /** The bookkeeping half of `Changes.applyOp`, once the tree edits are
      done: nothing without a tracked id; for an undo op the (corrected)
      `Undo`; otherwise `lookup[tc]` set to the op's mark, which is then
      added to the tree (raising `ValueError` if empty). */
  function RecordChange(s: Tracked, op: Op, packet: Packet): (r: (Outcome, Tracked))
    ensures !Tracks(op, packet) ==> r == (Done, s)
    ensures Tracks(op, packet) && op.u ==>
      var tc := TrackedId(packet);
      (tc !in s.lookup ==> r == (Done, s)) &&
      (tc in s.lookup && s.lookup[tc] in s.range ==>
         r.0 == Done && r.1.range == s.range - {s.lookup[tc]} && r.1.lookup == s.lookup - {tc}) &&
      (tc in s.lookup && s.lookup[tc] !in s.range ==> r == (Raised("ValueError"), s))
    ensures Tracks(op, packet) && !op.u ==>
      var x := ChangeMark(op, TrackedId(packet).value);
      r.1.lookup == s.lookup[TrackedId(packet) := x] &&
      (!IsNull(x) ==> r.0 == Done && r.1.range == s.range + {x}) &&
      (IsNull(x) ==> r.0 == Raised("ValueError") && r.1.range == s.range)
    ensures Proper(s.range) ==> Proper(r.1.range)
    ensures forall k :: k in s.lookup && k != TrackedId(packet) ==> k in r.1.lookup && r.1.lookup[k] == s.lookup[k]
  {
    if !Tracks(op, packet) then (Done, s)
    else
      var tc := TrackedId(packet).value;
      if op.u then
        match Undo(s, tc)
        case Err(e) => (Raised(e), s)
        case Ok(s2) => (Done, s2)
      else
        var x := ChangeMark(op, tc);
        var lookup := s.lookup[Some(tc) := x];
        if IsNull(x) then (Raised("ValueError"), Tracked(s.range, lookup))
        else (Done, Tracked(s.range + {x}, lookup))
  }
}
