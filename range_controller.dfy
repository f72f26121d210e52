/** The comment-thread and tracked-change controllers of
    buffers/controllers/range.py: each keeps an interval tree `range` of
    offsets into the document text, edited in place as ops arrive. */
module RangeController {
  import opened Base
  import opened Ops
  import opened Intervals
  import opened Tracker
  import opened Accumulator

  /** Comment threads: their anchors in `range`, their records in `data`,
      the pending selection and whether the cursor sits on a thread. */
  class Threads {
    var range: set<Interval>
    var data: map<string, ThreadRecord>
    var selection: set<Interval>
    var active: bool

    ghost predicate Valid()
      reads this
    {
      Proper(range) && Proper(selection)
    }

    constructor ()
      ensures range == {} && data == map[] && selection == {} && active
      ensures Valid()
    {
      range := {};
      data := map[];
      selection := {};
      active := true;
    }

    /** `clear()`. */
    method Clear()
      modifies this
      ensures range == {}
      ensures data == old(data) && selection == old(selection) && active == old(active)
      ensures old(Valid()) ==> Valid()
    {
      range := {};
    }

    /** `get(text, ...)`: the payloads of the threads overlapping the span
        between two editor positions. */
    ghost function Get(lines: NaiveAccumulator, startLine: int, startCol: int, endLine: int, endCol: int): (r: multiset<Payload>)
      reads this, lines
      ensures var s, e := lines.Position(startLine, startCol), lines.Position(endLine, endCol);
        |r| == |Overlap(range, s, e)| &&
        forall d :: d in r <==> s < e && exists x :: x in range && x.begin < e && x.end > s && x.data == d
    {
      Payloads(Overlap(range, lines.Position(startLine, startCol), lines.Position(endLine, endCol)))
    }

    /** The `doubled` property. */
    method Doubled() returns (r: set<Interval>)
      ensures r == DoubledSpec(range)
    {
      r := Intervals.Doubled(range);
    }

    /** `create(text, comments, thread)`: anchors an open thread; `q` is
        what `text.query` reports for the thread's span. */
    method Create(lines: NaiveAccumulator, comments: Option<CommentMap>, thread: ThreadRef, q: Coords)
      returns (created: bool, coords: Option<Coords>)
      modifies this
      ensures created == ThreadShown(comments, thread.id)
      ensures !created ==> coords == None && range == old(range)
      ensures created ==>
        var a := Anchor(thread.p, |thread.c|, q, lines.Get(q.endLine) - lines.Get(q.endLine - 1) - 1);
        coords == Some(a.coords) &&
        range == old(range) + {Interval(a.begin, a.end, ThreadId(thread.id.value))}
      ensures data == old(data) && selection == old(selection) && active == old(active)
      ensures old(Valid()) ==> Valid()
    {
      if !ThreadShown(comments, thread.id) {
        return false, None;
      }
      var a := Anchor(thread.p, |thread.c|, q, lines.Get(q.endLine) - lines.Get(q.endLine - 1) - 1);
      range := range + {Interval(a.begin, a.end, ThreadId(thread.id.value))};
      return true, Some(a.coords);
    }

    /** `applyOp(op, packet)`: the deletion, then the insertion, then the
        comment registration, which raises `KeyError` without `t` or
        without the packet's `meta`. */
    method ApplyOp(op: Op, packet: Packet) returns (out: Outcome)
      modifies this
      ensures EditedBy(old(range), DeletedSpan(op), InsertedSpan(op), range)
      ensures op.c.None? ==> out == Done && data == old(data)
      ensures op.c.Some? && (op.t.None? || packet.meta.None?) ==>
        out == Raised("KeyError") && data == old(data)
      ensures op.c.Some? && op.t.Some? && packet.meta.Some? ==>
        out == Done && data == old(data)[op.t.value := ThreadRecord(op.t.value, packet.meta.value, op)]
      ensures selection == old(selection) && active == old(active)
      ensures old(Valid()) ==> Valid()
    {
      range := ApplyEdits(range, DeletedSpan(op), InsertedSpan(op));
      if old(Valid()) {
        EditedKeepsProper(old(range), DeletedSpan(op), InsertedSpan(op), range);
      }
      if op.c.Some? {
        if op.t.None? || packet.meta.None? {
          return Raised("KeyError");
        }
        data := data[op.t.value := ThreadRecord(op.t.value, packet.meta.value, op)];
      }
      return Done;
    }

    /** `activate(text, cursor)`: the threads under the cursor (a 1-based
        row and a column), and whether there are any. */
    method Activate(lines: NaiveAccumulator, cursor: (int, int)) returns (threads: set<Interval>)
      modifies this
      ensures threads == At(range, lines.Position(cursor.0 - 1, cursor.1))
      ensures active <==> threads != {}
      ensures range == old(range) && data == old(data) && selection == old(selection)
      ensures old(Valid()) ==> Valid()
    {
      threads := At(range, lines.Position(cursor.0 - 1, cursor.1));
      active := threads != {};
    }

    /** `select(text, ...)`: the selection becomes the one span between
        the two positions; an empty or reversed span raises `ValueError`
        after the old selection is dropped. */
    method Select(lines: NaiveAccumulator, startLine: int, startCol: int, endLine: int, endCol: int)
      returns (out: Outcome)
      modifies this
      ensures var b, e := lines.Position(startLine, startCol), lines.Position(endLine, endCol);
        (b < e ==> out == Done && selection == {Interval(b, e, NoData)}) &&
        (b >= e ==> out == Raised("ValueError") && selection == {})
      ensures range == old(range) && data == old(data) && active == old(active)
      ensures old(Valid()) ==> Valid()
    {
      selection := {};
      var b, e := lines.Position(startLine, startCol), lines.Position(endLine, endCol);
      if b >= e {
        return Raised("ValueError");
      }
      selection := {Interval(b, e, NoData)};
      return Done;
    }
  }

  /** Tracked changes: their intervals in `range`, and the interval last
      recorded for each change id in `lookup`. */
  class Changes {
    var selection: set<Interval>
    var range: set<Interval>
    var data: map<string, ThreadRecord>
    var lookup: map<Option<string>, Interval>
    var active: bool

    ghost predicate Valid()
      reads this
    {
      Proper(range) && Proper(selection)
    }

    constructor ()
      ensures selection == {} && range == {} && data == map[] && lookup == map[] && active
      ensures Valid()
    {
      selection := {};
      range := {};
      data := map[];
      lookup := map[];
      active := true;
    }

    /** `clear()`. */
    method Clear()
      modifies this
      ensures range == {}
      ensures selection == old(selection) && data == old(data) && lookup == old(lookup) && active == old(active)
      ensures old(Valid()) ==> Valid()
    {
      range := {};
    }

    /** `get(text, ...)`: the payloads of the changes overlapping the span
        between two editor positions. */
    ghost function Get(lines: NaiveAccumulator, startLine: int, startCol: int, endLine: int, endCol: int): (r: multiset<Payload>)
      reads this, lines
      ensures var s, e := lines.Position(startLine, startCol), lines.Position(endLine, endCol);
        |r| == |Overlap(range, s, e)| &&
        forall d :: d in r <==> s < e && exists x :: x in range && x.begin < e && x.end > s && x.data == d
    {
      Payloads(Overlap(range, lines.Position(startLine, startCol), lines.Position(endLine, endCol)))
    }

    /** The `doubled` property. */
    method Doubled() returns (r: set<Interval>)
      ensures r == DoubledSpec(range)
    {
      r := Intervals.Doubled(range);
    }

    /** `create(text, changes)`: records one change in the tree and in
        `lookup`. The flag is true exactly when the op inserts nothing. */
    method Create(lines: NaiveAccumulator, changes: Option<ChangeRef>, q: Coords)
      returns (created: bool, insertion: bool, coords: Option<Coords>)
      modifies this
      ensures created <==> changes.Some?
      ensures !created ==> !insertion && coords == None && range == old(range) && lookup == old(lookup)
      ensures created ==>
        var c := changes.value;
        var n := if c.i.Some? then |c.i.value| else 0;
        var a := Anchor(c.p, n, q, lines.Get(q.endLine) - lines.Get(q.endLine - 1) - 1);
        var x := Interval(a.begin, a.end, Change(n == 0, c.id));
        insertion == (n == 0) && coords == Some(a.coords) &&
        range == old(range) + {x} && lookup == old(lookup)[c.id := x]
      ensures selection == old(selection) && data == old(data) && active == old(active)
      ensures old(Valid()) ==> Valid()
    {
      if changes.None? {
        return false, false, None;
      }
      var c := changes.value;
      var n := if c.i.Some? then |c.i.value| else 0;
      insertion := n == 0;
      var a := Anchor(c.p, n, q, lines.Get(q.endLine) - lines.Get(q.endLine - 1) - 1);
      range := range + {Interval(a.begin, a.end, Change(insertion, c.id))};
      lookup := lookup[c.id := Interval(a.begin, a.end, Change(insertion, c.id))];
      range := range + {lookup[c.id]};
      return true, insertion, Some(a.coords);
    }

    /** `applyOp(op, packet)`: the op's deletion and insertion spans edit
        the tree, then the change is recorded under `meta.tc`. The shift
        and the undo are the corrected ones (`InsertedSpan`, `Undo`); the
        code as written is `InsertedSpanAsWritten` and `UndoAsWritten`. */
    method ApplyOp(op: Op, packet: Packet) returns (out: Outcome, ghost edited: set<Interval>)
      modifies this
      ensures EditedBy(old(range), DeletedSpan(op), InsertedSpan(op), edited)
      ensures (out, Tracked(range, lookup)) == RecordChange(Tracked(edited, old(lookup)), op, packet)
      ensures selection == old(selection) && data == old(data) && active == old(active)
      ensures old(Valid()) ==> Valid()
    {
      range := ApplyEdits(range, DeletedSpan(op), InsertedSpan(op));
      edited := range;
      if old(Valid()) {
        EditedKeepsProper(old(range), DeletedSpan(op), InsertedSpan(op), range);
      }
      var r := RecordChange(Tracked(range, lookup), op, packet);
      out := r.0;
      range := r.1.range;
      lookup := r.1.lookup;
    }
  }
}
