/** The older copy of the controllers, buffers/controllers/thread.py: the
    same behaviour as `RangeController`, with the interval tree held in the
    field `threads`, and `doubled` offered by `Threads` alone. */
module ThreadController {
  import opened Base
  import opened Ops
  import opened Intervals
  import opened Tracker
  import opened Accumulator

  /** Comment threads: their anchors in `threads`, their records in `data`,
      the pending selection and whether the cursor sits on a thread. */
  class Threads {
    var threads: set<Interval>
    var data: map<string, ThreadRecord>
    var selection: set<Interval>
    var active: bool

    ghost predicate Valid()
      reads this
    {
      Proper(threads) && Proper(selection)
    }

    constructor ()
      ensures threads == {} && data == map[] && selection == {} && active
      ensures Valid()
    {
      threads := {};
      data := map[];
      selection := {};
      active := true;
    }

    /** `clear()`. */
    method Clear()
      modifies this
      ensures threads == {}
      ensures data == old(data) && selection == old(selection) && active == old(active)
      ensures old(Valid()) ==> Valid()
    {
      threads := {};
    }

    /** `get(text, ...)`: the payloads of the threads overlapping the span
        between two editor positions. */
    ghost function Get(lines: NaiveAccumulator, startLine: int, startCol: int, endLine: int, endCol: int): (r: multiset<Payload>)
      reads this, lines
      ensures var s, e := lines.Position(startLine, startCol), lines.Position(endLine, endCol);
        |r| == |Overlap(threads, s, e)| &&
        forall d :: d in r <==> s < e && exists x :: x in threads && x.begin < e && x.end > s && x.data == d
    {
      Payloads(Overlap(threads, lines.Position(startLine, startCol), lines.Position(endLine, endCol)))
    }

    /** The `doubled` property. */
    method Doubled() returns (r: set<Interval>)
      ensures r == DoubledSpec(threads)
    {
      r := Intervals.Doubled(threads);
    }

    /** `create(text, comments, thread)`: anchors an open thread; `q` is
        what `text.query` reports for the thread's span. */
    method Create(lines: NaiveAccumulator, comments: Option<CommentMap>, thread: ThreadRef, q: Coords)
      returns (created: bool, coords: Option<Coords>)
      modifies this
      ensures created == ThreadShown(comments, thread.id)
      ensures !created ==> coords == None && threads == old(threads)
      ensures created ==>
        var a := Anchor(thread.p, |thread.c|, q, lines.Get(q.endLine) - lines.Get(q.endLine - 1) - 1);
        coords == Some(a.coords) &&
        threads == old(threads) + {Interval(a.begin, a.end, ThreadId(thread.id.value))}
      ensures data == old(data) && selection == old(selection) && active == old(active)
      ensures old(Valid()) ==> Valid()
    {
      if !ThreadShown(comments, thread.id) {
        return false, None;
      }
      var a := Anchor(thread.p, |thread.c|, q, lines.Get(q.endLine) - lines.Get(q.endLine - 1) - 1);
      threads := threads + {Interval(a.begin, a.end, ThreadId(thread.id.value))};
      return true, Some(a.coords);
    }

    /** `applyOp(op, packet)`: the deletion, then the insertion, then the
        comment registration, which raises `KeyError` without `t` or
        without the packet's `meta`. */
    method ApplyOp(op: Op, packet: Packet) returns (out: Outcome)
      modifies this
      ensures EditedBy(old(threads), DeletedSpan(op), InsertedSpan(op), threads)
      ensures op.c.None? ==> out == Done && data == old(data)
      ensures op.c.Some? && (op.t.None? || packet.meta.None?) ==>
        out == Raised("KeyError") && data == old(data)
      ensures op.c.Some? && op.t.Some? && packet.meta.Some? ==>
        out == Done && data == old(data)[op.t.value := ThreadRecord(op.t.value, packet.meta.value, op)]
      ensures selection == old(selection) && active == old(active)
      ensures old(Valid()) ==> Valid()
    {
      threads := ApplyEdits(threads, DeletedSpan(op), InsertedSpan(op));
      if old(Valid()) {
        EditedKeepsProper(old(threads), DeletedSpan(op), InsertedSpan(op), threads);
      }
      if op.c.Some? {
        if op.t.None? || packet.meta.None? {
          return Raised("KeyError");
        }
        data := data[op.t.value := ThreadRecord(op.t.value, packet.meta.value, op)];
      }
      return Done;
    }

    /** `activate(text, cursor)`: the threads under the cursor (a 1-based
        row and a column), and whether there are any. */
    method Activate(lines: NaiveAccumulator, cursor: (int, int)) returns (under: set<Interval>)
      modifies this
      ensures under == At(threads, lines.Position(cursor.0 - 1, cursor.1))
      ensures active <==> under != {}
      ensures threads == old(threads) && data == old(data) && selection == old(selection)
      ensures old(Valid()) ==> Valid()
    {
      under := At(threads, lines.Position(cursor.0 - 1, cursor.1));
      active := under != {};
    }

    /** `select(text, ...)`: the selection becomes the one span between
        the two positions; an empty or reversed span raises `ValueError`
        after the old selection is dropped. */
    method Select(lines: NaiveAccumulator, startLine: int, startCol: int, endLine: int, endCol: int)
      returns (out: Outcome)
      modifies this
      ensures var b, e := lines.Position(startLine, startCol), lines.Position(endLine, endCol);
        (b < e ==> out == Done && selection == {Interval(b, e, NoData)}) &&
        (b >= e ==> out == Raised("ValueError") && selection == {})
      ensures threads == old(threads) && data == old(data) && active == old(active)
      ensures old(Valid()) ==> Valid()
    {
      selection := {};
      var b, e := lines.Position(startLine, startCol), lines.Position(endLine, endCol);
      if b >= e {
        return Raised("ValueError");
      }
      selection := {Interval(b, e, NoData)};
      return Done;
    }
  }

  /** Tracked changes: their intervals in `threads`, and the interval last
      recorded for each change id in `lookup`. */
  class Changes {
    var selection: set<Interval>
    var threads: set<Interval>
    var data: map<string, ThreadRecord>
    var lookup: map<Option<string>, Interval>
    var active: bool

    ghost predicate Valid()
      reads this
    {
      Proper(threads) && Proper(selection)
    }

    constructor ()
      ensures selection == {} && threads == {} && data == map[] && lookup == map[] && active
      ensures Valid()
    {
      selection := {};
      threads := {};
      data := map[];
      lookup := map[];
      active := true;
    }

    /** `clear()`. */
    method Clear()
      modifies this
      ensures threads == {}
      ensures selection == old(selection) && data == old(data) && lookup == old(lookup) && active == old(active)
      ensures old(Valid()) ==> Valid()
    {
      threads := {};
    }

    /** `get(text, ...)`: the payloads of the changes overlapping the span
        between two editor positions. */
    ghost function Get(lines: NaiveAccumulator, startLine: int, startCol: int, endLine: int, endCol: int): (r: multiset<Payload>)
      reads this, lines
      ensures var s, e := lines.Position(startLine, startCol), lines.Position(endLine, endCol);
        |r| == |Overlap(threads, s, e)| &&
        forall d :: d in r <==> s < e && exists x :: x in threads && x.begin < e && x.end > s && x.data == d
    {
      Payloads(Overlap(threads, lines.Position(startLine, startCol), lines.Position(endLine, endCol)))
    }

    /** `create(text, changes)`: records one change in the tree and in
        `lookup`. The flag is true exactly when the op inserts nothing. */
    method Create(lines: NaiveAccumulator, changes: Option<ChangeRef>, q: Coords)
      returns (created: bool, insertion: bool, coords: Option<Coords>)
      modifies this
      ensures created <==> changes.Some?
      ensures !created ==> !insertion && coords == None && threads == old(threads) && lookup == old(lookup)
      ensures created ==>
        var c := changes.value;
        var n := if c.i.Some? then |c.i.value| else 0;
        var a := Anchor(c.p, n, q, lines.Get(q.endLine) - lines.Get(q.endLine - 1) - 1);
        var x := Interval(a.begin, a.end, Change(n == 0, c.id));
        insertion == (n == 0) && coords == Some(a.coords) &&
        threads == old(threads) + {x} && lookup == old(lookup)[c.id := x]
      ensures selection == old(selection) && data == old(data) && active == old(active)
      ensures old(Valid()) ==> Valid()
    {
      if changes.None? {
        return false, false, None;
      }
      var c := changes.value;
      var n := if c.i.Some? then |c.i.value| else 0;
      insertion := n == 0;
      var a := Anchor(c.p, n, q, lines.Get(q.endLine) - lines.Get(q.endLine - 1) - 1);
      threads := threads + {Interval(a.begin, a.end, Change(insertion, c.id))};
      lookup := lookup[c.id := Interval(a.begin, a.end, Change(insertion, c.id))];
      threads := threads + {lookup[c.id]};
      return true, insertion, Some(a.coords);
    }

    /** `applyOp(op, packet)`: the op's deletion and insertion spans edit
        the tree, then the change is recorded under `meta.tc`. The shift
        and the undo are the corrected ones (`InsertedSpan`, `Undo`); the
        code as written is `InsertedSpanAsWritten` and `UndoAsWritten`. */
    method ApplyOp(op: Op, packet: Packet) returns (out: Outcome, ghost edited: set<Interval>)
      modifies this
      ensures EditedBy(old(threads), DeletedSpan(op), InsertedSpan(op), edited)
      ensures (out, Tracked(threads, lookup)) == RecordChange(Tracked(edited, old(lookup)), op, packet)
      ensures selection == old(selection) && data == old(data) && active == old(active)
      ensures old(Valid()) ==> Valid()
    {
      threads := ApplyEdits(threads, DeletedSpan(op), InsertedSpan(op));
      edited := threads;
      if old(Valid()) {
        EditedKeepsProper(old(threads), DeletedSpan(op), InsertedSpan(op), threads);
      }
      var r := RecordChange(Tracked(threads, lookup), op, packet);
      out := r.0;
      threads := r.1.range;
      lookup := r.1.lookup;
    }
  }
}
