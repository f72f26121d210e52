/** Ops applied to a list of lines through `_remove` and `_insert`, and
    the text-level ops they realise: when an op fits the text, editing the
    lines edits `Text(lines)` exactly as `ApplyOp` does. */
module LineOps {
  import opened Base
  import opened PySeq
  import opened PyText
  import opened Ops
  import opened Lines
  import opened Edits

  /** One op on one list of lines: `_remove` of `d`, then `_insert` of `i`
      into the list it scans. */
  function EditLines(lines: seq<string>, op: Op): Result<seq<string>>
  {
    var cut := if op.d.Some? then Removed(lines, op.p, op.d.value) else Ok(lines);
    if cut.Err? || op.i.None? then cut
    else Inserted(cut.value, cut.value, op.p, op.i.value)
  }

  /** A batch on one list of lines; the first failure ends it. */
  function EditAll(lines: seq<string>, ops: seq<Op>): Result<seq<string>>
    decreases |ops|
  {
    if ops == [] then Ok(lines)
    else match EditLines(lines, ops[0])
      case Err(e) => Err(e)
      case Ok(next) => EditAll(next, ops[1..])
  }

  /** An op that fits the text edits the lines as it edits the text. */
  lemma EditLinesText(lines: seq<string>, op: Op)
    requires Clean(lines) && lines != [] && Applies(Text(lines), op)
    ensures EditLines(lines, op).Ok?
    ensures var r := EditLines(lines, op).value;
      Text(r) == ApplyOp(Text(lines), op) && Clean(r) && r != []
  {
    var t := Text(lines);
    var cut := if op.d.Some? then Removed(lines, op.p, op.d.value) else Ok(lines);
    assert cut.Ok? && Text(cut.value) == (if op.d.Some? then Cut(t, op.p, |op.d.value|) else t) &&
           Clean(cut.value) && cut.value != [] by {
      if op.d.Some? {
        RemoveSplices(lines, op.p, op.d.value);
      }
    }
    if op.i.Some? {
      InsertSplices(cut.value, op.p, op.i.value);
    }
  }

  /** A batch that fits the text edits the lines as it edits the text. */
  lemma {:induction false} EditAllText(lines: seq<string>, ops: seq<Op>)
    requires Clean(lines) && lines != [] && AppliesAll(Text(lines), ops)
    ensures EditAll(lines, ops).Ok?
    ensures var r := EditAll(lines, ops).value;
      Text(r) == ApplyOps(Text(lines), ops) && Clean(r) && r != []
    decreases |ops|
  {
    if ops != [] {
      EditLinesText(lines, ops[0]);
      EditAllText(EditLines(lines, ops[0]).value, ops[1..]);
    }
  }
}
