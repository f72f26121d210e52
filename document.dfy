/** buffers/document.py: the editor buffer of one document. It keeps the
    lines on screen (`buffer`), the lines last synchronised with the server
    (`saved_buffer`, `None` until the first `write`), the line-length
    accumulator `cumulative_lines` that turns (row, column) pairs into
    offsets, the comment threads and their intervals, and the pending
    comment selection. */
module Document {
  import opened Base
  import opened PySeq
  import opened PyText
  import opened Ops
  import opened Lines
  import opened Edits
  import opened LineOps
  import opened Accumulator
  import opened Intervals
  import opened Tracker
  import opened Rows
  import opened Names

  /** The parts of a document that `applyOps` edits. */
  datatype DocState = DocState(buffer: seq<string>, saved: Option<seq<string>>, threads: map<string, ThreadRecord>)

  predicate SavedNonEmpty(s: DocState)
  {
    s.saved.Some? ==> s.saved.value != []
  }

  /** The deletion half of one op: `_remove` on the saved lines, then on
      the buffer. Before the first `write` there are no saved lines to
      iterate and the first `_remove` raises `TypeError`. */
  function RemoveBoth(s: DocState, op: Op): (r: (Outcome, DocState))
    ensures r.1.threads == s.threads
    ensures s.buffer != [] ==> r.1.buffer != []
    ensures SavedNonEmpty(s) ==> SavedNonEmpty(r.1)
  {
    if op.d.None? then (Done, s)
    else if s.saved.None? then (Raised("TypeError"), s)
    else match Removed(s.saved.value, op.p, op.d.value)
      case Err(e) => (Raised(e), s)
      case Ok(saved1) =>
        var s1 := s.(saved := Some(saved1));
        match Removed(s.buffer, op.p, op.d.value)
        case Err(e) => (Raised(e), s1)
        case Ok(buffer1) => (Done, s1.(buffer := buffer1))
  }

  /** The insertion half: `_insert` into the saved lines, then into the
      buffer; `_insert` always looks the line up in the buffer. Without
      saved lines the assignment into `None` raises `TypeError`. */
  function InsertBoth(s: DocState, op: Op): (r: (Outcome, DocState))
    ensures r.1.threads == s.threads
    ensures s.buffer != [] ==> r.1.buffer != []
    ensures SavedNonEmpty(s) ==> SavedNonEmpty(r.1)
  {
    if op.i.None? then (Done, s)
    else if s.saved.None? then (Raised(if s.buffer == [] then "NameError" else "TypeError"), s)
    else match Inserted(s.buffer, s.saved.value, op.p, op.i.value)
      case Err(e) => (Raised(e), s)
      case Ok(saved1) =>
        var s1 := s.(saved := Some(saved1));
        match Inserted(s.buffer, s.buffer, op.p, op.i.value)
        case Err(e) => (Raised(e), s1)
        case Ok(buffer1) => (Done, s1.(buffer := buffer1))
  }

  /** One op of `applyOps`: deletion, insertion, then for a comment op the
      thread record `threads[t] = (t, packet["meta"], op)`, which raises
      `KeyError` without `t` or without the packet's `meta`. The first
      failure ends the op; what was done before it stays done. */
  function RunDocOp(s: DocState, op: Op, meta: Option<Meta>): (r: (Outcome, DocState))
    ensures s.buffer != [] ==> r.1.buffer != []
    ensures SavedNonEmpty(s) ==> SavedNonEmpty(r.1)
    ensures r.1.threads.Keys <= s.threads.Keys + (if op.t.Some? then {op.t.value} else {})
  {
    var (out1, s1) := RemoveBoth(s, op);
    if out1.Raised? then (out1, s1)
    else
      var (out2, s2) := InsertBoth(s1, op);
      if out2.Raised? || op.c.None? then (out2, s2)
      else if op.t.None? || meta.None? then (Raised("KeyError"), s2)
      else (Done, s2.(threads := s2.threads[op.t.value := ThreadRecord(op.t.value, meta.value, op)]))
  }

  /** The `applyOps` loop: the ops in list order until one raises. */
  function RunDocOps(s: DocState, ops: seq<Op>, meta: Option<Meta>): (r: (Outcome, DocState))
    ensures s.buffer != [] ==> r.1.buffer != []
    ensures SavedNonEmpty(s) ==> SavedNonEmpty(r.1)
    decreases |ops|
  {
    if ops == [] then (Done, s)
    else
      var (out, s1) := RunDocOp(s, ops[0], meta);
      if out.Raised? then (out, s1) else RunDocOps(s1, ops[1..], meta)
  }

  /** The thread ids of the comment ops of a batch. */
  function CommentIds(ops: seq<Op>): set<string>
    decreases |ops|
  {
    if ops == [] then {}
    else (if ops[0].c.Some? && ops[0].t.Some? then {ops[0].t.value} else {}) + CommentIds(ops[1..])
  }

  /** Every comment op names its thread, and the packet carries `meta`. */
  predicate CommentsComplete(ops: seq<Op>, meta: Option<Meta>)
  {
    forall k :: 0 <= k < |ops| && ops[k].c.Some? ==> ops[k].t.Some? && meta.Some?
  }

  /** When the buffer and the saved lines agree, one fitting op edits both
      alike, as the op edits the text, and records its thread. */
  lemma RunDocOpSynced(lines: seq<string>, threads: map<string, ThreadRecord>, op: Op, meta: Option<Meta>)
    requires Clean(lines) && lines != [] && Applies(Text(lines), op)
    requires op.c.Some? ==> op.t.Some? && meta.Some?
    ensures var (out, s) := RunDocOp(DocState(lines, Some(lines), threads), op, meta);
      var r := EditLines(lines, op);
      out == Done && r.Ok? && s.buffer == r.value && s.saved == Some(r.value) &&
      s.threads.Keys == threads.Keys + (if op.c.Some? then {op.t.value} else {})
    ensures var r := EditLines(lines, op).value;
      Text(r) == ApplyOp(Text(lines), op) && Clean(r) && r != []
  {
    EditLinesText(lines, op);
  }

  /** A remote batch that fits the text keeps the buffer and the saved
      lines equal, turns their text into the text the ops produce, and
      records exactly the batch's comment threads. */
  lemma {:induction false} RunDocOpsSynced(lines: seq<string>, threads: map<string, ThreadRecord>, ops: seq<Op>, meta: Option<Meta>)
    requires Clean(lines) && lines != [] && AppliesAll(Text(lines), ops) && CommentsComplete(ops, meta)
    ensures var (out, s) := RunDocOps(DocState(lines, Some(lines), threads), ops, meta);
      out == Done && s.saved == Some(s.buffer) && Text(s.buffer) == ApplyOps(Text(lines), ops) && Clean(s.buffer) &&
      s.threads.Keys == threads.Keys + CommentIds(ops)
    decreases |ops|
  {
    if ops != [] {
      var lines1, threads1 := RunDocOpsTail(lines, threads, ops, meta);
      RunDocOpsSynced(lines1, threads1, ops[1..], meta);
    }
  }

  /** After its first op, a fitting batch goes on from a synced state with
      the rest of the ops. */
  lemma RunDocOpsTail(lines: seq<string>, threads: map<string, ThreadRecord>, ops: seq<Op>, meta: Option<Meta>)
    returns (lines1: seq<string>, threads1: map<string, ThreadRecord>)
    requires ops != [] && Clean(lines) && lines != [] && AppliesAll(Text(lines), ops) && CommentsComplete(ops, meta)
    ensures RunDocOps(DocState(lines, Some(lines), threads), ops, meta)
         == RunDocOps(DocState(lines1, Some(lines1), threads1), ops[1..], meta)
    ensures Clean(lines1) && lines1 != [] && AppliesAll(Text(lines1), ops[1..]) && CommentsComplete(ops[1..], meta)
    ensures ApplyOps(Text(lines), ops) == ApplyOps(Text(lines1), ops[1..])
    ensures threads.Keys + CommentIds(ops) == threads1.Keys + CommentIds(ops[1..])
  {
    var op := ops[0];
    CommentsCompleteUnfold(ops, meta);
    AppliesAllUnfold(Text(lines), ops);
    lines1, threads1 := FirstOpSynced(lines, threads, op, meta);
    RunDocOpsUnfold(DocState(lines, Some(lines), threads), ops, meta);
  }

  /** The first op of a fitting batch fits, and the rest fit what it leaves. */
  lemma AppliesAllUnfold(text: string, ops: seq<Op>)
    requires ops != [] && AppliesAll(text, ops)
    ensures Applies(text, ops[0]) && AppliesAll(ApplyOp(text, ops[0]), ops[1..])
    ensures ApplyOps(text, ops) == ApplyOps(ApplyOp(text, ops[0]), ops[1..])
  {
  }

  /** The head and the rest of a batch whose comment ops are complete. */
  lemma CommentsCompleteUnfold(ops: seq<Op>, meta: Option<Meta>)
    requires ops != [] && CommentsComplete(ops, meta)
    ensures ops[0].c.Some? ==> ops[0].t.Some? && meta.Some?
    ensures CommentsComplete(ops[1..], meta)
    ensures CommentIds(ops) == (if ops[0].c.Some? then {ops[0].t.value} else {}) + CommentIds(ops[1..])
  {
    assert forall k :: 0 <= k < |ops[1..]| ==> ops[1..][k] == ops[k + 1];
  }

  /** `RunDocOp` on a synced state, as a state again. */
  lemma FirstOpSynced(lines: seq<string>, threads: map<string, ThreadRecord>, op: Op, meta: Option<Meta>)
    returns (lines1: seq<string>, threads1: map<string, ThreadRecord>)
    requires Clean(lines) && lines != [] && Applies(Text(lines), op)
    requires op.c.Some? ==> op.t.Some? && meta.Some?
    ensures RunDocOp(DocState(lines, Some(lines), threads), op, meta) == (Done, DocState(lines1, Some(lines1), threads1))
    ensures Text(lines1) == ApplyOp(Text(lines), op) && Clean(lines1) && lines1 != []
    ensures threads1.Keys == threads.Keys + (if op.c.Some? then {op.t.value} else {})
  {
    RunDocOpSynced(lines, threads, op, meta);
    var s1 := RunDocOp(DocState(lines, Some(lines), threads), op, meta).1;
    lines1, threads1 := s1.buffer, s1.threads;
  }

  /** The loop goes on after an op that did not raise. */
  lemma RunDocOpsUnfold(s: DocState, ops: seq<Op>, meta: Option<Meta>)
    requires ops != [] && RunDocOp(s, ops[0], meta).0 == Done
    ensures RunDocOps(s, ops, meta) == RunDocOps(RunDocOp(s, ops[0], meta).1, ops[1..], meta)
  {
  }

  /** `applyOps` as written never touches `cumulative_lines`: after a
      remote batch that changes the length of the text, the entries that
      described the old lines no longer describe the new ones. */
  lemma StaleAfterUpdate(lines: seq<string>, threads: map<string, ThreadRecord>, ops: seq<Op>, meta: Option<Meta>,
                         entries: seq<int>, lastIndex: int)
    requires Clean(lines) && lines != [] && AppliesAll(Text(lines), ops) && CommentsComplete(ops, meta)
    requires Consistent(entries, lastIndex, lines)
    requires |ApplyOps(Text(lines), ops)| != |Text(lines)|
    ensures var s := RunDocOps(DocState(lines, Some(lines), threads), ops, meta).1;
      s.saved == Some(s.buffer) && !Consistent(entries, lastIndex, s.buffer)
  {
    RunDocOpsSynced(lines, threads, ops, meta);
    var s := RunDocOps(DocState(lines, Some(lines), threads), ops, meta).1;
    if Consistent(entries, lastIndex, s.buffer) {
      assert LineLengths(lines) == entries[..|entries| - 1] == LineLengths(s.buffer);
      LengthsTotal(lines);
      LengthsTotal(s.buffer);
      assert false;
    }
  }

  /** What the stale entries then do to `writeBuffer` as written: a
      remote insertion of `"X\n"` at 0 turns `["a"]` (entries `[1, 0]`)
      into `["X", "a"]`; inserting the row `"b"` before `a` locally is then
      sent at offset 1, the start of row 1 by the stale entries. The op
      fits the text, so the server takes it, and its text becomes
      `"Xb\n\na"` instead of `"X\nb\na"`. A row inserted inside the text
      goes through the same code as written and corrected, so only the
      stale entries are at work here. */
  lemma StaleOffsetMisplaces()
    ensures Consistent([1, 0], 1, ["a"]) && !Consistent([1, 0], 1, ["X", "a"])
    ensures ApplyOps(Text(["a"]), [Insertion(0, "X\n")]) == Text(["X", "a"])
    ensures var saved, buffer := ["X", "a"], ["X", "b", "a"];
      var codes := [Opcode(Equal, 0, 1, 0, 1), Opcode(Insert, 1, 1, 1, 2), Opcode(Equal, 1, 2, 2, 3)];
      var inner: seq<seq<Opcode>> := [[], [], []];
      Matches(codes, saved, buffer) && InnerMatches(codes, inner, saved, buffer) &&
      RowOpsAsWritten(codes, inner, saved, buffer, [1, 0], 1) == [Insertion(1, "b\n")] &&
      AppliesAll(Text(saved), Reverse(RowOpsAsWritten(codes, inner, saved, buffer, [1, 0], 1))) &&
      ApplyOps(Text(saved), Reverse(RowOpsAsWritten(codes, inner, saved, buffer, [1, 0], 1))) == "Xb\n\na" &&
      Text(buffer) == "X\nb\na"
  {
    StaleEntries();
    StaleRemoteInsert();
    StaleLocalInsert();
  }

  /** The entries of `["a"]` do not describe `["X", "a"]`. */
  lemma StaleEntries()
    ensures Consistent([1, 0], 1, ["a"]) && !Consistent([1, 0], 1, ["X", "a"])
  {
    assert LineLengths(["a"]) == [1];
    assert LineLengths(["X", "a"]) == [2, 1];
  }

  /** The remote insertion of the example. */
  lemma StaleRemoteInsert()
    ensures ApplyOps(Text(["a"]), [Insertion(0, "X\n")]) == Text(["X", "a"])
  {
    assert Text(["X", "a"]) == "X\na";
    assert ApplyOp("a", Insertion(0, "X\n")) == "X\na" by {
      assert Take("a", 0) == "" && Drop("a", 0) == "a";
    }
    Single("a", Insertion(0, "X\n"));
  }

  /** The row diff of the example: the inserted row is sent at offset 1. */
  lemma StaleRowOps()
    ensures var saved, buffer := ["X", "a"], ["X", "b", "a"];
      var codes := [Opcode(Equal, 0, 1, 0, 1), Opcode(Insert, 1, 1, 1, 2), Opcode(Equal, 1, 2, 2, 3)];
      var inner: seq<seq<Opcode>> := [[], [], []];
      Matches(codes, saved, buffer) && InnerMatches(codes, inner, saved, buffer) &&
      RowOpsAsWritten(codes, inner, saved, buffer, [1, 0], 1) == [Insertion(1, "b\n")]
  {
    var saved, buffer := ["X", "a"], ["X", "b", "a"];
    var codes := [Opcode(Equal, 0, 1, 0, 1), Opcode(Insert, 1, 1, 1, 2), Opcode(Equal, 1, 2, 2, 3)];
    var inner: seq<seq<Opcode>> := [[], [], []];
    StaleMatches(codes, saved, buffer);
    StaleOps(codes, inner, saved, buffer);
  }

  lemma StaleMatches(codes: seq<Opcode>, saved: seq<string>, buffer: seq<string>)
    requires saved == ["X", "a"] && buffer == ["X", "b", "a"]
    requires codes == [Opcode(Equal, 0, 1, 0, 1), Opcode(Insert, 1, 1, 1, 2), Opcode(Equal, 1, 2, 2, 3)]
    ensures Matches(codes, saved, buffer)
  {
    assert codes[..2] == [codes[0], codes[1]] && codes[..2][..1] == [codes[0]];
    assert saved[..1] == ["X"] && buffer[..2] == ["X", "b"] && buffer[..2][..1] == ["X"];
    assert saved[1..2] == buffer[2..3];
    assert Matches([codes[0]], ["X"], ["X"]);
    assert Matches([codes[0], codes[1]], ["X"], ["X", "b"]);
  }

  lemma StaleOps(codes: seq<Opcode>, inner: seq<seq<Opcode>>, saved: seq<string>, buffer: seq<string>)
    requires saved == ["X", "a"] && buffer == ["X", "b", "a"] && inner == [[], [], []]
    requires codes == [Opcode(Equal, 0, 1, 0, 1), Opcode(Insert, 1, 1, 1, 2), Opcode(Equal, 1, 2, 2, 3)]
    ensures RowOpsAsWritten(codes, inner, saved, buffer, [1, 0], 1) == [Insertion(1, "b\n")]
  {
    var op := Insertion(1, "b\n");
    assert Joined(buffer, 1, 2) == "b" by {
      assert Slice(buffer, 1, 2) == ["b"];
    }
    assert Cumulative([1, 0], 1, 1) == 1 by {
      assert [1, 0][..1] == [1] && [1][..0] == [];
    }
    assert "b" + "\n" == "b\n";
    assert ChunkOpsAsWritten(codes[1], inner[1], saved, buffer, [1, 0], 1) == [op];
    assert codes[..1][..0] == [] && inner[..1][..0] == [];
    assert codes[..2][..1] == codes[..1] && inner[..2][..1] == inner[..1];
    assert codes[..3] == codes && inner[..3] == inner;
    assert RowOpsAsWritten(codes[..1], inner[..1], saved, buffer, [1, 0], 1) == [];
    assert RowOpsAsWritten(codes[..2], inner[..2], saved, buffer, [1, 0], 1) == [op];
  }

  /** Sending that op puts the new row inside row 0. */
  lemma StaleLocalInsert()
    ensures var saved, buffer := ["X", "a"], ["X", "b", "a"];
      var codes := [Opcode(Equal, 0, 1, 0, 1), Opcode(Insert, 1, 1, 1, 2), Opcode(Equal, 1, 2, 2, 3)];
      var inner: seq<seq<Opcode>> := [[], [], []];
      Matches(codes, saved, buffer) && InnerMatches(codes, inner, saved, buffer) &&
      RowOpsAsWritten(codes, inner, saved, buffer, [1, 0], 1) == [Insertion(1, "b\n")] &&
      AppliesAll(Text(saved), Reverse(RowOpsAsWritten(codes, inner, saved, buffer, [1, 0], 1))) &&
      ApplyOps(Text(saved), Reverse(RowOpsAsWritten(codes, inner, saved, buffer, [1, 0], 1))) == "Xb\n\na" &&
      Text(buffer) == "X\nb\na"
  {
    StaleRowOps();
    var op := Insertion(1, "b\n");
    assert Text(["X", "a"]) == "X\na";
    assert Text(["X", "b", "a"]) == "X\nb\na";
    PutAt("X", "b\n", "\na");
    assert "X" + "\na" == "X\na" && "X" + "b\n" + "\na" == "Xb\n\na";
    Single("X\na", op);
  }

  /** The result of `getLineInfo(start, end)`. */
  datatype LineInfo = LineInfo(charCount: int, startLine: int, startCol: int, endLine: int, endCol: int)

  /** Line `k`, its newline included, ends past `x` (strictly), or
      reaches `x`. */
  predicate Past(lines: seq<string>, k: nat, x: int, strict: bool)
    requires k < |lines|
  {
    if strict then LineStart(lines, k + 1) > x else LineStart(lines, k + 1) >= x
  }

  /** The first line from `i` on that passes `x`, or `|lines|`. */
  function FirstPast(lines: seq<string>, x: int, strict: bool, i: nat): (j: nat)
    requires i <= |lines|
    ensures i <= j <= |lines|
    ensures forall k :: i <= k < j ==> !Past(lines, k, x, strict)
    ensures j < |lines| ==> Past(lines, j, x, strict)
    decreases |lines| - i
  {
    if i == |lines| then i
    else if Past(lines, i, x, strict) then i
    else FirstPast(lines, x, strict, i + 1)
  }

  /** The first line past `x` is the one line past it with none before. */
  lemma FirstPastIs(lines: seq<string>, x: int, strict: bool, i: nat)
    requires i < |lines| && Past(lines, i, x, strict)
    requires forall k :: 0 <= k < i ==> !Past(lines, k, x, strict)
    ensures FirstPast(lines, x, strict, 0) == i
  {
  }

  /** What `getLineInfo` computes: the end line is the first whose end
      reaches `end`; the start line is the first whose end is past `start`,
      if the scan gets that far before stopping at the end line, else the
      end line with column 0. If no line reaches `end`, the end position
      stays `(0, 0)` and the count covers every line. */
  function LineInfoOf(lines: seq<string>, start: int, end: int): LineInfo
  {
    var e := FirstPast(lines, end, false, 0);
    var s := FirstPast(lines, start, true, 0);
    var (endLine, endCol) := if e < |lines| then (e, end - LineStart(lines, e)) else (0, 0);
    if s <= e && s < |lines| then LineInfo(LineStart(lines, e), s, start - LineStart(lines, s), endLine, endCol)
    else LineInfo(LineStart(lines, e), endLine, 0, endLine, endCol)
  }

  lemma {:induction false} LineStartMonotone(lines: seq<string>, j: nat, k: nat)
    requires j <= k <= |lines|
    ensures LineStart(lines, j) <= LineStart(lines, k)
    ensures j < k ==> LineStart(lines, j) < LineStart(lines, k)
    decreases k - j
  {
    if j < k {
      LineStartMonotone(lines, j, k - 1);
    }
  }

  /** For a span inside the text, `getLineInfo` locates both ends: the
      start line and column add up to `start` with the column inside the
      line, the end line and column add up to `end` with the column at most
      one past the line, and `char_count` is where the end line begins. */
  lemma LineInfoLocates(lines: seq<string>, start: int, end: int)
    requires lines != [] && 0 <= start < end <= |Text(lines)|
    ensures var r := LineInfoOf(lines, start, end);
      0 <= r.startLine <= r.endLine < |lines| &&
      LineStart(lines, r.startLine) + r.startCol == start && 0 <= r.startCol <= |lines[r.startLine]| &&
      LineStart(lines, r.endLine) + r.endCol == end && 0 < r.endCol <= |lines[r.endLine]| + 1 &&
      r.charCount == LineStart(lines, r.endLine)
  {
    var n := |lines|;
    TextLength(lines);
    var e := FirstPast(lines, end, false, 0);
    var s := FirstPast(lines, start, true, 0);
    assert Past(lines, n - 1, end, false);
    assert e < n;
    assert LineStart(lines, e) < end by {
      if e > 0 {
        assert !Past(lines, e - 1, end, false);
      }
    }
    assert Past(lines, e, start, true);
    assert s <= e;
    assert LineStart(lines, s) <= start by {
      if s > 0 {
        assert !Past(lines, s - 1, start, true);
      }
    }
  }

  /** An `end` exactly at the start of line `k + 1` is reported on line
      `k`, one column past its last character. */
  lemma EndAtLineStart(lines: seq<string>, start: int, k: nat)
    requires k + 1 < |lines| && 0 <= start < LineStart(lines, k + 1)
    ensures var r := LineInfoOf(lines, start, LineStart(lines, k + 1));
      r.endLine == k && r.endCol == |lines[k]| + 1
  {
    var end := LineStart(lines, k + 1);
    var e := FirstPast(lines, end, false, 0);
    assert Past(lines, k, end, false);
    assert e <= k;
    if e < k {
      LineStartMonotone(lines, e + 1, k + 1);
    }
  }

  /** The preimage Git hashes for a blob: a header with the length, a NUL,
      then the content. */
  function GitBlob(content: string): string
  {
    "blob " + IntToString(|content|) + "\0" + content
  }

  /** What `writeBuffer` sends: the ops, the content hash preimage of the
      new saved lines and the track-changes flag. */
  datatype Send = Send(ops: seq<Op>, preimage: string, track: bool)

  /** The thread start the cursor moves to: `getNextPosition` or
      `getPrevPosition`. */
  function Navigate(next: bool, t: set<Interval>, o: int): Nav
  {
    if next then NextPosition(t, o) else PrevPosition(t, o)
  }

  class Document {
    /** The `name` of every entry of the path, the document last. */
    var path: seq<string>
    var name: string
    var ext: string
    /** `document["version"]`. */
    var version: int
    var buffer: seq<string>
    var saved: Option<seq<string>>
    var threads: map<string, ThreadRecord>
    var commentSelection: set<Interval>
    var threadIntervals: set<Interval>
    var cumulativeLines: NaiveAccumulator

    /** The editor always holds a line; the saved lines, once there, are
        never empty and the accumulator describes them. */
    ghost predicate Valid()
      reads this, cumulativeLines
    {
      |path| >= 1 && buffer != [] && cumulativeLines.Valid() &&
      Proper(commentSelection) && Proper(threadIntervals) &&
      (saved.Some? ==> saved.value != [] && Consistent(cumulativeLines.entries, cumulativeLines.lastIndex, saved.value))
    }

    /** A new document: its name and file type from the path, one empty
        line, nothing saved yet, an empty accumulator. */
    constructor (path: seq<string>, version: int)
      requires |path| >= 1
      ensures this.path == path && this.version == version
      ensures name == GetName(path) && ext == GetExt(path[|path| - 1])
      ensures buffer == [""] && saved == None && threads == map[]
      ensures commentSelection == {} && threadIntervals == {}
      ensures cumulativeLines.entries == [0] && cumulativeLines.lastIndex == 0
      ensures fresh(cumulativeLines)
      ensures Valid()
    {
      this.path := path;
      name := GetName(path);
      ext := GetExt(path[|path| - 1]);
      this.version := version;
      buffer := [""];
      saved := None;
      threads := map[];
      commentSelection := {};
      threadIntervals := {};
      cumulativeLines := new NaiveAccumulator([]);
    }

    /** `write(lines)`: the buffer is cleared and refilled with `lines`,
        the accumulator gets each line's length (plus its newline but for
        the last line), and the lines are saved. Empty `lines` raise
        `IndexError` once the buffer holds one empty line. */
    method Write(lines: seq<string>) returns (out: Outcome)
      requires Valid()
      modifies this`buffer, this`saved, cumulativeLines
      ensures lines == [] ==>
        out == Raised("IndexError") && buffer == [""] && saved == old(saved) &&
        cumulativeLines.entries == old(cumulativeLines.entries) && cumulativeLines.lastIndex == old(cumulativeLines.lastIndex)
      ensures lines != [] ==>
        out == Done && buffer == lines && saved == Some(lines) &&
        cumulativeLines.entries == LineLengths(lines) + [0] && cumulativeLines.lastIndex == |lines|
      ensures Valid()
    {
      buffer := [""];
      if lines == [] {
        return Raised("IndexError");
      }
      buffer := [lines[0]];
      var lengths := seq(|lines|, k => 0);
      lengths := lengths[0 := |lines[0]| + 1];
      var i := 1;
      while i < |lines|
        invariant 1 <= i <= |lines| && |lengths| == |lines|
        invariant buffer == lines[..i]
        invariant forall k :: 0 <= k < |lines| ==> lengths[k] == if k < i then |lines[k]| + 1 else 0
        invariant saved == old(saved)
      {
        buffer := buffer + [lines[i]];
        lengths := lengths[i := |lines[i]| + 1];
        i := i + 1;
      }
      lengths := lengths[|lines| - 1 := lengths[|lines| - 1] - 1];
      assert lengths == LineLengths(lines);
      cumulativeLines.Initialize(lengths);
      saved := Some(buffer);
      return Done;
    }

    /** `getLineInfo(start, end)`: the lines are scanned once, counting
        characters, until the line that reaches `end`. */
    method GetLineInfo(start: int, end: int) returns (info: LineInfo)
      ensures info == LineInfoOf(buffer, start, end)
    {
      var charCount, startLine, startCol, endLine, endCol := 0, -1, 0, 0, 0;
      ghost var e := FirstPast(buffer, end, false, 0);
      ghost var s := FirstPast(buffer, start, true, 0);
      var i := 0;
      while i < |buffer|
        invariant 0 <= i <= e
        invariant charCount == LineStart(buffer, i)
        invariant startLine == -1 ==> i <= s && startCol == 0
        invariant startLine != -1 ==> startLine == s < i && startCol == start - LineStart(buffer, s)
        invariant endLine == 0 && endCol == 0
      {
        var lineLength := |buffer[i]| + 1;
        assert LineStart(buffer, i + 1) == charCount + lineLength;
        if charCount + lineLength > start && startLine == -1 {
          startLine, startCol := i, start - charCount;
          assert Past(buffer, i, start, true);
        }
        if charCount + lineLength >= end {
          endLine, endCol := i, end - charCount;
          assert Past(buffer, i, end, false);
          assert e == i;
          assert startLine == -1 ==> !Past(buffer, i, start, true) && s > i;
          break;
        }
        assert !Past(buffer, i, end, false);
        charCount := charCount + lineLength;
        i := i + 1;
      }
      assert i < |buffer| ==> e == i && endLine == e && endCol == end - LineStart(buffer, e);
      assert i == |buffer| ==> e == i && endLine == 0 && endCol == 0;
      assert charCount == LineStart(buffer, e);
      if startLine < 0 {
        assert !(s <= e && s < |buffer|);
        startLine := endLine;
      } else {
        assert s <= e && s < |buffer|;
      }
      return LineInfo(charCount, startLine, startCol, endLine, endCol);
    }

    /** The `content_hash` preimage: `"blob " + str(n) + "\x00"` and the
        saved text, where `n` adds up each saved line plus a newline, less
        one. Before the first `write` copying `None` raises `TypeError`. */
    method ContentHashInput() returns (r: Result<string>)
      ensures saved.None? ==> r == Err("TypeError")
      ensures saved.Some? && saved.value != [] ==> r == Ok(GitBlob(Text(saved.value)))
      ensures saved == Some([]) ==> r == Ok("blob " + IntToString(-1) + "\0")
    {
      if saved.None? {
        return Err("TypeError");
      }
      var rows := saved.value;
      var currentLen := 0;
      var i := 0;
      while i < |rows|
        invariant 0 <= i <= |rows|
        invariant currentLen == LineStart(rows, i)
      {
        currentLen := currentLen + |rows[i]| + 1;
        i := i + 1;
      }
      currentLen := currentLen - 1;
      if rows != [] {
        TextLength(rows);
      } else {
        assert "blob " + IntToString(currentLen) + "\0" + Text(rows) == "blob " + IntToString(-1) + "\0";
      }
      return Ok("blob " + IntToString(currentLen) + "\0" + Text(rows));
    }

    /** `markComment(*lineinfo)`: with no pending selection, the span
        between the two positions becomes the selection; an empty or
        reversed span raises `ValueError` (after the selection was reset).
        A pending selection is kept. */
    method MarkComment(startLine: int, startCol: int, endLine: int, endCol: int) returns (out: Outcome)
      requires Valid()
      modifies this`commentSelection
      ensures old(commentSelection) != {} ==> out == Done && commentSelection == old(commentSelection)
      ensures old(commentSelection) == {} ==>
        var b, e := cumulativeLines.Position(startLine, startCol), cumulativeLines.Position(endLine, endCol);
        (b < e ==> out == Done && commentSelection == {Interval(b, e, NoData)}) &&
        (b >= e ==> out == Raised("ValueError") && commentSelection == {})
      ensures Valid()
    {
      if commentSelection != {} {
        return Done;
      }
      commentSelection := {};
      var b, e := cumulativeLines.Position(startLine, startCol), cumulativeLines.Position(endLine, endCol);
      if b >= e {
        return Raised("ValueError");
      }
      commentSelection := {Interval(b, e, NoData)};
      return Done;
    }

    /** `getCommentPosition(next, prev)` for the editor cursor `cursor` (a
        1-based row and a column): the next or previous thread's start as
        a 1-based row and a column, and its place in the count; both flags
        or neither give `((-1, -1), 0)`. */
    method GetCommentPosition(next: bool, prev: bool, cursor: (int, int)) returns (position: (int, int), count: int)
      ensures next == prev ==> position == (-1, -1) && count == 0
      ensures next != prev ==>
        var o := cumulativeLines.Position(cursor.0 - 1, cursor.1);
        var nav := Navigate(next, threadIntervals, o);
        (nav.NotFound? ==> position == (-1, -1) && count == 0) &&
        (nav.Found? ==>
          var info := LineInfoOf(buffer, nav.begin, nav.begin + 1);
          position == (info.startLine + 1, info.startCol) && count == nav.count)
    {
      if next == prev {
        return (-1, -1), 0;
      }
      var o := cumulativeLines.Position(cursor.0 - 1, cursor.1);
      var nav := Navigate(next, threadIntervals, o);
      position, count := StartOf(nav);
    }

    /** The 1-based row and the column of the thread start `nav` found, and
        its place in the count; `((-1, -1), 0)` when none was found. */
    method StartOf(nav: Nav) returns (position: (int, int), count: int)
      ensures nav.NotFound? ==> position == (-1, -1) && count == 0
      ensures nav.Found? ==>
        var info := LineInfoOf(buffer, nav.begin, nav.begin + 1);
        position == (info.startLine + 1, info.startCol) && count == nav.count
    {
      if nav.NotFound? {
        return (-1, -1), 0;
      }
      var info := GetLineInfo(nav.begin, nav.begin + 1);
      return (info.startLine + 1, info.startCol), nav.count;
    }

    /** `applyUpdate(packet)`: a packet version at or past the document's
        moves the document to the next one; a packet with ops runs them
        (`applyOps`) on the buffer and the saved lines, stopping at the
        first exception, which is logged and reported here as `out`. As
        corrected here, the accumulator is then rebuilt from the saved
        lines, which `applyOps` as written leaves stale. */
    method ApplyUpdate(packet: Packet) returns (out: Outcome)
      requires Valid()
      modifies this`version, this`buffer, this`saved, this`threads, cumulativeLines
      ensures packet.v.Some? && packet.v.value >= old(version) ==> version == packet.v.value + 1
      ensures !(packet.v.Some? && packet.v.value >= old(version)) ==> version == old(version)
      ensures packet.op.None? ==> out == Done && buffer == old(buffer) && saved == old(saved) && threads == old(threads)
      ensures packet.op.Some? ==>
        var r := RunDocOps(DocState(old(buffer), old(saved), old(threads)), packet.op.value, packet.meta);
        out == r.0 && buffer == r.1.buffer && saved == r.1.saved && threads == r.1.threads
      ensures Valid()
    {
      if packet.v.Some? && packet.v.value >= version {
        version := packet.v.value + 1;
      }
      if packet.op.None? {
        return Done;
      }
      out := RunOps(packet.op.value, packet.meta);
      if saved.Some? {
        cumulativeLines.Initialize(LineLengths(saved.value));
      }
    }

    /** The op loop of `applyOps`: each op runs on the buffer and the saved
        lines until one raises. */
    method RunOps(ops: seq<Op>, meta: Option<Meta>) returns (out: Outcome)
      requires buffer != [] && SavedNonEmpty(DocState(buffer, saved, threads))
      modifies this`buffer, this`saved, this`threads
      ensures (out, DocState(buffer, saved, threads)) == RunDocOps(DocState(old(buffer), old(saved), old(threads)), ops, meta)
      ensures buffer != [] && SavedNonEmpty(DocState(buffer, saved, threads))
    {
      ghost var start := DocState(buffer, saved, threads);
      out := Done;
      var k := 0;
      while k < |ops|
        invariant 0 <= k <= |ops|
        invariant out == Done
        invariant RunDocOps(start, ops, meta) == RunDocOps(DocState(buffer, saved, threads), ops[k..], meta)
        invariant buffer != [] && SavedNonEmpty(DocState(buffer, saved, threads))
      {
        var (o, next) := RunDocOp(DocState(buffer, saved, threads), ops[k], meta);
        buffer, saved, threads := next.buffer, next.saved, next.threads;
        if o.Raised? {
          out := o;
          return;
        }
        k := k + 1;
      }
    }

    /** `writeBuffer()`: the buffer lines are compared with the saved ones
        (the row chunks `codes` and, for each `replace` chunk, the
        character chunks `inner[k]` are the `SequenceMatcher` opcodes the
        source computes); one op per inserted or deleted row run and the
        character ops of each replaced run are collected, offsets read from
        a copy of the accumulator, and sent last-first with the new saved
        lines' hash preimage. Nothing is sent before the first `write`,
        when nothing changed, or when the diff yields no op. */
    method WriteBuffer(codes: seq<Opcode>, inner: seq<seq<Opcode>>, track: bool) returns (sent: Option<Send>)
      requires Valid()
      requires saved.Some? ==> Matches(codes, saved.value, buffer) && InnerMatches(codes, inner, saved.value, buffer)
      modifies this`saved, cumulativeLines
      ensures old(saved).None? || old(saved) == Some(buffer) ==>
        sent == None && saved == old(saved) && cumulativeLines.entries == old(cumulativeLines.entries)
      ensures old(saved).Some? && old(saved).value != buffer ==>
        var ops := Reverse(RowOps(codes, inner, old(saved).value, buffer, old(cumulativeLines.entries), old(cumulativeLines.lastIndex)));
        (ops == [] ==> sent == None && saved == old(saved)) &&
        (ops != [] ==> sent == Some(Send(ops, GitBlob(Text(buffer)), track)) && saved == Some(buffer))
      ensures sent.Some? ==> old(saved).Some? && ApplyOps(Text(old(saved).value), sent.value.ops) == Text(buffer)
      ensures sent.Some? ==> AppliesAll(Text(old(saved).value), sent.value.ops)
      ensures sent.Some? ==> Consistent(cumulativeLines.entries, cumulativeLines.lastIndex, buffer)
      ensures Valid()
    {
      if saved.None? {
        return None;
      }
      var rows, buf := saved.value, buffer;
      var same := SameRows(rows, buf);
      if same {
        return None;
      }
      var pos, last := cumulativeLines.entries, cumulativeLines.lastIndex;
      var ops := CollectOps(codes, inner, rows, buf, pos, last);
      if ops == [] {
        return None;
      }
      ops := Reverse(ops);
      RowRoundTrip(codes, inner, rows, buf, pos, last);
      saved := Some(buf);
      cumulativeLines.Initialize(LineLengths(buf));
      var preimage := ContentHashInput();
      return Some(Send(ops, preimage.value, track));
    }
  }

  /** The chunk loop of `writeBuffer`: the ops of every row chunk, in
      chunk order. */
  method CollectOps(codes: seq<Opcode>, inner: seq<seq<Opcode>>, rows: seq<string>, buf: seq<string>, pos: seq<int>, last: int) returns (ops: seq<Op>)
    requires |inner| == |codes|
    ensures ops == RowOps(codes, inner, rows, buf, pos, last)
  {
    ops := [];
    var k := 0;
    while k < |codes|
      invariant 0 <= k <= |codes|
      invariant ops == RowOps(codes[..k], inner[..k], rows, buf, pos, last)
    {
      var chunk := RowChunkOps(codes[k], inner[k], rows, buf, pos, last);
      assert codes[..k + 1][..k] == codes[..k] && inner[..k + 1][..k] == inner[..k];
      ops := ops + chunk;
      k := k + 1;
    }
    assert codes[..k] == codes && inner[..k] == inner;
  }

  /** The rows the buffer and the saved lines hold are the same: the
      lengths agree and a line-by-line comparison finds no difference. */
  method SameRows(rows: seq<string>, buf: seq<string>) returns (same: bool)
    ensures same <==> rows == buf
  {
    if |rows| != |buf| {
      return false;
    }
    var k := 0;
    while k < |rows| && rows[k] == buf[k]
      invariant 0 <= k <= |rows|
      invariant rows[..k] == buf[..k]
    {
      k := k + 1;
    }
    if k == |rows| {
      assert rows == rows[..k] && buf == buf[..k];
      return true;
    }
    return false;
  }

  /** One pass of the chunk loop of `writeBuffer`, as corrected. */
  method RowChunkOps(c: Opcode, inner: seq<Opcode>, rows: seq<string>, buf: seq<string>, pos: seq<int>, last: int) returns (chunk: seq<Op>)
    ensures chunk == ChunkOps(c, inner, rows, buf, pos, last)
  {
    if c.tag == Equal {
      chunk := [];
    } else if c.tag == Insert {
      var s := Joined(buf, c.j1, c.j2);
      if c.i1 >= |rows| {
        chunk := [Insertion(Cumulative(pos, last, -1), "\n" + s)];
      } else {
        chunk := [Insertion(Cumulative(pos, last, c.i1), s + "\n")];
      }
    } else if c.tag == Delete {
      var s := Joined(rows, c.i1, c.i2);
      if c.i2 == |rows| {
        chunk := [Deletion(Cumulative(pos, last, -(c.i2 - c.i1) - 1) - 1, "\n" + s)];
      } else {
        chunk := [Deletion(Cumulative(pos, last, c.i1), s + "\n")];
      }
    } else {
      chunk := ReplaceOps(inner, Joined(rows, c.i1, c.i2), Joined(buf, c.j1, c.j2), Cumulative(pos, last, c.i1));
    }
  }

  /** The character ops of one `replace` row chunk: for each inner chunk
      of `oldText` into `newText`, at `linestart` plus its offset in
      `oldText`, an
      insertion of the new characters, a deletion of the old ones, or
      both, insertion first. */
  method ReplaceOps(inner: seq<Opcode>, oldText: string, newText: string, linestart: int) returns (ops: seq<Op>)
    ensures ops == EmitAll(inner, oldText, newText, linestart)
  {
    ops := [];
    var m := 0;
    while m < |inner|
      invariant 0 <= m <= |inner|
      invariant ops == EmitAll(inner[..m], oldText, newText, linestart)
    {
      var op2 := inner[m];
      if op2.tag == Replace {
        ops := ops + [Insertion(linestart + op2.i1, Slice(newText, op2.j1, op2.j2)), Deletion(linestart + op2.i1, Slice(oldText, op2.i1, op2.i2))];
      } else if op2.tag == Insert {
        ops := ops + [Insertion(linestart + op2.i1, Slice(newText, op2.j1, op2.j2))];
      } else if op2.tag == Delete {
        ops := ops + [Deletion(linestart + op2.i1, Slice(oldText, op2.i1, op2.i2))];
      }
      assert inner[..m + 1][..m] == inner[..m];
      m := m + 1;
    }
    assert inner[..m] == inner;
  }
}
