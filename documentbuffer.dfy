/** documentbuffer.py: the older editor buffer of one document. It keeps
    the lines on screen (`buffer`), the lines last synchronised with the
    server (`saved_buffer`, `None` until the first `write`) and the
    document's version. Remote ops edit both lists; local edits are sent
    as the ops of a character-level diff of the two texts. */
module DocumentBuffer {
  import opened Base
  import opened PySeq
  import opened PyText
  import opened Ops
  import opened Lines
  import opened Edits
  import opened LineOps

  /** What one op of an update does in `applyOps`: `_remove` on the
      buffer, then on the saved lines, then `_insert` on the buffer, then
      on the saved lines. The first failure ends the op; what was done
      before it stays done. The saved-line insert scans the saved lines
      themselves (`InsertedSavedAsWritten` is the code as written). */
  function RunOp(buffer: seq<string>, saved: Option<seq<string>>, op: Op): (Outcome, seq<string>, Option<seq<string>>)
  {
    var (out1, buffer1, saved1) := RunRemove(buffer, saved, op);
    if out1.Raised? || op.i.None? then (out1, buffer1, saved1)
    else
      match Inserted(buffer1, buffer1, op.p, op.i.value)
      case Err(e) => (Raised(e), buffer1, saved1)
      case Ok(buffer2) =>
        if saved1.None? then (Raised("TypeError"), buffer2, saved1)
        else match Inserted(saved1.value, saved1.value, op.p, op.i.value)
          case Err(e) => (Raised(e), buffer2, saved1)
          case Ok(saved2) => (Done, buffer2, Some(saved2))
  }

  /** The deletion half of one op. */
  function RunRemove(buffer: seq<string>, saved: Option<seq<string>>, op: Op): (Outcome, seq<string>, Option<seq<string>>)
  {
    if op.d.None? then (Done, buffer, saved)
    else
      match Removed(buffer, op.p, op.d.value)
      case Err(e) => (Raised(e), buffer, saved)
      case Ok(buffer1) =>
        if saved.None? then (Raised("TypeError"), buffer1, saved)
        else match Removed(saved.value, op.p, op.d.value)
          case Err(e) => (Raised(e), buffer1, saved)
          case Ok(saved1) => (Done, buffer1, Some(saved1))
  }

  /** The whole `applyOps` loop: ops in list order; an exception ends the
      loop and propagates. */
  function RunOps(buffer: seq<string>, saved: Option<seq<string>>, ops: seq<Op>): (Outcome, seq<string>, Option<seq<string>>)
    decreases |ops|
  {
    if ops == [] then (Done, buffer, saved)
    else
      var (out, buffer1, saved1) := RunOp(buffer, saved, ops[0]);
      if out.Raised? then (out, buffer1, saved1) else RunOps(buffer1, saved1, ops[1..])
  }

  /** When the two lists agree, one fitting op edits both alike, and each
      as the op edits the text. */
  lemma RunOpSynced(lines: seq<string>, op: Op)
    requires Clean(lines) && lines != [] && Applies(Text(lines), op)
    ensures var r := EditLines(lines, op);
      r.Ok? && RunOp(lines, Some(lines), op) == (Done, r.value, Some(r.value))
    ensures var r := EditLines(lines, op).value;
      Text(r) == ApplyOp(Text(lines), op) && Clean(r) && r != []
  {
    EditLinesText(lines, op);
  }

  /** A remote batch that fits the text keeps the buffer and the saved
      lines equal, and turns their text into the text the ops produce. */
  lemma {:induction false} RunOpsSynced(lines: seq<string>, ops: seq<Op>)
    requires Clean(lines) && lines != [] && AppliesAll(Text(lines), ops)
    ensures var (out, buffer, saved) := RunOps(lines, Some(lines), ops);
      out == Done && saved == Some(buffer) && Text(buffer) == ApplyOps(Text(lines), ops) && Clean(buffer)
    decreases |ops|
  {
    if ops != [] {
      RunOpSynced(lines, ops[0]);
      RunOpsSynced(EditLines(lines, ops[0]).value, ops[1..]);
    }
  }

  /** The insertion into the saved lines as written: the line is looked up
      in the buffer, which the same op has already edited. */
  function InsertedSavedAsWritten(buffer: seq<string>, saved: seq<string>, op: Op): Result<seq<string>>
    requires op.i.Some?
  {
    Inserted(buffer, saved, op.p, op.i.value)
  }

  /** With the code as written, inserting `"X"` at 1 into `["ab"]` on both
      lists gives `["aXb"]` on screen but `["aXXb"]` saved: the saved line
      takes its tail from the edited buffer line. */
  lemma SavedInsertDiverges()
    ensures var op := Insertion(1, "X");
      Inserted(["ab"], ["ab"], 1, "X") == Ok(["aXb"]) &&
      InsertedSavedAsWritten(["aXb"], ["ab"], op) == Ok(["aXXb"])
  {
    assert Split("", '\n') == [""];
    assert "X"[1..] == "" && ['X'] + "" == "X";
    assert Split("X", '\n') == ["X"];
    assert FindLine(["ab"], 1) == Some((0, 0));
    assert FindLine(["aXb"], 1) == Some((0, 0));
    assert Take("ab", 1) == "a" && Drop("ab", 1) == "b";
    assert Take("aXb", 1) == "a" && Drop("aXb", 1) == "Xb";
    assert SpliceLines(["ab"], 0, "a", ["X"], "b") == ["a" + ("X" + "b")];
    assert "a" + ("X" + "b") == "aXb";
    assert SpliceLines(["ab"], 0, "a", ["X"], "Xb") == ["a" + ("X" + "Xb")];
    assert "a" + ("X" + "Xb") == "aXXb";
  }

  /** The ops `writeBuffer` sends for a diff of the saved text `a` against
      the buffer text `b`: one or two per changed chunk, in old-text
      offsets, with the list reversed. */
  function DiffOps(codes: seq<Opcode>, a: string, b: string): seq<Op>
  {
    Reverse(EmitAll(codes, a, b, 0))
  }

  class DocumentBuffer {
    /** The `name` of every entry of the path, the document last. */
    var path: seq<string>
    /** `document["version"]`. */
    var version: int
    var buffer: seq<string>
    var saved: Option<seq<string>>

    /** An editor buffer always holds at least one line. */
    ghost predicate Valid()
      reads this
    {
      |path| >= 1 && buffer != []
    }

    /** A new buffer: one empty line and nothing saved yet. */
    constructor (path: seq<string>, version: int)
      requires |path| >= 1
      ensures this.path == path && this.version == version
      ensures buffer == [""] && saved == None
      ensures Valid()
    {
      this.path := path;
      this.version := version;
      buffer := [""];
      saved := None;
    }

    /** `write(lines)`: the first line replaces line 0, the others are
        appended, and the result is saved. Empty `lines` raise `IndexError`
        before anything changes. */
    method Write(lines: seq<string>) returns (out: Outcome)
      requires Valid()
      modifies this`buffer, this`saved
      ensures lines == [] ==> out == Raised("IndexError") && buffer == old(buffer) && saved == old(saved)
      ensures lines != [] ==>
        out == Done && buffer == [lines[0]] + old(buffer)[1..] + lines[1..] && saved == Some(buffer)
      ensures lines != [] && |old(buffer)| == 1 ==> buffer == lines
      ensures Valid()
    {
      if lines == [] {
        return Raised("IndexError");
      }
      buffer := buffer[0 := lines[0]];
      assert buffer == [lines[0]] + old(buffer)[1..] + lines[1..1];
      var k := 1;
      while k < |lines|
        invariant 1 <= k <= |lines|
        invariant buffer == [lines[0]] + old(buffer)[1..] + lines[1..k]
        invariant saved == old(saved)
      {
        buffer := buffer + [lines[k]];
        k := k + 1;
      }
      assert lines[1..k] == lines[1..];
      saved := Some(buffer);
      if |old(buffer)| == 1 {
        assert old(buffer)[1..] == [];
        assert lines == [lines[0]] + lines[1..];
      }
      return Done;
    }

    /** `applyUpdate(packet)`: a newer version is taken over; the packet's
        ops, if any, then edit both lists as `RunOps` says. */
    method ApplyUpdate(packet: Packet) returns (out: Outcome)
      requires Valid()
      modifies this`version, this`buffer, this`saved
      ensures version == if packet.v.Some? && packet.v.value > old(version) then packet.v.value else old(version)
      ensures packet.op.None? ==> out == Done && buffer == old(buffer) && saved == old(saved)
      ensures packet.op.Some? ==> (out, buffer, saved) == RunOps(old(buffer), old(saved), packet.op.value)
      ensures Valid()
    {
      if packet.v.Some? && packet.v.value > version {
        version := packet.v.value;
      }
      if packet.op.None? {
        return Done;
      }
      out := ApplyBatch(packet.op.value);
    }

    /** The `applyOps` callback: the ops in list order until one raises. */
    method ApplyBatch(ops: seq<Op>) returns (out: Outcome)
      requires Valid()
      modifies this`buffer, this`saved
      ensures (out, buffer, saved) == RunOps(old(buffer), old(saved), ops)
      ensures Valid()
    {
      var k := 0;
      while k < |ops|
        invariant 0 <= k <= |ops| && Valid()
        invariant RunOps(old(buffer), old(saved), ops) == RunOps(buffer, saved, ops[k..])
      {
        assert ops[k..][1..] == ops[k + 1..];
        out := ApplyOne(ops[k]);
        if out.Raised? {
          return;
        }
        k := k + 1;
      }
      return Done;
    }

    /** One op of `applyOps`: the deletion half, then the insertion half. */
    method ApplyOne(op: Op) returns (out: Outcome)
      requires Valid()
      modifies this`buffer, this`saved
      ensures (out, buffer, saved) == RunOp(old(buffer), old(saved), op)
      ensures Valid()
    {
      out := RemoveOne(op);
      if out.Raised? || op.i.None? {
        return;
      }
      var r := Inserted(buffer, buffer, op.p, op.i.value);
      if r.Err? {
        return Raised(r.error);
      }
      buffer := r.value;
      if saved.None? {
        return Raised("TypeError");
      }
      var r2 := Inserted(saved.value, saved.value, op.p, op.i.value);
      if r2.Err? {
        return Raised(r2.error);
      }
      saved := Some(r2.value);
      return Done;
    }

    /** The deletion half of one op. */
    method RemoveOne(op: Op) returns (out: Outcome)
      requires Valid()
      modifies this`buffer, this`saved
      ensures (out, buffer, saved) == RunRemove(old(buffer), old(saved), op)
      ensures Valid()
    {
      if op.d.None? {
        return Done;
      }
      var r := Removed(buffer, op.p, op.d.value);
      if r.Err? {
        return Raised(r.error);
      }
      buffer := r.value;
      if saved.None? {
        return Raised("TypeError");
      }
      var r2 := Removed(saved.value, op.p, op.d.value);
      if r2.Err? {
        return Raised(r2.error);
      }
      saved := Some(r2.value);
      return Done;
    }

    /** `writeBuffer()` given the opcodes `SequenceMatcher` finds between
        the saved text and the buffer text. Nothing is sent before the
        first `write`, when the lists are equal line for line, or when no
        op arises; otherwise the ops sent turn the saved text into the
        buffer text, and the buffer becomes the saved state. */
    method WriteBuffer(codes: seq<Opcode>) returns (sent: Option<seq<Op>>)
      requires Valid()
      requires saved.Some? ==> Matches(codes, Text(saved.value), Text(buffer))
      modifies this`saved
      ensures old(saved).None? || old(saved) == Some(buffer) ==> sent == None
      ensures sent.None? ==> saved == old(saved)
      ensures sent.None? && old(saved).Some? ==> Text(old(saved).value) == Text(buffer)
      ensures sent.Some? ==>
        old(saved).Some? && sent.value == DiffOps(codes, Text(old(saved).value), Text(buffer)) &&
        sent.value != [] && saved == Some(buffer)
      ensures sent.Some? ==> ApplyOps(Text(old(saved).value), sent.value) == Text(buffer)
      ensures sent.Some? ==> AppliesAll(Text(old(saved).value), sent.value)
      ensures Valid()
    {
      if saved.None? {
        return None;
      }
      var before := saved.value;
      var same := SameLines(before, buffer);
      if same {
        return None;
      }
      var a, b := Text(before), Text(buffer);
      var ops := CollectOps(codes, a, b);
      DiffOpsMeaning(codes, a, b);
      if ops == [] {
        return None;
      }
      saved := Some(buffer);
      return Some(Reverse(ops));
    }
  }

  /** The ops of a diff turn the old text into the new one, and there are
      none only when the texts are equal. */
  lemma DiffOpsMeaning(codes: seq<Opcode>, a: string, b: string)
    requires Matches(codes, a, b)
    ensures EmitAll(codes, a, b, 0) == [] ==> a == b
    ensures ApplyOps(a, DiffOps(codes, a, b)) == b
    ensures AppliesAll(a, DiffOps(codes, a, b))
  {
    if EmitAll(codes, a, b, 0) == [] {
      EmitNothing(codes, a, b, 0);
    }
    DiffRoundTrip(codes, a, b);
  }

  /** `EmitRoundTrip` with nothing around the two texts. */
  lemma DiffRoundTrip(codes: seq<Opcode>, a: string, b: string)
    requires Matches(codes, a, b)
    ensures ApplyOps(a, DiffOps(codes, a, b)) == b
    ensures AppliesAll(a, DiffOps(codes, a, b))
  {
    EmitRoundTrip(codes, a, b, "", "");
    assert "" + a + "" == a;
    assert "" + b + "" == b;
  }

  /** The early exit of `writeBuffer`: lists of the same length compared
      line by line. */
  method SameLines(before: seq<string>, buffer: seq<string>) returns (same: bool)
    ensures same <==> before == buffer
  {
    if |before| != |buffer| {
      return false;
    }
    same := true;
    var k := 0;
    while k < |before| && same
      invariant 0 <= k <= |before|
      decreases |before| - k, if same then 1 else 0
      invariant same ==> before[..k] == buffer[..k]
      invariant !same ==> k < |before| && before[k] != buffer[k]
    {
      if before[k] != buffer[k] {
        same := false;
      } else {
        assert before[..k + 1] == before[..k] + [before[k]];
        assert buffer[..k + 1] == buffer[..k] + [buffer[k]];
        k := k + 1;
      }
    }
    if same {
      assert before == before[..k] && buffer == buffer[..k];
    }
  }

  /** The loop over the opcodes of `writeBuffer`, gathering the ops of
      every chunk in order. */
  method CollectOps(codes: seq<Opcode>, a: string, b: string) returns (ops: seq<Op>)
    ensures ops == EmitAll(codes, a, b, 0)
  {
    ops := [];
    var k := 0;
    while k < |codes|
      invariant 0 <= k <= |codes|
      invariant ops == EmitAll(codes[..k], a, b, 0)
    {
      assert codes[..k + 1][..k] == codes[..k];
      ops := ops + Emitted(codes[k], a, b, 0);
      k := k + 1;
    }
    assert codes[..k] == codes;
  }
}
