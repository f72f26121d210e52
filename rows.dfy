/** The row-level diff of buffers/document.py `writeBuffer`: the opcodes of
    the old and new line lists become whole-row inserts and deletes, and a
    `replace` chunk is diffed again character by character. Offsets come
    from a copy `pos` of the line-length accumulator taken before the loop,
    so they are only right while that accumulator describes the old lines
    (`Consistent`). */
module Rows {
  import opened Base
  import opened PySeq
  import opened PyText
  import opened Ops
  import opened Lines
  import opened Edits
  import opened Accumulator

  /** The entries `write` gives the accumulator: each line's length plus
      its newline, and the last line's length alone. */
  function LineLengths(lines: seq<string>): (r: seq<int>)
    ensures |r| == |lines|
  {
    seq(|lines|, k requires 0 <= k < |lines| => if k == |lines| - 1 then |lines[k]| else |lines[k]| + 1)
  }

  /** The accumulator describes `lines`, as `write` leaves it. */
  predicate Consistent(entries: seq<int>, lastIndex: int, lines: seq<string>)
  {
    entries == LineLengths(lines) + [0] && lastIndex == |lines|
  }

  /** The entries before line `i` add up to the offset where it starts. */
  lemma {:induction false} LengthsPrefix(lines: seq<string>, i: nat)
    requires i < |lines|
    ensures Sum(LineLengths(lines)[..i]) == LineStart(lines, i)
  {
    if i > 0 {
      LengthsPrefix(lines, i - 1);
      SumPrefixStep(LineLengths(lines), i - 1);
    }
  }

  /** All entries add up to the length of the text. */
  lemma LengthsTotal(lines: seq<string>)
    requires lines != []
    ensures Sum(LineLengths(lines)) == |Text(lines)|
  {
    var n := |lines|;
    LengthsPrefix(lines, n - 1);
    SumPrefixStep(LineLengths(lines), n - 1);
    assert LineLengths(lines)[..n] == LineLengths(lines);
    TextLength(lines);
  }

  /** A consistent accumulator gives the offset where each line starts. */
  lemma PositionOfLine(entries: seq<int>, lastIndex: int, lines: seq<string>, i: nat)
    requires Consistent(entries, lastIndex, lines) && i < |lines|
    ensures Cumulative(entries, lastIndex, i) == LineStart(lines, i)
  {
    assert entries[..i] == LineLengths(lines)[..i];
    LengthsPrefix(lines, i);
  }

  /** ... also when line `i` is counted from the end, `pos[i - len - 1]`. */
  lemma PositionFromEnd(entries: seq<int>, lastIndex: int, lines: seq<string>, i: nat)
    requires Consistent(entries, lastIndex, lines) && i < |lines|
    ensures Cumulative(entries, lastIndex, i - |lines| - 1) == LineStart(lines, i)
  {
    assert entries[..i] == LineLengths(lines)[..i];
    LengthsPrefix(lines, i);
  }

  /** ... and `pos[-1]` is the length of the text. */
  lemma PositionOfEnd(entries: seq<int>, lastIndex: int, lines: seq<string>)
    requires Consistent(entries, lastIndex, lines) && lines != []
    ensures Cumulative(entries, lastIndex, -1) == |Text(lines)|
  {
    assert entries[..|entries| - 1] == LineLengths(lines);
    LengthsTotal(lines);
  }

  /** The text of some lines followed by the newline that ends them. */
  function Head(p: seq<string>): string
  {
    if p == [] then "" else Text(p) + "\n"
  }

  /** The newline that starts some lines followed by their text. */
  function Tail(r: seq<string>): string
  {
    if r == [] then "" else "\n" + Text(r)
  }

  /** The text of three runs of lines, the middle one non-empty. */
  lemma TextThree(p: seq<string>, q: seq<string>, r: seq<string>)
    requires q != []
    ensures Text(p + q + r) == Head(p) + Text(q) + Tail(r)
  {
    var pq := p + q;
    assert Text(pq) == Head(p) + Text(q) by {
      if p == [] {
        assert pq == q;
      } else {
        JoinAppend(p, q, '\n');
      }
    }
    if r == [] {
      assert p + q + r == pq;
    } else {
      JoinAppend(pq, r, '\n');
    }
  }

  /** `"\n".join(rows[i:j])`. */
  function Joined(rows: seq<string>, i: int, j: int): string
  {
    Text(Slice(rows, i, j))
  }

  /** The ops the corrected `writeBuffer` emits for one row chunk, with
      offsets read from the copy `pos` (`last` its `last_index`): a row
      insert at the end of the text goes at `pos[-1]` with its newline in
      front, elsewhere at the start of row `i1` with its newline behind; a
      row delete that reaches the last old row takes the newline before it;
      a `replace` chunk emits the character-level ops of `inner` from the
      start of row `i1`. */
  function ChunkOps(c: Opcode, inner: seq<Opcode>, saved: seq<string>, buffer: seq<string>, pos: seq<int>, last: int): seq<Op>
  {
    match c.tag
    case Equal => []
    case Insert =>
      var s := Joined(buffer, c.j1, c.j2);
      if c.i1 >= |saved| then [Insertion(Cumulative(pos, last, -1), "\n" + s)]
      else [Insertion(Cumulative(pos, last, c.i1), s + "\n")]
    case Delete =>
      var s := Joined(saved, c.i1, c.i2);
      if c.i2 == |saved| then [Deletion(Cumulative(pos, last, -(c.i2 - c.i1) - 1) - 1, "\n" + s)]
      else [Deletion(Cumulative(pos, last, c.i1), s + "\n")]
    case Replace =>
      EmitAll(inner, Joined(saved, c.i1, c.i2), Joined(buffer, c.j1, c.j2), Cumulative(pos, last, c.i1))
  }

  /** The ops for one row chunk as document.py:454-500 writes them: a row
      insert at the end goes at `pos[-1] - 1`, and a row delete is taken to
      reach the end when `i1 == len(buffer)`. */
  function ChunkOpsAsWritten(c: Opcode, inner: seq<Opcode>, saved: seq<string>, buffer: seq<string>, pos: seq<int>, last: int): seq<Op>
  {
    match c.tag
    case Equal => []
    case Insert =>
      var s := Joined(buffer, c.j1, c.j2);
      if c.i1 >= |saved| then [Insertion(Cumulative(pos, last, -1) - 1, "\n" + s)]
      else [Insertion(Cumulative(pos, last, c.i1), s + "\n")]
    case Delete =>
      var s := Joined(saved, c.i1, c.i2);
      if c.i1 == |buffer| then [Deletion(Cumulative(pos, last, -(c.i2 - c.i1) - 1) - 1, "\n" + s)]
      else [Deletion(Cumulative(pos, last, c.i1), s + "\n")]
    case Replace =>
      EmitAll(inner, Joined(saved, c.i1, c.i2), Joined(buffer, c.j1, c.j2), Cumulative(pos, last, c.i1))
  }

  /** The ops of all row chunks in chunk order (corrected emission);
      `inner[k]` is the character-level opcode list of chunk `k`. */
  function RowOps(codes: seq<Opcode>, inner: seq<seq<Opcode>>, saved: seq<string>, buffer: seq<string>, pos: seq<int>, last: int): seq<Op>
    requires |inner| == |codes|
    decreases |codes|
  {
    if codes == [] then []
    else
      var n := |codes| - 1;
      RowOps(codes[..n], inner[..n], saved, buffer, pos, last) + ChunkOps(codes[n], inner[n], saved, buffer, pos, last)
  }

  /** The same, as written. */
  function RowOpsAsWritten(codes: seq<Opcode>, inner: seq<seq<Opcode>>, saved: seq<string>, buffer: seq<string>, pos: seq<int>, last: int): seq<Op>
    requires |inner| == |codes|
    decreases |codes|
  {
    if codes == [] then []
    else
      var n := |codes| - 1;
      RowOpsAsWritten(codes[..n], inner[..n], saved, buffer, pos, last) + ChunkOpsAsWritten(codes[n], inner[n], saved, buffer, pos, last)
  }

  /** Each `replace` chunk comes with a character-level opcode list of its
      old rows' text into its new rows' text. */
  predicate InnerMatches(codes: seq<Opcode>, inner: seq<seq<Opcode>>, saved: seq<string>, buffer: seq<string>)
  {
    |inner| == |codes| &&
    forall k :: 0 <= k < |codes| && codes[k].tag == Replace ==>
      Matches(inner[k], Joined(saved, codes[k].i1, codes[k].i2), Joined(buffer, codes[k].j1, codes[k].j2))
  }

  /** One op, applied as a batch. */
  lemma Single(t: string, x: Op)
    ensures ApplyOps(t, Reverse([x])) == ApplyOp(t, x)
    ensures AppliesAll(t, Reverse([x])) <==> Applies(t, x)
  {
    assert [x][1..] == [];
    assert Reverse([x]) == [x];
    ApplyTwo(t, x, x);
  }

  /** An `equal` chunk emits nothing and its rows are the same on both
      sides. */
  lemma EqualStep(c: Opcode, inner: seq<Opcode>, saved: seq<string>, buffer: seq<string>, pos: seq<int>, last: int)
    requires c.tag == Equal && 0 <= c.i1 <= c.i2 <= |saved| && 0 <= c.j1 <= c.j2 <= |buffer|
    requires saved[c.i1..c.i2] == buffer[c.j1..c.j2]
    ensures ApplyOps(Text(saved[..c.i2] + buffer[c.j2..]), Reverse(ChunkOps(c, inner, saved, buffer, pos, last))) ==
      Text(saved[..c.i1] + buffer[c.j1..])
    ensures AppliesAll(Text(saved[..c.i2] + buffer[c.j2..]), Reverse(ChunkOps(c, inner, saved, buffer, pos, last)))
  {
    assert Reverse<Op>([]) == [];
    assert saved[..c.i2] + buffer[c.j2..] == saved[..c.i1] + buffer[c.j1..] by {
      assert saved[..c.i2] == saved[..c.i1] + saved[c.i1..c.i2];
      assert buffer[c.j1..] == buffer[c.j1..c.j2] + buffer[c.j2..];
    }
  }

  /** A row insert at the end of the text: the new rows go after the last
      old row, each behind a newline. */
  lemma InsertAtEnd(c: Opcode, inner: seq<Opcode>, saved: seq<string>, buffer: seq<string>, pos: seq<int>, last: int)
    requires c.tag == Insert && c.i1 == c.i2 == |saved| && 0 <= c.j1 < c.j2 == |buffer|
    requires saved != [] && Consistent(pos, last, saved)
    ensures ApplyOps(Text(saved[..c.i2] + buffer[c.j2..]), Reverse(ChunkOps(c, inner, saved, buffer, pos, last))) ==
      Text(saved[..c.i1] + buffer[c.j1..])
    ensures AppliesAll(Text(saved[..c.i2] + buffer[c.j2..]), Reverse(ChunkOps(c, inner, saved, buffer, pos, last)))
  {
    var q := buffer[c.j1..c.j2];
    var t := Text(saved);
    var s := "\n" + Text(q);
    assert Joined(buffer, c.j1, c.j2) == Text(q);
    PositionOfEnd(pos, last, saved);
    var op := Insertion(|t|, s);
    assert ChunkOps(c, inner, saved, buffer, pos, last) == [op];
    assert saved[..c.i2] + buffer[c.j2..] == saved;
    assert ApplyOp(t, op) == t + s by {
      PutAt(t, s, "");
      assert t + "" == t && t + s + "" == t + s;
    }
    assert Text(saved[..c.i1] + buffer[c.j1..]) == t + s by {
      assert saved[..c.i1] + buffer[c.j1..] == saved + q + [];
      TextThree(saved, q, []);
    }
    Single(t, op);
  }

  /** A row insert before old row `i1`: the new rows go at the start of
      that row, each followed by a newline. */
  lemma InsertInside(c: Opcode, inner: seq<Opcode>, saved: seq<string>, buffer: seq<string>, pos: seq<int>, last: int)
    requires c.tag == Insert && 0 <= c.i1 == c.i2 < |saved| && 0 <= c.j1 < c.j2 < |buffer|
    requires Consistent(pos, last, saved)
    ensures ApplyOps(Text(saved[..c.i2] + buffer[c.j2..]), Reverse(ChunkOps(c, inner, saved, buffer, pos, last))) ==
      Text(saved[..c.i1] + buffer[c.j1..])
    ensures AppliesAll(Text(saved[..c.i2] + buffer[c.j2..]), Reverse(ChunkOps(c, inner, saved, buffer, pos, last)))
  {
    var p, q, r := saved[..c.i1], buffer[c.j1..c.j2], buffer[c.j2..];
    var s := Text(q) + "\n";
    assert Joined(buffer, c.j1, c.j2) == Text(q);
    PositionOfLine(pos, last, saved, c.i1);
    BeforeLength(saved, c.i1);
    var op := Insertion(|Head(p)|, s);
    assert ChunkOps(c, inner, saved, buffer, pos, last) == [op];
    var t := Text(p + r);
    assert t == Head(p) + Text(r) by {
      TextThree(p, r, []);
      assert p + r + [] == p + r;
    }
    assert ApplyOp(t, op) == Head(p) + s + Text(r) by {
      PutAt(Head(p), s, Text(r));
    }
    assert Text(saved[..c.i1] + buffer[c.j1..]) == Head(p) + s + Text(r) by {
      assert saved[..c.i1] + buffer[c.j1..] == p + q + r;
      TextThree(p, q, r);
    }
    assert saved[..c.i2] + buffer[c.j2..] == p + r;
    Single(t, op);
  }

  /** A row delete that reaches the last old row takes the newline before
      the deleted rows with them. */
  lemma DeleteAtEnd(c: Opcode, inner: seq<Opcode>, saved: seq<string>, buffer: seq<string>, pos: seq<int>, last: int)
    requires c.tag == Delete && 1 <= c.i1 < c.i2 == |saved| && 0 <= c.j1 == c.j2 == |buffer|
    requires Consistent(pos, last, saved)
    ensures ApplyOps(Text(saved[..c.i2] + buffer[c.j2..]), Reverse(ChunkOps(c, inner, saved, buffer, pos, last))) ==
      Text(saved[..c.i1] + buffer[c.j1..])
    ensures AppliesAll(Text(saved[..c.i2] + buffer[c.j2..]), Reverse(ChunkOps(c, inner, saved, buffer, pos, last)))
  {
    var p, q := saved[..c.i1], saved[c.i1..c.i2];
    var s := "\n" + Text(q);
    assert Joined(saved, c.i1, c.i2) == Text(q);
    PositionFromEnd(pos, last, saved, c.i1);
    BeforeLength(saved, c.i1);
    var op := Deletion(|Text(p)|, s);
    assert ChunkOps(c, inner, saved, buffer, pos, last) == [op];
    var t := Text(p + q);
    assert t == Text(p) + s + "" by {
      TextThree(p, q, []);
      assert p + q + [] == p + q;
    }
    CutAt(Text(p), s, "");
    assert saved[..c.i2] + buffer[c.j2..] == p + q;
    assert saved[..c.i1] + buffer[c.j1..] == p;
    Single(t, op);
  }

  /** A row delete before the last old row takes the newline after the
      deleted rows with them. */
  lemma DeleteInside(c: Opcode, inner: seq<Opcode>, saved: seq<string>, buffer: seq<string>, pos: seq<int>, last: int)
    requires c.tag == Delete && 0 <= c.i1 < c.i2 < |saved| && 0 <= c.j1 == c.j2 < |buffer|
    requires Consistent(pos, last, saved)
    ensures ApplyOps(Text(saved[..c.i2] + buffer[c.j2..]), Reverse(ChunkOps(c, inner, saved, buffer, pos, last))) ==
      Text(saved[..c.i1] + buffer[c.j1..])
    ensures AppliesAll(Text(saved[..c.i2] + buffer[c.j2..]), Reverse(ChunkOps(c, inner, saved, buffer, pos, last)))
  {
    var p, q, r := saved[..c.i1], saved[c.i1..c.i2], buffer[c.j2..];
    var s := Text(q) + "\n";
    assert Joined(saved, c.i1, c.i2) == Text(q);
    PositionOfLine(pos, last, saved, c.i1);
    BeforeLength(saved, c.i1);
    var op := Deletion(|Head(p)|, s);
    assert ChunkOps(c, inner, saved, buffer, pos, last) == [op];
    var t := Text(p + q + r);
    assert t == Head(p) + s + Text(r) by {
      TextThree(p, q, r);
    }
    CutAt(Head(p), s, Text(r));
    assert Text(p + r) == Head(p) + Text(r) by {
      TextThree(p, r, []);
      assert p + r + [] == p + r;
    }
    assert saved[..c.i2] + buffer[c.j2..] == p + q + r;
    assert saved[..c.i1] + buffer[c.j1..] == p + r;
    Single(t, op);
  }

  /** A `replace` chunk edits the text of its rows in place, wherever the
      rows around it end. */
  lemma ReplaceStep(c: Opcode, inner: seq<Opcode>, saved: seq<string>, buffer: seq<string>, pos: seq<int>, last: int)
    requires c.tag == Replace && 0 <= c.i1 < c.i2 <= |saved| && 0 <= c.j1 < c.j2 <= |buffer|
    requires Consistent(pos, last, saved)
    requires Matches(inner, Joined(saved, c.i1, c.i2), Joined(buffer, c.j1, c.j2))
    ensures ApplyOps(Text(saved[..c.i2] + buffer[c.j2..]), Reverse(ChunkOps(c, inner, saved, buffer, pos, last))) ==
      Text(saved[..c.i1] + buffer[c.j1..])
    ensures AppliesAll(Text(saved[..c.i2] + buffer[c.j2..]), Reverse(ChunkOps(c, inner, saved, buffer, pos, last)))
  {
    var p, q, q', r := saved[..c.i1], saved[c.i1..c.i2], buffer[c.j1..c.j2], buffer[c.j2..];
    assert Joined(saved, c.i1, c.i2) == Text(q) && Joined(buffer, c.j1, c.j2) == Text(q');
    PositionOfLine(pos, last, saved, c.i1);
    BeforeLength(saved, c.i1);
    assert ChunkOps(c, inner, saved, buffer, pos, last) == EmitAll(inner, Text(q), Text(q'), |Head(p)|);
    assert Text(saved[..c.i2] + buffer[c.j2..]) == Head(p) + Text(q) + Tail(r) by {
      assert saved[..c.i2] + buffer[c.j2..] == p + q + r;
      TextThree(p, q, r);
    }
    assert Text(saved[..c.i1] + buffer[c.j1..]) == Head(p) + Text(q') + Tail(r) by {
      assert saved[..c.i1] + buffer[c.j1..] == p + q' + r;
      TextThree(p, q', r);
    }
    EmitRoundTrip(inner, Text(q), Text(q'), Head(p), Tail(r));
  }

  /** The ops of the last chunk of `saved[..k]` into `buffer[..l]`, applied
      to the text whose rows after `k` are already the new ones, make the
      chunk's rows new as well. */
  lemma ChunkStep(c: Opcode, inner: seq<Opcode>, saved: seq<string>, buffer: seq<string>, k: nat, l: nat, pos: seq<int>, last: int)
    requires saved != [] && Consistent(pos, last, saved)
    requires c.i2 == k <= |saved| && c.j2 == l <= |buffer| && 0 <= c.i1 <= c.i2 && 0 <= c.j1 <= c.j2
    requires Fits(c, saved[..k], buffer[..l])
    requires c.tag != Equal ==> (k == |saved| && l == |buffer|) || (k < |saved| && l < |buffer|)
    requires c.tag == Delete && k == |saved| ==> c.i1 >= 1
    requires c.tag == Replace ==> Matches(inner, Joined(saved, c.i1, c.i2), Joined(buffer, c.j1, c.j2))
    ensures ApplyOps(Text(saved[..k] + buffer[l..]), Reverse(ChunkOps(c, inner, saved, buffer, pos, last))) ==
      Text(saved[..c.i1] + buffer[c.j1..])
    ensures AppliesAll(Text(saved[..k] + buffer[l..]), Reverse(ChunkOps(c, inner, saved, buffer, pos, last)))
  {
    match c.tag
    case Equal =>
      assert saved[..k][c.i1..c.i2] == saved[c.i1..c.i2] && buffer[..l][c.j1..c.j2] == buffer[c.j1..c.j2];
      EqualStep(c, inner, saved, buffer, pos, last);
    case Insert =>
      if k == |saved| {
        InsertAtEnd(c, inner, saved, buffer, pos, last);
      } else {
        InsertInside(c, inner, saved, buffer, pos, last);
      }
    case Delete =>
      if k == |saved| {
        DeleteAtEnd(c, inner, saved, buffer, pos, last);
      } else {
        DeleteInside(c, inner, saved, buffer, pos, last);
      }
    case Replace =>
      ReplaceStep(c, inner, saved, buffer, pos, last);
  }

  /** The chunks of `saved[..k]` into `buffer[..l]`, reversed, turn the
      text whose first `k` rows are old (and the rest new) into the new
      text. */
  lemma {:induction false} RowsFrom(codes: seq<Opcode>, inner: seq<seq<Opcode>>, saved: seq<string>, buffer: seq<string>,
                                    k: nat, l: nat, pos: seq<int>, last: int)
    requires saved != [] && buffer != [] && Consistent(pos, last, saved)
    requires k <= |saved| && l <= |buffer| && Matches(codes, saved[..k], buffer[..l])
    requires InnerMatches(codes, inner, saved, buffer)
    requires (k == |saved| && l == |buffer|) || (k < |saved| && l < |buffer|) || codes == [] ||
             codes[|codes| - 1].tag == Equal
    ensures ApplyOps(Text(saved[..k] + buffer[l..]), Reverse(RowOps(codes, inner, saved, buffer, pos, last))) == Text(buffer)
    ensures AppliesAll(Text(saved[..k] + buffer[l..]), Reverse(RowOps(codes, inner, saved, buffer, pos, last)))
    decreases |codes|
  {
    if codes == [] {
      assert saved[..k] + buffer[l..] == buffer;
      assert Reverse<Op>([]) == [];
    } else {
      var n := |codes| - 1;
      var c, init := codes[n], codes[..n];
      RowsFromSplit(codes, inner, saved, buffer, k, l);
      ChunkStep(c, inner[n], saved, buffer, k, l, pos, last);
      RowsFrom(init, inner[..n], saved, buffer, c.i1, c.j1, pos, last);
      RowsFromJoin(codes, inner, saved, buffer, pos, last, Text(saved[..k] + buffer[l..]), Text(saved[..c.i1] + buffer[c.j1..]));
    }
  }

  /** The facts `RowsFrom` needs about its last chunk and the chunks
      before it. */
  lemma RowsFromSplit(codes: seq<Opcode>, inner: seq<seq<Opcode>>, saved: seq<string>, buffer: seq<string>, k: nat, l: nat)
    requires codes != [] && buffer != []
    requires k <= |saved| && l <= |buffer| && Matches(codes, saved[..k], buffer[..l])
    requires InnerMatches(codes, inner, saved, buffer)
    requires (k == |saved| && l == |buffer|) || (k < |saved| && l < |buffer|) || codes[|codes| - 1].tag == Equal
    ensures var n := |codes| - 1; var c, init := codes[n], codes[..n];
      c.i2 == k && c.j2 == l && 0 <= c.i1 <= c.i2 && 0 <= c.j1 <= c.j2 &&
      Fits(c, saved[..k], buffer[..l]) &&
      (c.tag != Equal ==> (k == |saved| && l == |buffer|) || (k < |saved| && l < |buffer|)) &&
      (c.tag == Delete && k == |saved| ==> c.i1 >= 1) &&
      (c.tag == Replace ==> Matches(inner[n], Joined(saved, c.i1, c.i2), Joined(buffer, c.j1, c.j2))) &&
      Matches(init, saved[..c.i1], buffer[..c.j1]) && InnerMatches(init, inner[..n], saved, buffer) &&
      ((c.i1 == |saved| && c.j1 == |buffer|) || (c.i1 < |saved| && c.j1 < |buffer|) || init == [] ||
       init[|init| - 1].tag == Equal)
  {
    var n := |codes| - 1;
    var c, init := codes[n], codes[..n];
    assert saved[..k][..c.i1] == saved[..c.i1] && buffer[..l][..c.j1] == buffer[..c.j1];
    assert c.tag == Delete && k == |saved| ==> c.i1 >= 1 by {
      if c.tag == Delete && k == |saved| {
        assert buffer[..c.j1] != [];
      }
    }
    assert InnerMatches(init, inner[..n], saved, buffer) by {
      assert forall j :: 0 <= j < n ==> init[j] == codes[j] && inner[..n][j] == inner[j];
    }
  }

  /** The last chunk's ops first, then those of the chunks before it. */
  lemma RowsFromJoin(codes: seq<Opcode>, inner: seq<seq<Opcode>>, saved: seq<string>, buffer: seq<string>,
                     pos: seq<int>, last: int, t: string, mid: string)
    requires codes != [] && |inner| == |codes|
    requires var n := |codes| - 1;
      ApplyOps(t, Reverse(ChunkOps(codes[n], inner[n], saved, buffer, pos, last))) == mid &&
      ApplyOps(mid, Reverse(RowOps(codes[..n], inner[..n], saved, buffer, pos, last))) == Text(buffer) &&
      AppliesAll(t, Reverse(ChunkOps(codes[n], inner[n], saved, buffer, pos, last))) &&
      AppliesAll(mid, Reverse(RowOps(codes[..n], inner[..n], saved, buffer, pos, last)))
    ensures ApplyOps(t, Reverse(RowOps(codes, inner, saved, buffer, pos, last))) == Text(buffer)
    ensures AppliesAll(t, Reverse(RowOps(codes, inner, saved, buffer, pos, last)))
  {
    var n := |codes| - 1;
    var early, late := RowOps(codes[..n], inner[..n], saved, buffer, pos, last), ChunkOps(codes[n], inner[n], saved, buffer, pos, last);
    ReverseConcat(early, late);
    Chain(t, Reverse(late), Reverse(early), mid, Text(buffer));
  }

  /** The round trip of the corrected emission: while the accumulator
      describes the saved lines, the row ops, reversed ("last op should be
      applied first"), turn the saved text into the buffer's text, and
      each op fits the text it meets (every deletion names the text it
      cuts), so a server that checks deletions accepts the batch. */
  lemma RowRoundTrip(codes: seq<Opcode>, inner: seq<seq<Opcode>>, saved: seq<string>, buffer: seq<string>, pos: seq<int>, last: int)
    requires saved != [] && buffer != [] && Consistent(pos, last, saved)
    requires Matches(codes, saved, buffer) && InnerMatches(codes, inner, saved, buffer)
    ensures ApplyOps(Text(saved), Reverse(RowOps(codes, inner, saved, buffer, pos, last))) == Text(buffer)
    ensures AppliesAll(Text(saved), Reverse(RowOps(codes, inner, saved, buffer, pos, last)))
  {
    assert saved[..|saved|] == saved && buffer[..|buffer|] == buffer;
    assert saved[..|saved|] + buffer[|buffer|..] == saved;
    RowsFrom(codes, inner, saved, buffer, |saved|, |buffer|, pos, last);
  }

  /** Appending a row: `["ab"]` becomes `["ab", "c"]` (an `equal` chunk,
      then an `insert` chunk at the end). As written, `"\nc"` goes in one
      character early and the text becomes `"a\ncb"`; the corrected ops give
      `"ab\nc"`. */
  lemma EndInsertMisplaced()
    ensures var saved, buffer := ["ab"], ["ab", "c"];
      var codes := [Opcode(Equal, 0, 1, 0, 1), Opcode(Insert, 1, 1, 1, 2)];
      var inner: seq<seq<Opcode>> := [[], []];
      Matches(codes, saved, buffer) && InnerMatches(codes, inner, saved, buffer) && Consistent([2, 0], 1, saved) &&
      ApplyOps(Text(saved), Reverse(RowOpsAsWritten(codes, inner, saved, buffer, [2, 0], 1))) == "a\ncb" &&
      ApplyOps(Text(saved), Reverse(RowOps(codes, inner, saved, buffer, [2, 0], 1))) == "ab\nc" == Text(buffer)
  {
    var saved, buffer := ["ab"], ["ab", "c"];
    var codes := [Opcode(Equal, 0, 1, 0, 1), Opcode(Insert, 1, 1, 1, 2)];
    var inner: seq<seq<Opcode>> := [[], []];
    AppendRowMatches(codes, saved, buffer);
    AppendRowOps(codes, inner, saved, buffer);
    assert ApplyOp("ab", Insertion(1, "\nc")) == "a\ncb" by {
      assert Take("ab", 1) == "a" && Drop("ab", 1) == "b";
    }
    assert ApplyOp("ab", Insertion(2, "\nc")) == "ab\nc" by {
      assert Take("ab", 2) == "ab" && Drop("ab", 2) == "";
    }
    Single("ab", Insertion(1, "\nc"));
    Single("ab", Insertion(2, "\nc"));
  }

  lemma AppendRowMatches(codes: seq<Opcode>, saved: seq<string>, buffer: seq<string>)
    requires saved == ["ab"] && buffer == ["ab", "c"]
    requires codes == [Opcode(Equal, 0, 1, 0, 1), Opcode(Insert, 1, 1, 1, 2)]
    ensures Matches(codes, saved, buffer) && InnerMatches(codes, [[], []], saved, buffer) && Consistent([2, 0], 1, saved)
    ensures Text(saved) == "ab" && Text(buffer) == "ab\nc"
  {
    assert codes[..1] == [codes[0]] && codes[..1][..0] == [];
    assert saved[..1] == saved && buffer[..1] == ["ab"];
    assert Matches(codes[..1], saved[..1], buffer[..1]);
    assert LineLengths(saved) == [2];
    assert buffer[1..] == ["c"] && Join(["c"], '\n') == "c";
    assert "ab" + ['\n'] + "c" == "ab\nc";
  }

  lemma AppendRowOps(codes: seq<Opcode>, inner: seq<seq<Opcode>>, saved: seq<string>, buffer: seq<string>)
    requires saved == ["ab"] && buffer == ["ab", "c"] && inner == [[], []]
    requires codes == [Opcode(Equal, 0, 1, 0, 1), Opcode(Insert, 1, 1, 1, 2)]
    ensures RowOpsAsWritten(codes, inner, saved, buffer, [2, 0], 1) == [Insertion(1, "\nc")]
    ensures RowOps(codes, inner, saved, buffer, [2, 0], 1) == [Insertion(2, "\nc")]
  {
    assert Joined(buffer, 1, 2) == "c" by {
      assert Slice(buffer, 1, 2) == ["c"];
    }
    assert Cumulative([2, 0], 1, -1) == 2 by {
      assert [2, 0][..1] == [2] && [2][..0] == [];
    }
    assert inner[..1] == [[]] && codes[..1][..0] == [] && inner[..1][..0] == [];
    assert Slice(buffer, 1, 2) == ["c"];
    assert "\n" + "c" == "\nc";
    assert ChunkOpsAsWritten(codes[1], inner[1], saved, buffer, [2, 0], 1) == [Insertion(1, "\nc")];
    assert ChunkOps(codes[1], inner[1], saved, buffer, [2, 0], 1) == [Insertion(2, "\nc")];
    assert RowOpsAsWritten(codes[..1], inner[..1], saved, buffer, [2, 0], 1) == [];
    assert RowOps(codes[..1], inner[..1], saved, buffer, [2, 0], 1) == [];
  }

  /** Dropping the first and the third of four rows: `["D", "a", "Q", "b"]`
      becomes `["a", "b"]`. The second delete starts at row 2, which is the
      new row count, so the code as written takes it for a delete at the end
      and sends the deletion of `"\nQ"` at offset 5, where the text holds
      `"\nb"`. The batch does not fit the saved text, so a server that
      checks deleted text rejects it; an applier that only counts
      characters would make the text `"a\nQ"` instead of `"a\nb"`. */
  lemma DeleteEndMisjudged()
    ensures var saved, buffer := ["D", "a", "Q", "b"], ["a", "b"];
      var codes := [Opcode(Delete, 0, 1, 0, 0), Opcode(Equal, 1, 2, 0, 1), Opcode(Delete, 2, 3, 1, 1), Opcode(Equal, 3, 4, 1, 2)];
      var inner: seq<seq<Opcode>> := [[], [], [], []];
      Matches(codes, saved, buffer) && InnerMatches(codes, inner, saved, buffer) && Consistent([2, 2, 2, 1, 0], 4, saved) &&
      RowOpsAsWritten(codes, inner, saved, buffer, [2, 2, 2, 1, 0], 4) == [Deletion(0, "D\n"), Deletion(5, "\nQ")] &&
      !Applies(Text(saved), Deletion(5, "\nQ")) &&
      !AppliesAll(Text(saved), Reverse(RowOpsAsWritten(codes, inner, saved, buffer, [2, 2, 2, 1, 0], 4))) &&
      ApplyOps(Text(saved), Reverse(RowOpsAsWritten(codes, inner, saved, buffer, [2, 2, 2, 1, 0], 4))) == "a\nQ" &&
      Text(buffer) == "a\nb"
  {
    var saved, buffer := ["D", "a", "Q", "b"], ["a", "b"];
    var codes := [Opcode(Delete, 0, 1, 0, 0), Opcode(Equal, 1, 2, 0, 1), Opcode(Delete, 2, 3, 1, 1), Opcode(Equal, 3, 4, 1, 2)];
    var inner: seq<seq<Opcode>> := [[], [], [], []];
    DropTwoMatches(codes, saved, buffer);
    assert LineLengths(saved) == [2, 2, 2, 1];
    assert Text(saved) == "D\na\nQ\nb";
    assert Text(buffer) == "a\nb";
    DropTwoOps(codes, inner, saved, buffer);
    DropTwoApplied();
  }

  lemma DropTwoMatches(codes: seq<Opcode>, saved: seq<string>, buffer: seq<string>)
    requires saved == ["D", "a", "Q", "b"] && buffer == ["a", "b"]
    requires codes == [Opcode(Delete, 0, 1, 0, 0), Opcode(Equal, 1, 2, 0, 1), Opcode(Delete, 2, 3, 1, 1), Opcode(Equal, 3, 4, 1, 2)]
    ensures Matches(codes, saved, buffer)
  {
    assert codes[..3] == [codes[0], codes[1], codes[2]];
    assert codes[..3][..2] == [codes[0], codes[1]];
    assert codes[..3][..2][..1] == [codes[0]];
    assert saved[..3] == ["D", "a", "Q"] && saved[..3][..2] == ["D", "a"] && saved[..3][..2][..1] == ["D"];
    assert buffer[..1] == ["a"] && buffer[..1][..1] == ["a"] && buffer[..1][..1][..0] == [];
    assert Matches([codes[0]], ["D"], []);
    assert Matches([codes[0], codes[1]], ["D", "a"], ["a"]);
    assert Matches([codes[0], codes[1], codes[2]], ["D", "a", "Q"], ["a"]);
  }

  lemma DropTwoOps(codes: seq<Opcode>, inner: seq<seq<Opcode>>, saved: seq<string>, buffer: seq<string>)
    requires saved == ["D", "a", "Q", "b"] && buffer == ["a", "b"] && inner == [[], [], [], []]
    requires codes == [Opcode(Delete, 0, 1, 0, 0), Opcode(Equal, 1, 2, 0, 1), Opcode(Delete, 2, 3, 1, 1), Opcode(Equal, 3, 4, 1, 2)]
    ensures RowOpsAsWritten(codes, inner, saved, buffer, [2, 2, 2, 1, 0], 4) == [Deletion(0, "D\n"), Deletion(5, "\nQ")]
  {
    var pos := [2, 2, 2, 1, 0];
    var first, second := Deletion(0, "D\n"), Deletion(5, "\nQ");
    assert Joined(saved, 0, 1) == "D" by {
      assert Slice(saved, 0, 1) == ["D"];
    }
    assert Joined(saved, 2, 3) == "Q" by {
      assert Slice(saved, 2, 3) == ["Q"];
    }
    assert Cumulative(pos, 4, 0) == 0;
    assert Cumulative(pos, 4, -2) == 6 by {
      assert pos[..3] == [2, 2, 2] && [2, 2, 2][..2] == [2, 2] && [2, 2][..1] == [2] && [2][..0] == [];
    }
    assert "D" + "\n" == "D\n" && "\n" + "Q" == "\nQ";
    assert ChunkOpsAsWritten(codes[0], inner[0], saved, buffer, pos, 4) == [first];
    assert ChunkOpsAsWritten(codes[2], inner[2], saved, buffer, pos, 4) == [second];
    assert codes[..1][..0] == [] && inner[..1][..0] == [];
    assert codes[..2][..1] == codes[..1] && inner[..2][..1] == inner[..1];
    assert codes[..3][..2] == codes[..2] && inner[..3][..2] == inner[..2];
    assert codes[..4] == codes && inner[..4] == inner;
    assert RowOpsAsWritten(codes[..1], inner[..1], saved, buffer, pos, 4) == [first];
    assert RowOpsAsWritten(codes[..2], inner[..2], saved, buffer, pos, 4) == [first];
    assert RowOpsAsWritten(codes[..3], inner[..3], saved, buffer, pos, 4) == [first, second];
  }

  /** The deletion applied first meets `"\nb"`, not `"\nQ"`; counting
      characters only, the two deletions leave `"a\nQ"`. */
  lemma DropTwoApplied()
    ensures !Applies("D\na\nQ\nb", Deletion(5, "\nQ"))
    ensures !AppliesAll("D\na\nQ\nb", Reverse([Deletion(0, "D\n"), Deletion(5, "\nQ")]))
    ensures ApplyOps("D\na\nQ\nb", Reverse([Deletion(0, "D\n"), Deletion(5, "\nQ")])) == "a\nQ"
  {
    var first, second := Deletion(0, "D\n"), Deletion(5, "\nQ");
    assert Reverse([first, second]) == [second, first] by {
      assert [first, second][1..] == [second];
      assert [second][1..] == [];
    }
    var t := "D\na\nQ\nb";
    assert t[5..7] == "\nb" != "\nQ";
    assert !AppliesAll(t, [second, first]);
    assert ApplyOp(t, second) == "D\na\nQ" by {
      assert Take(t, 5) == "D\na\nQ" && Drop(t, 7) == "";
    }
    assert ApplyOp("D\na\nQ", first) == "a\nQ" by {
      assert Take("D\na\nQ", 0) == "" && Drop("D\na\nQ", 2) == "a\nQ";
    }
    ApplyTwo(t, second, first);
  }

  /** The accumulator loop of an `insert` chunk as document.py:459-466
      writes it, new rows last first. At the last index it "increments" the
      entry before with `na[j1 - 1] += 1`, which reads a prefix sum and
      writes it back as a single entry, then inserts the row's length;
      elsewhere it inserts the row's length plus its newline. */
  function InsertRowsAsWritten(entries: seq<int>, lastIndex: int, j1: int, rows: seq<string>): (r: (seq<int>, int))
    requires lastIndex == |entries| - 1 && j1 >= 0
    ensures r.1 == lastIndex + |rows| && r.1 == |r.0| - 1
    decreases |rows|
  {
    if rows == [] then (entries, lastIndex)
    else
      var row := rows[|rows| - 1];
      var next :=
        if j1 == lastIndex then
          var bumped := if j1 != 0 then entries[j1 - 1 := Cumulative(entries, lastIndex, j1 - 1) + 1] else entries;
          InsertAt(bumped, j1, |row|)
        else InsertAt(entries, j1, |row| + 1);
      InsertRowsAsWritten(next, lastIndex + 1, j1, rows[..|rows| - 1])
  }

  /** Appending `"b"` to `["a"]`: the accumulator of `["a"]` is `[1, 0]`,
      and the loop as written leaves `[1, 1, 0]`, so row 1 is placed at
      offset 1 instead of 2; the accumulator of `["a", "b"]` is
      `[2, 1, 0]`. */
  lemma AccumulatorDrifts()
    ensures Consistent([1, 0], 1, ["a"])
    ensures InsertRowsAsWritten([1, 0], 1, 1, ["b"]) == ([1, 1, 0], 2)
    ensures !Consistent([1, 1, 0], 2, ["a", "b"]) && Consistent([2, 1, 0], 2, ["a", "b"])
  {
    assert LineLengths(["a"]) == [1];
    assert LineLengths(["a", "b"]) == [2, 1];
    assert Cumulative([1, 0], 1, 0) == 0;
    assert ["b"][..0] == [];
    var bumped := [1, 0][0 := 1];
    assert bumped == [1, 0];
    assert InsertAt(bumped, 1, 1) == [1, 1, 0] by {
      assert bumped[..1] + [1] + bumped[1..] == [1, 1, 0];
    }
    assert InsertRowsAsWritten([1, 0], 1, 1, ["b"]) == InsertRowsAsWritten([1, 1, 0], 2, 1, []);
    assert [2, 1] + [0] == [2, 1, 0] && [1, 1, 0][0] != [2, 1, 0][0];
  }

  /** The accumulator loop of a `delete` chunk as document.py:480-485
      writes it: each deleted row removes entry `j1`, and when `j1` is then
      the last index the entry before it "loses" the newline with
      `na[j1 - 1] -= 1`, which reads the prefix sum before `j1 - 1` and
      writes it back, less one, as a single entry. */
  function DeleteRowsAsWritten(entries: seq<int>, lastIndex: int, j1: nat, count: nat): (r: Result<(seq<int>, int)>)
    requires lastIndex == |entries| - 1
    ensures r.Ok? ==> r.value.1 == lastIndex - count && r.value.1 == |r.value.0| - 1
    ensures r.Err? <==> count > 0 && j1 + count > lastIndex + 1
    decreases count
  {
    if count == 0 then Ok((entries, lastIndex))
    else if j1 >= |entries| then Err("IndexError")
    else
      var removed := entries[..j1] + entries[j1 + 1..];
      var last := lastIndex - 1;
      var next := if j1 != 0 && j1 == last then removed[j1 - 1 := Cumulative(removed, last, j1 - 1) - 1] else removed;
      DeleteRowsAsWritten(next, last, j1, count - 1)
  }

  /** Dropping the last row of `["a", "b"]`: the entries `[2, 1, 0]` become
      `[-1, 0]` where the accumulator of `["a"]` is `[1, 0]`. */
  lemma DeleteAccumulatorDrifts()
    ensures Consistent([2, 1, 0], 2, ["a", "b"])
    ensures DeleteRowsAsWritten([2, 1, 0], 2, 1, 1) == Ok(([-1, 0], 1))
    ensures !Consistent([-1, 0], 1, ["a"]) && Consistent([1, 0], 1, ["a"])
  {
    assert LineLengths(["a"]) == [1];
    assert LineLengths(["a", "b"]) == [2, 1];
    var removed := [2, 1, 0][..1] + [2, 1, 0][2..];
    assert removed == [2, 0];
    assert Cumulative(removed, 1, 0) == 0;
    assert removed[0 := -1] == [-1, 0];
    assert ([1] + [0])[0] == 1 && [-1, 0][0] == -1;
    assert DeleteRowsAsWritten([2, 1, 0], 2, 1, 1) == DeleteRowsAsWritten([-1, 0], 1, 1, 0);
  }

  /** The accumulator loop of a `replace` chunk as document.py:499-504
      writes it: row `j1 + k` of the new rows overwrites entry `j1 + k`
      (with the newline unless it is the last index), appending only past
      the last index; rows removed or added by the chunk are never removed
      or inserted. */
  function ReplaceRowsAsWritten(entries: seq<int>, lastIndex: int, j1: nat, rows: seq<string>): (r: (seq<int>, int))
    requires lastIndex == |entries| - 1
    ensures r.1 == |r.0| - 1 && r.1 >= lastIndex
    decreases |rows|
  {
    if rows == [] then (entries, lastIndex)
    else
      var value := if j1 == lastIndex then |rows[0]| else |rows[0]| + 1;
      var next := if j1 > lastIndex then (entries + [value], lastIndex + 1) else (entries[j1 := value], lastIndex);
      ReplaceRowsAsWritten(next.0, next.1, j1 + 1, rows[1..])
  }

  /** Replacing `["a"]` by `["bc", "d"]`: the entries `[1, 0]` become
      `[3, 1]`, a row short of the accumulator of the new lines,
      `[3, 1, 0]`. */
  lemma ReplaceAccumulatorDrifts()
    ensures Consistent([1, 0], 1, ["a"])
    ensures ReplaceRowsAsWritten([1, 0], 1, 0, ["bc", "d"]) == ([3, 1], 1)
    ensures !Consistent([3, 1], 1, ["bc", "d"]) && Consistent([3, 1, 0], 2, ["bc", "d"])
  {
    assert LineLengths(["a"]) == [1];
    assert LineLengths(["bc", "d"]) == [3, 1];
    assert ["bc", "d"][1..] == ["d"] && ["d"][1..] == [];
    assert [1, 0][0 := 3] == [3, 0] && [3, 0][1 := 1] == [3, 1];
    assert ReplaceRowsAsWritten([1, 0], 1, 0, ["bc", "d"]) == ReplaceRowsAsWritten([3, 0], 1, 1, ["d"]);
    assert ReplaceRowsAsWritten([3, 0], 1, 1, ["d"]) == ReplaceRowsAsWritten([3, 1], 1, 2, []);
  }
}
