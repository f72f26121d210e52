/** What a list of ShareJS ops does to a text, the opcode lists that
    `difflib.SequenceMatcher.get_opcodes()` returns, and the ops the
    buffers emit for them. The matcher itself is not modelled: its opcodes
    are an input that satisfies `Matches`. */
module Edits {
  import opened Base
  import opened PySeq
  import opened Ops

  /** One op applied to a text: its deletion (if any) cuts `len(d)`
      characters at `p`, then its insertion (if any) puts `i` at `p`. */
  function ApplyOp(text: string, op: Op): string
  {
    var cut := if op.d.Some? then Cut(text, op.p, |op.d.value|) else text;
    if op.i.Some? then Put(cut, op.p, op.i.value) else cut
  }

  /** `text[:p] + text[p + n:]`. */
  function Cut(text: string, p: int, n: nat): string
  {
    Take(text, p) + Drop(text, p + n)
  }

  /** `text[:p] + s + text[p:]`. */
  function Put(text: string, p: int, s: string): string
  {
    Take(text, p) + s + Drop(text, p)
  }

  /** A batch of ops applied in list order. */
  function ApplyOps(text: string, ops: seq<Op>): string
    decreases |ops|
  {
    if ops == [] then text else ApplyOps(ApplyOp(text, ops[0]), ops[1..])
  }

  /** The op fits `text`: its deletion is really there at `p`, and its
      insertion offset lies within the text that the deletion leaves. */
  predicate Applies(text: string, op: Op)
  {
    (op.d.Some? ==> 0 <= op.p && op.p + |op.d.value| <= |text| && text[op.p..op.p + |op.d.value|] == op.d.value) &&
    (op.i.Some? ==> 0 <= op.p <= |if op.d.Some? then Cut(text, op.p, |op.d.value|) else text|)
  }

  /** Every op of the batch fits the text the earlier ones leave. */
  predicate AppliesAll(text: string, ops: seq<Op>)
    decreases |ops|
  {
    ops == [] || (Applies(text, ops[0]) && AppliesAll(ApplyOp(text, ops[0]), ops[1..]))
  }

  /** A batch fits when its first part fits and the rest fits what the
      first part leaves. */
  lemma {:induction false} AppliesAllConcat(text: string, a: seq<Op>, b: seq<Op>)
    requires AppliesAll(text, a) && AppliesAll(ApplyOps(text, a), b)
    ensures AppliesAll(text, a + b)
    decreases |a|
  {
    if a == [] {
      assert a + b == b;
    } else {
      assert (a + b)[0] == a[0];
      assert (a + b)[1..] == a[1..] + b;
      AppliesAllConcat(ApplyOp(text, a[0]), a[1..], b);
    }
  }

  lemma {:induction false} ApplyOpsConcat(text: string, a: seq<Op>, b: seq<Op>)
    ensures ApplyOps(text, a + b) == ApplyOps(ApplyOps(text, a), b)
    decreases |a|
  {
    if a != [] {
      assert (a + b)[0] == a[0];
      assert (a + b)[1..] == a[1..] + b;
      ApplyOpsConcat(ApplyOp(text, a[0]), a[1..], b);
    } else {
      assert a + b == b;
    }
  }

  datatype Tag = Equal | Replace | Insert | Delete

  /** `(tag, i1, i2, j1, j2)`: `a[i1:i2]` becomes `b[j1:j2]`. */
  datatype Opcode = Opcode(tag: Tag, i1: int, i2: int, j1: int, j2: int)

  /** What each tag promises of its chunk: an `equal` chunk is non-empty
      and really equal, `replace` turns a non-empty range into a non-empty
      one, `insert` and `delete` are one-sided. */
  predicate Fits<T(==)>(c: Opcode, a: seq<T>, b: seq<T>)
    requires 0 <= c.i1 <= c.i2 <= |a| && 0 <= c.j1 <= c.j2 <= |b|
  {
    match c.tag
    case Equal => c.i1 < c.i2 && a[c.i1..c.i2] == b[c.j1..c.j2]
    case Replace => c.i1 < c.i2 && c.j1 < c.j2
    case Insert => c.i1 == c.i2 && c.j1 < c.j2
    case Delete => c.i1 < c.i2 && c.j1 == c.j2
  }

  /** `codes` is an opcode list for turning `a` into `b`: the chunks tile
      both sequences in order, each fits its tag, and a changed chunk is
      never next to another changed chunk (the matcher merges those into
      one `replace`). */
  predicate Matches<T(==)>(codes: seq<Opcode>, a: seq<T>, b: seq<T>)
    decreases |codes|
  {
    if codes == [] then a == [] && b == []
    else
      var c := codes[|codes| - 1];
      c.i2 == |a| && c.j2 == |b| && 0 <= c.i1 <= c.i2 && 0 <= c.j1 <= c.j2 &&
      Fits(c, a, b) &&
      (c.tag != Equal && |codes| > 1 ==> codes[|codes| - 2].tag == Equal) &&
      Matches(codes[..|codes| - 1], a[..c.i1], b[..c.j1])
  }

  /** The ops `writeBuffer` emits for one chunk, at offset `base + i1` of
      the old text: none for `equal`; insert then delete for `replace`. */
  function Emitted(c: Opcode, a: string, b: string, base: int): seq<Op>
  {
    match c.tag
    case Equal => []
    case Replace => [Insertion(base + c.i1, Slice(b, c.j1, c.j2)), Deletion(base + c.i1, Slice(a, c.i1, c.i2))]
    case Insert => [Insertion(base + c.i1, Slice(b, c.j1, c.j2))]
    case Delete => [Deletion(base + c.i1, Slice(a, c.i1, c.i2))]
  }

  /** The ops of all chunks, in chunk order. */
  function EmitAll(codes: seq<Opcode>, a: string, b: string, base: int): seq<Op>
    decreases |codes|
  {
    if codes == [] then [] else EmitAll(codes[..|codes| - 1], a, b, base) + Emitted(codes[|codes| - 1], a, b, base)
  }

  /** The ops of chunks inside `a[..k]` and `b[..l]` do not look beyond. */
  lemma {:induction false} EmitPrefix(codes: seq<Opcode>, a: string, b: string, k: nat, l: nat, base: int)
    requires k <= |a| && l <= |b| && Matches(codes, a[..k], b[..l])
    ensures EmitAll(codes, a, b, base) == EmitAll(codes, a[..k], b[..l], base)
    decreases |codes|
  {
    if codes != [] {
      var c := codes[|codes| - 1];
      var init := codes[..|codes| - 1];
      assert a[..k][..c.i1] == a[..c.i1] && b[..l][..c.j1] == b[..c.j1];
      EmitPrefix(init, a, b, c.i1, c.j1, base);
      EmitPrefix(init, a[..k], b[..l], c.i1, c.j1, base);
      assert Slice(a, c.i1, c.i2) == Slice(a[..k], c.i1, c.i2);
      assert Slice(b, c.j1, c.j2) == Slice(b[..l], c.j1, c.j2);
    }
  }

  lemma ApplyTwo(t: string, x: Op, y: Op)
    ensures ApplyOps(t, [x]) == ApplyOp(t, x)
    ensures ApplyOps(t, [x, y]) == ApplyOp(ApplyOp(t, x), y)
    ensures AppliesAll(t, [x]) <==> Applies(t, x)
    ensures AppliesAll(t, [x, y]) <==> Applies(t, x) && Applies(ApplyOp(t, x), y)
  {
    assert [x][1..] == [];
    assert [x, y][1..] == [y];
    assert [y][1..] == [];
    var u := ApplyOp(t, x);
    assert ApplyOps(t, [x, y]) == ApplyOps(u, [y]);
    assert ApplyOps(u, [y]) == ApplyOps(ApplyOp(u, y), []);
    assert AppliesAll(u, [y]) <==> Applies(u, y);
    assert AppliesAll(t, [x, y]) <==> Applies(t, x) && AppliesAll(u, [y]);
  }

  /** Cutting `len(s)` characters at `|pre|` from `pre + s + post`. */
  lemma CutAt(pre: string, s: string, post: string)
    ensures Applies(pre + s + post, Deletion(|pre|, s))
    ensures ApplyOp(pre + s + post, Deletion(|pre|, s)) == pre + post
  {
    var t := pre + s + post;
    assert t[|pre|..|pre| + |s|] == s;
    assert Take(t, |pre|) == pre;
    assert Drop(t, |pre| + |s|) == post;
  }

  /** Putting `s` at `|pre|` into `pre + post`. */
  lemma PutAt(pre: string, s: string, post: string)
    ensures Applies(pre + post, Insertion(|pre|, s))
    ensures ApplyOp(pre + post, Insertion(|pre|, s)) == pre + s + post
  {
    var t := pre + post;
    assert Take(t, |pre|) == pre;
    assert Drop(t, |pre|) == post;
  }

  /** Applying the last chunk's ops (in reverse) to `pre + a + post`
      replaces the chunk's part of `a` by its part of `b`. */
  lemma LastChunk(c: Opcode, a: string, b: string, pre: string, post: string)
    requires c.i2 == |a| && c.j2 == |b| && 0 <= c.i1 <= c.i2 && 0 <= c.j1 <= c.j2 && Fits(c, a, b)
    ensures ApplyOps(pre + a + post, Reverse(Emitted(c, a, b, |pre|))) == pre + a[..c.i1] + (b[c.j1..] + post)
    ensures AppliesAll(pre + a + post, Reverse(Emitted(c, a, b, |pre|)))
  {
    var head, gone, added := pre + a[..c.i1], a[c.i1..], b[c.j1..];
    assert pre + a + post == head + gone + post by {
      assert a == a[..c.i1] + gone;
    }
    LastChunkShape(c, a, b, pre);
    ApplyChunk(c.tag, pre + a + post, head, gone, added, post, Reverse(Emitted(c, a, b, |pre|)));
    Regroup(pre, a[..c.i1], added, post);
  }

  /** The reversed ops of the last chunk, in terms of the parts of `a` and
      `b` it covers. */
  lemma LastChunkShape(c: Opcode, a: string, b: string, pre: string)
    requires c.i2 == |a| && c.j2 == |b| && 0 <= c.i1 <= c.i2 && 0 <= c.j1 <= c.j2 && Fits(c, a, b)
    ensures var ops := Reverse(Emitted(c, a, b, |pre|));
      var head, gone, added := pre + a[..c.i1], a[c.i1..], b[c.j1..];
      ChunkShape(c.tag, ops, |head|, gone, added)
  {
    var head, gone, added := pre + a[..c.i1], a[c.i1..], b[c.j1..];
    assert |head| == |pre| + c.i1;
    assert Slice(a, c.i1, c.i2) == gone && Slice(b, c.j1, c.j2) == added;
    var ins, del := Insertion(|head|, added), Deletion(|head|, gone);
    match c.tag
    case Equal =>
    case Delete =>
    case Insert =>
    case Replace =>
      ReverseIndex([ins, del]);
  }

  /** What a chunk of each tag emits, reversed, at offset `at`. */
  predicate ChunkShape(tag: Tag, ops: seq<Op>, at: int, gone: string, added: string)
  {
    match tag
    case Equal => ops == [] && gone == added
    case Delete => ops == [Deletion(at, gone)] && added == []
    case Insert => ops == [Insertion(at, added)] && gone == []
    case Replace => ops == [Deletion(at, gone), Insertion(at, added)]
  }

  /** The ops of a chunk fit `head + gone + post` and turn it into
      `head + added + post`. */
  lemma ApplyChunk(tag: Tag, t: string, head: string, gone: string, added: string, post: string, ops: seq<Op>)
    requires t == head + gone + post && ChunkShape(tag, ops, |head|, gone, added)
    ensures ApplyOps(t, ops) == head + added + post
    ensures AppliesAll(t, ops)
  {
    var ins, del := Insertion(|head|, added), Deletion(|head|, gone);
    match tag
    case Equal =>
    case Delete =>
      ApplyTwo(t, del, del);
      CutAt(head, gone, post);
      assert head + added == head;
    case Insert =>
      assert t == head + post by {
        assert head + gone + post == head + post;
      }
      ApplyTwo(t, ins, ins);
      PutAt(head, added, post);
    case Replace =>
      ApplyTwo(t, del, ins);
      CutAt(head, gone, post);
      PutAt(head, added, post);
  }

  lemma Regroup(w: string, x: string, y: string, z: string)
    ensures w + x + y + z == w + x + (y + z)
  {
  }

  /** "Last op should be applied first": for any opcode list of `a` into
      `b`, the emitted ops reversed turn `pre + a + post` into
      `pre + b + post`, with `pre` giving the offset base; and each of
      them fits the text it meets, so every deletion cuts exactly the text
      it names. */
  lemma {:induction false} EmitRoundTrip(codes: seq<Opcode>, a: string, b: string, pre: string, post: string)
    requires Matches(codes, a, b)
    ensures ApplyOps(pre + a + post, Reverse(EmitAll(codes, a, b, |pre|))) == pre + b + post
    ensures AppliesAll(pre + a + post, Reverse(EmitAll(codes, a, b, |pre|)))
    decreases |codes|
  {
    if codes == [] {
      assert Reverse<Op>([]) == [];
    } else {
      var c := codes[|codes| - 1];
      EmitRoundTrip(codes[..|codes| - 1], a[..c.i1], b[..c.j1], pre, b[c.j1..] + post);
      RoundTripStep(codes, a, b, pre, post);
    }
  }

  /** The inductive step of `EmitRoundTrip`: the last chunk first, then the
      others on the text that is left. */
  lemma RoundTripStep(codes: seq<Opcode>, a: string, b: string, pre: string, post: string)
    requires Matches(codes, a, b) && codes != []
    requires var c := codes[|codes| - 1];
      ApplyOps(pre + a[..c.i1] + (b[c.j1..] + post), Reverse(EmitAll(codes[..|codes| - 1], a[..c.i1], b[..c.j1], |pre|))) ==
        pre + b[..c.j1] + (b[c.j1..] + post) &&
      AppliesAll(pre + a[..c.i1] + (b[c.j1..] + post), Reverse(EmitAll(codes[..|codes| - 1], a[..c.i1], b[..c.j1], |pre|)))
    ensures ApplyOps(pre + a + post, Reverse(EmitAll(codes, a, b, |pre|))) == pre + b + post
    ensures AppliesAll(pre + a + post, Reverse(EmitAll(codes, a, b, |pre|)))
  {
    var c := codes[|codes| - 1];
    var init := codes[..|codes| - 1];
    var a', b' := a[..c.i1], b[..c.j1];
    var post' := b[c.j1..] + post;
    var early, last := Reverse(EmitAll(init, a, b, |pre|)), Reverse(Emitted(c, a, b, |pre|));
    assert Reverse(EmitAll(codes, a, b, |pre|)) == last + early by {
      ReverseConcat(EmitAll(init, a, b, |pre|), Emitted(c, a, b, |pre|));
    }
    assert ApplyOps(pre + a + post, last) == pre + a' + post' by {
      LastChunk(c, a, b, pre, post);
    }
    assert Matches(init, a', b') && c.i1 <= |a| && c.j1 <= |b|;
    EmitPrefix(init, a, b, c.i1, c.j1, |pre|);
    EarlyChunks(pre + a' + post', EmitAll(init, a, b, |pre|), EmitAll(init, a', b', |pre|), pre, b, c.j1, post);
    assert AppliesAll(pre + a + post, last) by {
      LastChunk(c, a, b, pre, post);
    }
    assert AppliesAll(pre + a' + post', early);
    Chain(pre + a + post, last, early, pre + a' + post', pre + b + post);
  }

  /** The chunks before the last one: their ops are the same whether
      emitted against the whole texts or the prefixes `b1` ends, so they
      turn the text the last chunk leaves into `pre + b1 + b2 + post`. */
  lemma EarlyChunks(t: string, whole: seq<Op>, prefix: seq<Op>, pre: string, b: string, j: nat, post: string)
    requires j <= |b| && whole == prefix && ApplyOps(t, Reverse(prefix)) == pre + b[..j] + (b[j..] + post)
    ensures ApplyOps(t, Reverse(whole)) == pre + b + post
  {
    Regroup(pre, b[..j], b[j..], post);
    assert b[..j] + b[j..] == b;
  }

  lemma Chain(t: string, x: seq<Op>, y: seq<Op>, mid: string, result: string)
    requires ApplyOps(t, x) == mid && ApplyOps(mid, y) == result
    ensures ApplyOps(t, x + y) == result
    ensures AppliesAll(t, x) && AppliesAll(mid, y) ==> AppliesAll(t, x + y)
  {
    ApplyOpsConcat(t, x, y);
    if AppliesAll(t, x) && AppliesAll(mid, y) {
      AppliesAllConcat(t, x, y);
    }
  }

  /** No ops are emitted only when the two texts are equal. */
  lemma {:induction false} EmitNothing(codes: seq<Opcode>, a: string, b: string, base: int)
    requires Matches(codes, a, b) && EmitAll(codes, a, b, base) == []
    ensures a == b
    decreases |codes|
  {
    if codes != [] {
      var c := codes[|codes| - 1];
      var init := codes[..|codes| - 1];
      assert EmitAll(codes, a, b, base) == EmitAll(init, a, b, base) + Emitted(c, a, b, base);
      EqualChunk(c, a, b, base);
      EmitPrefix(init, a, b, c.i1, c.j1, base);
      EmitNothing(init, a[..c.i1], b[..c.j1], base);
      JoinEqual(a, b, c.i1, c.j1);
    }
  }

  /** A final chunk that emits nothing is an `equal` chunk. */
  lemma EqualChunk(c: Opcode, a: string, b: string, base: int)
    requires c.i2 == |a| && c.j2 == |b| && 0 <= c.i1 <= c.i2 && 0 <= c.j1 <= c.j2 && Fits(c, a, b)
    requires Emitted(c, a, b, base) == []
    ensures a[c.i1..] == b[c.j1..]
  {
    assert c.tag == Equal;
    assert a[c.i1..] == a[c.i1..c.i2] && b[c.j1..] == b[c.j1..c.j2];
  }

  lemma JoinEqual(a: string, b: string, i: nat, j: nat)
    requires i <= |a| && j <= |b| && a[..i] == b[..j] && a[i..] == b[j..]
    ensures a == b
  {
    assert a == a[..i] + a[i..] && b == b[..j] + b[j..];
  }
}
