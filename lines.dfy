/** The document text as the editor holds it: a list of lines, with
    `Text(lines) == "\n".join(lines)`. The character-offset splices
    `_insert` and `_remove` (identical in buffers/document.py and
    documentbuffer.py) are defined here step by step as the source performs
    them, and proved to edit the joined text. */
module Lines {
  import opened Base
  import opened PySeq
  import opened PyText

  function Text(lines: seq<string>): string
  {
    Join(lines, '\n')
  }

  /** No line holds a newline, as in an editor buffer. */
  predicate Clean(lines: seq<string>)
  {
    NoSep(lines, '\n')
  }

  /** The offset at which line `i` starts. */
  function LineStart(lines: seq<string>, i: nat): int
    requires i <= |lines|
  {
    if i == 0 then 0 else LineStart(lines, i - 1) + |lines[i - 1]| + 1
  }

  /** The text before line `i`, newline included, and after it. */
  function Before(lines: seq<string>, i: nat): string
    requires i <= |lines|
  {
    if i == 0 then "" else Text(lines[..i]) + "\n"
  }

  function After(lines: seq<string>, i: nat): string
    requires i < |lines|
  {
    if i + 1 == |lines| then "" else "\n" + Text(lines[i + 1..])
  }

  lemma {:induction false} BeforeLength(lines: seq<string>, i: nat)
    requires i <= |lines|
    ensures |Before(lines, i)| == LineStart(lines, i)
  {
    if i > 1 {
      BeforeLength(lines, i - 1);
      JoinAppend(lines[..i - 1], [lines[i - 1]], '\n');
      assert lines[..i - 1] + [lines[i - 1]] == lines[..i];
    } else if i == 1 {
      assert lines[..1] == [lines[0]];
    }
  }

  lemma JoinCons(x: string, post: seq<string>)
    requires post != []
    ensures Join([x] + post, '\n') == x + "\n" + Join(post, '\n')
  {
    assert ([x] + post)[0] == x;
    assert ([x] + post)[1..] == post;
  }

  /** The text is the part before a line, the line, and the part after. */
  lemma Decompose(lines: seq<string>, i: nat)
    requires i < |lines|
    ensures Text(lines) == Before(lines, i) + lines[i] + After(lines, i)
    ensures |Before(lines, i)| == LineStart(lines, i)
  {
    DecomposeText(lines, i);
    BeforeLength(lines, i);
  }

  lemma DecomposeText(lines: seq<string>, i: nat)
    requires i < |lines|
    ensures Text(lines) == Before(lines, i) + lines[i] + After(lines, i)
  {
    var pre, line, post := lines[..i], lines[i], lines[i + 1..];
    var mid := Join([line] + post, '\n');
    assert mid == line + After(lines, i) by {
      if post == [] {
        assert [line] + post == [line];
      } else {
        JoinCons(line, post);
      }
    }
    if i == 0 {
      assert Text(lines) == mid by {
        assert lines == [line] + post;
      }
    } else {
      assert Text(lines) == Text(pre) + "\n" + mid by {
        assert lines == pre + ([line] + post);
        JoinAppend(pre, [line] + post, '\n');
      }
    }
  }

  lemma TextLength(lines: seq<string>)
    requires lines != []
    ensures |Text(lines)| == LineStart(lines, |lines|) - 1
  {
    Decompose(lines, |lines| - 1);
  }

  /** The line search of `_insert`/`_remove`: walk the lines from `i`,
      with `p` the offset of line `i`, until `start` falls before the end
      of a line (its newline included); off the end, the last line with
      `p` past the text. */
  function FindFrom(lines: seq<string>, start: int, i: nat, p: int): (r: (nat, int))
    requires i < |lines|
    ensures i <= r.0 < |lines|
    decreases |lines| - i
  {
    if start >= p + |lines[i]| + 1 then
      if i + 1 == |lines| then (i, p + |lines[i]| + 1)
      else FindFrom(lines, start, i + 1, p + |lines[i]| + 1)
    else (i, p)
  }

  /** `(line_i, p_linestart)` after the search; an empty list leaves
      `line_i` unbound. */
  function FindLine(lines: seq<string>, start: int): (r: Option<(nat, int)>)
    ensures r.Some? <==> lines != []
    ensures r.Some? ==> r.value.0 < |lines|
  {
    if lines == [] then None else Some(FindFrom(lines, start, 0, 0))
  }

  lemma {:induction false} FindFromLocates(lines: seq<string>, start: int, i: nat, p: int)
    requires i < |lines| && p == LineStart(lines, i) && p <= start < LineStart(lines, |lines|)
    ensures var (j, q) := FindFrom(lines, start, i, p);
      i <= j < |lines| && q == LineStart(lines, j) && q <= start <= q + |lines[j]|
    decreases |lines| - i
  {
    if start >= p + |lines[i]| + 1 && i + 1 < |lines| {
      FindFromLocates(lines, start, i + 1, p + |lines[i]| + 1);
    }
  }

  /** For an offset inside the text (its end included), the search stops
      at the line holding it: `start` is that line's start plus a column
      within the line. */
  lemma FindLineLocates(lines: seq<string>, start: int)
    requires lines != [] && 0 <= start <= |Text(lines)|
    ensures FindLine(lines, start).Some?
    ensures var (i, p) := FindLine(lines, start).value;
      i < |lines| && p == LineStart(lines, i) && p <= start <= p + |lines[i]|
  {
    TextLength(lines);
    FindFromLocates(lines, start, 0, 0);
  }

  /** `_insert(buffer, start, string)` as written: the line is found in
      `source` (the `self.buffer` the code scans) and the edit is written
      into `target` (the list it was given). */
  function Inserted(source: seq<string>, target: seq<string>, start: int, s: string): (r: Result<seq<string>>)
    ensures r.Ok? ==> |r.value| >= |target|
  {
    match FindLine(source, start)
    case None => Err("NameError")
    case Some((i, p)) =>
      var line := source[i];
      if i >= |target| then Err("IndexError")
      else Ok(SpliceLines(target, i, Take(line, start - p), Split(s, '\n'), Drop(line, start - p)))
  }

  /** The list edit of `_insert`: the last part gets the line's tail, line
      `i` becomes the head plus the first part, and the other parts are
      inserted after it. */
  function SpliceLines(target: seq<string>, i: nat, head: string, parts: seq<string>, tail: string): (r: seq<string>)
    requires i < |target| && |parts| >= 1
    ensures |r| == |target| + |parts| - 1
  {
    var k := |parts|;
    var parts2 := parts[k - 1 := parts[k - 1] + tail];
    var t := target[i := head + parts2[0]];
    if k > 1 then t[..i + 1] + parts2[1..] + t[i + 1..] else t
  }

  /** `_remove(buffer, start, string)` as written: the text from `start`
      through as many lines as `string` spans is cut, keeping the head of
      the first line and the tail of the last. */
  function Removed(lines: seq<string>, start: int, s: string): (r: Result<seq<string>>)
    ensures r.Ok? ==> r.value != []
  {
    match FindLine(lines, start)
    case None => Err("NameError")
    case Some(loc) => RemovedFrom(lines, loc.0, start - loc.1, Split(s, '\n'))
  }

  /** The removal once the line `i` and the column `col` in it, and the
      lines `parts` of the removed string, are known. */
  function RemovedFrom(lines: seq<string>, i: nat, col: int, parts: seq<string>): (r: Result<seq<string>>)
    requires i < |lines| && |parts| >= 1
    ensures r.Ok? ==> r.value != []
  {
    var k := |parts|;
    if i + k - 1 >= |lines| then Err("IndexError")
    else
      var tail := if k == 1 then Drop(lines[i + k - 1], col + |parts[k - 1]|)
                  else Drop(lines[i + k - 1], |parts[k - 1]|);
      Ok(lines[..i] + [Take(lines[i], col) + tail] + lines[i + k..])
  }

  /** The lines of `x + y`: the last line of `x` runs on into the first
      line of `y`. */
  function Glue(a: seq<string>, b: seq<string>): (r: seq<string>)
    requires |a| >= 1 && |b| >= 1
    ensures |r| == |a| + |b| - 1
  {
    a[..|a| - 1] + [a[|a| - 1] + b[0]] + b[1..]
  }

  lemma SplitConsNewline(z: string)
    ensures Split("\n" + z, '\n') == [""] + Split(z, '\n')
  {
    assert ("\n" + z)[1..] == z;
  }

  lemma SplitConsChar(c: char, z: string)
    requires c != '\n'
    ensures var sz := Split(z, '\n');
      Split([c] + z, '\n') == [[c] + sz[0]] + sz[1..]
  {
    assert ([c] + z)[1..] == z;
  }

  lemma GlueConsEmpty(a: seq<string>, b: seq<string>)
    requires |a| >= 1 && |b| >= 1
    ensures Glue([""] + a, b) == [""] + Glue(a, b)
  {
    assert ([""] + a)[..|a|] == [""] + a[..|a| - 1];
  }

  lemma GlueConsChar(c: char, a: seq<string>, b: seq<string>)
    requires |a| >= 1 && |b| >= 1
    ensures var g := Glue(a, b);
      Glue([[c] + a[0]] + a[1..], b) == [[c] + g[0]] + g[1..]
  {
    var g := Glue(a, b);
    var a' := [[c] + a[0]] + a[1..];
    if |a| == 1 {
      assert g == [a[0] + b[0]] + b[1..];
      assert g[0] == a[0] + b[0] && g[1..] == b[1..];
      assert [c] + (a[0] + b[0]) == [c] + a[0] + b[0];
      assert a'[..0] == [] && a'[0] == [c] + a[0];
      assert Glue(a', b) == [[c] + a[0] + b[0]] + b[1..];
    } else {
      assert g[0] == a[0];
      assert g[1..] == a[1..|a| - 1] + [a[|a| - 1] + b[0]] + b[1..];
      assert a'[..|a'| - 1] == [[c] + a[0]] + a[1..|a| - 1];
      assert a'[|a'| - 1] == a[|a| - 1];
    }
  }

  lemma {:induction false} SplitConcat(x: string, y: string)
    ensures Split(x + y, '\n') == Glue(Split(x, '\n'), Split(y, '\n'))
    decreases |x|
  {
    if x == [] {
      var sy := Split(y, '\n');
      assert x + y == y;
      assert Split(x, '\n') == [""];
      assert Glue([""], sy) == [] + ["" + sy[0]] + sy[1..];
      assert "" + sy[0] == sy[0];
      assert [sy[0]] + sy[1..] == sy;
    } else {
      var c, z := x[0], x[1..];
      assert x == [c] + z && x + y == [c] + (z + y);
      SplitConcat(z, y);
      if c == '\n' {
        SplitConsNewline(z);
        SplitConsNewline(z + y);
        GlueConsEmpty(Split(z, '\n'), Split(y, '\n'));
      } else {
        SplitConsChar(c, z);
        SplitConsChar(c, z + y);
        GlueConsChar(c, Split(z, '\n'), Split(y, '\n'));
      }
    }
  }

  lemma SplitNewline()
    ensures Split("\n", '\n') == ["", ""]
  {
    assert "\n"[1..] == "";
  }

  /** The lines of the text before line `i` followed by a newline-free
      `x`. */
  lemma SplitBefore(lines: seq<string>, i: nat, x: string)
    requires Clean(lines) && i < |lines| && '\n' !in x
    ensures Split(Before(lines, i) + x, '\n') == lines[..i] + [x]
  {
    SplitNoSep(x, '\n');
    if i == 0 {
      assert Before(lines, i) + x == x;
    } else {
      var pre := lines[..i];
      assert NoSep(pre, '\n');
      SplitBeforeText(pre, x);
    }
  }

  /** The lines of `Text(pre) + "\n"` followed by a newline-free `x`. */
  lemma SplitBeforeText(pre: seq<string>, x: string)
    requires pre != [] && NoSep(pre, '\n') && '\n' !in x && Split(x, '\n') == [x]
    ensures Split(Text(pre) + "\n" + x, '\n') == pre + [x]
  {
    SplitJoin(pre, '\n');
    GlueBefore(Text(pre), pre, x);
  }

  /** `SplitBeforeText` for any text whose lines are `pre`. */
  lemma GlueBefore(t: string, pre: seq<string>, x: string)
    requires pre != [] && Split(t, '\n') == pre && Split(x, '\n') == [x]
    ensures Split(t + "\n" + x, '\n') == pre + [x]
  {
    GlueNewline(t, pre);
    GlueLine(t + "\n", pre, x);
  }

  /** A newline after a text adds an empty last line. */
  lemma GlueNewline(t: string, pre: seq<string>)
    requires pre != [] && Split(t, '\n') == pre
    ensures Split(t + "\n", '\n') == pre + [""]
  {
    SplitNewline();
    SplitConcat(t, "\n");
    assert pre[|pre| - 1] + "" == pre[|pre| - 1];
    assert pre[..|pre| - 1] + [pre[|pre| - 1]] == pre;
  }

  /** A newline-free `x` after a text whose last line is empty fills that
      line. */
  lemma GlueLine(u: string, pre: seq<string>, x: string)
    requires Split(u, '\n') == pre + [""] && Split(x, '\n') == [x]
    ensures Split(u + x, '\n') == pre + [x]
  {
    SplitConcat(u, x);
    assert (pre + [""])[..|pre|] == pre;
    assert "" + x == x;
  }

  /** The lines of a newline-free `x` followed by the text after line `i`. */
  lemma SplitAfter(lines: seq<string>, i: nat, x: string)
    requires Clean(lines) && i < |lines| && '\n' !in x
    ensures Split(x + After(lines, i), '\n') == [x] + lines[i + 1..]
  {
    SplitNoSep(x, '\n');
    if i + 1 == |lines| {
      assert x + After(lines, i) == x;
    } else {
      var post := lines[i + 1..];
      assert NoSep(post, '\n');
      SplitJoin(post, '\n');
      SplitNewline();
      SplitConcat("\n", Text(post));
      SplitConcat(x, "\n" + Text(post));
      assert Glue(["", ""], post) == [""] + post by {
        assert "" + post[0] == post[0];
        assert [post[0]] + post[1..] == post;
      }
      assert Glue([x], [""] + post) == [x] + post by {
        assert x + "" == x;
        assert ([""] + post)[1..] == post;
      }
    }
  }

  /** A newline-free prefix or suffix of a line keeps the line clean. */
  lemma CleanPieces(line: string, col: nat)
    requires '\n' !in line && col <= |line|
    ensures '\n' !in line[..col] && '\n' !in line[col..]
  {
    assert forall ch :: ch in line[..col] ==> ch in line;
    assert forall ch :: ch in line[col..] ==> ch in line;
  }

  /** The text around an offset located on line `i`. */
  lemma Around(lines: seq<string>, i: nat, col: nat)
    requires Clean(lines) && i < |lines| && col <= |lines[i]|
    ensures var start := LineStart(lines, i) + col;
      0 <= start <= |Text(lines)| &&
      Text(lines)[..start] == Before(lines, i) + lines[i][..col] &&
      Text(lines)[start..] == lines[i][col..] + After(lines, i) &&
      Split(Text(lines)[..start], '\n') == lines[..i] + [lines[i][..col]] &&
      Split(Text(lines)[start..], '\n') == [lines[i][col..]] + lines[i + 1..]
  {
    AroundText(lines, i, col);
    CleanPieces(lines[i], col);
    SplitBefore(lines, i, lines[i][..col]);
    SplitAfter(lines, i, lines[i][col..]);
  }

  /** The text before and after an offset located on line `i`. */
  lemma AroundText(lines: seq<string>, i: nat, col: nat)
    requires i < |lines| && col <= |lines[i]|
    ensures var start := LineStart(lines, i) + col;
      0 <= start <= |Text(lines)| &&
      Text(lines)[..start] == Before(lines, i) + lines[i][..col] &&
      Text(lines)[start..] == lines[i][col..] + After(lines, i)
  {
    Decompose(lines, i);
    Halves(Text(lines), Before(lines, i), lines[i], After(lines, i), col);
  }

  /** Cutting `before + line + after` inside `line`. */
  lemma Halves(t: string, before: string, line: string, after: string, col: nat)
    requires t == before + line + after && col <= |line|
    ensures t[..|before| + col] == before + line[..col]
    ensures t[|before| + col..] == line[col..] + after
  {
    var left, right := before + line[..col], line[col..] + after;
    assert t == left + right by {
      assert line == line[..col] + line[col..];
    }
    assert t[..|left|] == left;
    assert t[|left|..] == right;
  }

  /** The list edit of `_insert` is the line list of the head, the parts
      and the tail run together. */
  lemma SpliceIsGlue(lines: seq<string>, i: nat, head: string, parts: seq<string>, tail: string)
    requires i < |lines| && |parts| >= 1
    ensures SpliceLines(lines, i, head, parts, tail) ==
      Glue(Glue(lines[..i] + [head], parts), [tail] + lines[i + 1..])
  {
    var pre, post := lines[..i], lines[i + 1..];
    var k := |parts|;
    var g1 := Glue(pre + [head], parts);
    assert (pre + [head])[..i] == pre;
    assert g1 == pre + [head + parts[0]] + parts[1..];
    var t := lines[i := head + parts[k - 1 := parts[k - 1] + tail][0]];
    if k > 1 {
      assert t[..i + 1] == pre + [head + parts[0]];
      assert t[i + 1..] == post;
      assert g1[..|g1| - 1] == pre + [head + parts[0]] + parts[1..k - 1];
      assert g1[|g1| - 1] == parts[k - 1];
      assert parts[k - 1 := parts[k - 1] + tail][1..] == parts[1..k - 1] + [parts[k - 1] + tail];
    } else {
      assert g1 == pre + [head + parts[0]];
      assert g1[..|g1| - 1] == pre;
      assert t == pre + [head + (parts[0] + tail)] + post;
      assert head + (parts[0] + tail) == head + parts[0] + tail;
    }
  }

  /** Reading back the line list of a head, the parts of a removed string
      and the lines after it. */
  lemma GlueRemoved(pre: seq<string>, h: string, parts: seq<string>, sb: seq<string>)
    requires |parts| >= 1 && |sb| >= 1
    ensures var l := Glue(pre + [h], Glue(parts, sb));
      var i, k := |pre|, |parts|;
      |l| == i + k + |sb| - 1 && l[..i] == pre && l[i + k..] == sb[1..] &&
      (k == 1 ==> l[i] == h + parts[0] + sb[0]) &&
      (k > 1 ==> l[i + k - 1] == parts[k - 1] + sb[0])
  {
    var c := Glue(parts, sb);
    var k := |parts|;
    assert (pre + [h])[..|pre|] == pre;
    var l := Glue(pre + [h], c);
    assert l == pre + [h + c[0]] + c[1..];
    if k == 1 {
      assert c == [parts[0] + sb[0]] + sb[1..];
      assert h + (parts[0] + sb[0]) == h + parts[0] + sb[0];
    } else {
      assert c[k - 1] == parts[k - 1] + sb[0];
      assert c[k..] == sb[1..];
    }
  }

  /** `_insert` into the list it scans, at an offset within the text,
      splices `s` into the joined text there and adds one line per newline
      in `s`. */
  lemma InsertSplices(lines: seq<string>, start: int, s: string)
    requires Clean(lines) && lines != [] && 0 <= start <= |Text(lines)|
    ensures Inserted(lines, lines, start, s).Ok?
    ensures var r := Inserted(lines, lines, start, s).value;
      Text(r) == Text(lines)[..start] + s + Text(lines)[start..] &&
      |r| == |lines| + Count(s, '\n') && Clean(r) && r != []
  {
    FindLineLocates(lines, start);
    var (i, p) := FindLine(lines, start).value;
    var col := start - p;
    var line := lines[i];
    var a, b := Text(lines)[..start], Text(lines)[start..];
    var parts := Split(s, '\n');
    assert Split(a, '\n') == lines[..i] + [line[..col]] && Split(b, '\n') == [line[col..]] + lines[i + 1..] by {
      Around(lines, i, col);
    }
    var r := Inserted(lines, lines, start, s).value;
    assert r == SpliceLines(lines, i, line[..col], parts, line[col..]);
    SplitOfSplice(lines, i, line[..col], line[col..], a, s, b);
    SplicedText(a + s + b, r);
    SplitShape(s, '\n');
  }

  /** Splitting `a + s + b` splices the lines of `s` between the lines of
      `a` and those of `b`. */
  lemma SplitOfSplice(lines: seq<string>, i: nat, head: string, tail: string, a: string, s: string, b: string)
    requires i < |lines|
    requires Split(a, '\n') == lines[..i] + [head] && Split(b, '\n') == [tail] + lines[i + 1..]
    ensures Split(a + s + b, '\n') == SpliceLines(lines, i, head, Split(s, '\n'), tail)
  {
    SplitShape(s, '\n');
    SpliceIsGlue(lines, i, head, Split(s, '\n'), tail);
    SplitConcat(a, s);
    SplitConcat(a + s, b);
  }

  /** The lines of a text join back to it, and are clean. */
  lemma SplicedText(u: string, r: seq<string>)
    requires r == Split(u, '\n')
    ensures Text(r) == u && Clean(r) && r != [] && |r| == Count(u, '\n') + 1
  {
    JoinSplit(u, '\n');
    SplitShape(u, '\n');
  }

  /** Unfolds `Removed` at the line and column that the line search
      locates (a helper for RemoveSplices). */
  lemma RemovedFound(lines: seq<string>, start: int, s: string)
    requires lines != []
    ensures var loc := FindLine(lines, start).value;
      Removed(lines, start, s) == RemovedFrom(lines, loc.0, start - loc.1, Split(s, '\n'))
  {
  }

  lemma RemovedShape(lines: seq<string>, i: nat, col: int, parts: seq<string>, sb: seq<string>)
    requires |parts| >= 1
    requires i < |lines| && 0 <= col <= |lines[i]| && |sb| >= 1
    requires i + |parts| - 1 < |lines| && lines[i + |parts|..] == sb[1..]
    requires sb[0] == if |parts| == 1 then Drop(lines[i], col + |parts[0]|)
                      else Drop(lines[i + |parts| - 1], |parts[|parts| - 1]|)
    ensures RemovedFrom(lines, i, col, parts) == Ok(lines[..i] + [lines[i][..col] + sb[0]] + sb[1..])
  {
    var k := |parts|;
    var tail := if k == 1 then Drop(lines[i + k - 1], col + |parts[k - 1]|)
                else Drop(lines[i + k - 1], |parts[k - 1]|);
    assert tail == sb[0];
    var head := Take(lines[i], col);
    assert head == lines[i][..col];
    RemovedFromIs(lines, i, col, parts, tail);
  }

  /** `RemovedFrom` when the parts are known and the line list is long
      enough. */
  lemma RemovedFromIs(lines: seq<string>, i: nat, col: int, parts: seq<string>, tail: string)
    requires i < |lines| && 1 <= |parts| && i + |parts| - 1 < |lines|
    requires tail == if |parts| == 1 then Drop(lines[i], col + |parts[0]|)
                     else Drop(lines[i + |parts| - 1], |parts[|parts| - 1]|)
    ensures RemovedFrom(lines, i, col, parts) == Ok(lines[..i] + [Take(lines[i], col) + tail] + lines[i + |parts|..])
  {
  }

  lemma RemoveSplices(lines: seq<string>, start: int, s: string)
    requires Clean(lines) && lines != []
    requires 0 <= start && start + |s| <= |Text(lines)|
    requires Text(lines)[start..start + |s|] == s
    ensures Removed(lines, start, s).Ok?
    ensures var r := Removed(lines, start, s).value;
      Text(r) == Text(lines)[..start] + Text(lines)[start + |s|..] &&
      |r| == |lines| - Count(s, '\n') && Clean(r) && r != []
  {
    var ab := Text(lines)[..start] + Text(lines)[start + |s|..];
    RemovedIsSplit(lines, start, s, ab);
    JoinSplit(ab, '\n');
    SplitShape(ab, '\n');
  }

  /** The lines `_remove` leaves are those of the text with `s` cut out. */
  lemma RemovedIsSplit(lines: seq<string>, start: int, s: string, ab: string)
    requires Clean(lines) && lines != []
    requires 0 <= start && start + |s| <= |Text(lines)|
    requires Text(lines)[start..start + |s|] == s
    requires ab == Text(lines)[..start] + Text(lines)[start + |s|..]
    ensures Removed(lines, start, s) == Ok(Split(ab, '\n'))
    ensures |Split(ab, '\n')| == |lines| - Count(s, '\n')
  {
    var whole := Text(lines);
    FindLineLocates(lines, start);
    var (i, p) := FindLine(lines, start).value;
    var col := start - p;
    var a, b := whole[..start], whole[start + |s|..];
    assert whole == a + (s + b) by {
      assert whole == whole[..start] + whole[start..start + |s|] + whole[start + |s|..];
    }
    assert Split(a, '\n') == lines[..i] + [lines[i][..col]] by {
      Around(lines, i, col);
    }
    SplitJoin(lines, '\n');
    RemovedByParts(lines, start, s, i, col, a, b);
  }

  /** `_remove` read on the line lists of the text before the removed
      string and of the text after it. */
  lemma RemovedByParts(lines: seq<string>, start: int, s: string, i: nat, col: int, a: string, b: string)
    requires i < |lines| && 0 <= col <= |lines[i]|
    requires FindLine(lines, start) == Some((i, start - col))
    requires Split(a + (s + b), '\n') == lines
    requires Split(a, '\n') == lines[..i] + [lines[i][..col]]
    ensures Removed(lines, start, s) == Ok(Split(a + b, '\n'))
    ensures |Split(a + b, '\n')| == |lines| - Count(s, '\n')
  {
    var h := lines[i][..col];
    var parts := Split(s, '\n');
    var sb := Split(b, '\n');
    assert lines == Glue(lines[..i] + [h], Glue(parts, sb)) by {
      SplitConcat(s, b);
      SplitConcat(a, s + b);
    }
    var r := lines[..i] + [h + sb[0]] + sb[1..];
    assert Removed(lines, start, s) == Ok(r) by {
      GlueRemoved(lines[..i], h, parts, sb);
      assert |h| == col;
      RemovedFound(lines, start, s);
      RemovedShape(lines, i, col, parts, sb);
    }
    assert r == Split(a + b, '\n') by {
      SplitConcat(a, b);
      assert (lines[..i] + [h])[..i] == lines[..i];
    }
    SplitShape(s, '\n');
  }
}
