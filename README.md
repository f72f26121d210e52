# AirLatex core, modelled in Dafny

AirLatex is a Neovim plugin that edits Overleaf projects. It talks to the Overleaf server over a Socket.IO 0.9 websocket and keeps each open document in a Vim buffer. Local edits go to the server as ShareJS text operations, and remote operations are applied to the buffer. A Firefox add-on scrolls the PDF preview to the cursor, and a small FUSE filesystem exposes the compile output. This project models the core of that system and proves what it promises:

- **The session** (`project.py`, modules `Project`, `Protocol`, `Frames`, `Flush`, `Cursors`, `JsonValues`). It covers the command counter and the table of requests waiting for an answer. It covers the frames written and parsed, and the batching of queued ops per document. It also covers the handling of every server message and answer, the remote-cursor table, the pending comments, and the sidebar record after a disconnect. The session's view of a document it serves (`Protocol.DocEntry`: version, ops buffer, `threads.data`, lines, comment selection, packets handed to `applyUpdate`) follows the calls that `project.py` makes, such as `doc.threads.data[...]` (project.py:467-469, :526) and `highlightChanges` (project.py:504). The `buffers/document.py` in this repository does not match those calls: it keeps `self.threads` as a plain dict (document.py:39), has `highlightComments(self, comments, threads=None)` (document.py:284) and no `highlightChanges`. The two are modelled separately, each after its own source.
- **The document buffers** (`buffers/document.py` and the older `documentbuffer.py`; modules `Document`, `DocumentBuffer`, `Rows`, `Edits`, `Lines`, `LineOps`, `Names`). They apply remote ops to the screen lines and the saved lines. They turn local changes into ops, row by row or character by character, which round-trip the saved text to the buffer text. They also handle buffer names, file types and comment positions.
- **The line-length accumulators** (`lib/range.py`; modules `Accumulator`, `Fenwick`, `FenwickChain`). These are `NaiveAccumulator` and the binary indexed tree `FenwickTree`. Both turn (row, column) into an offset and back.
- **The comment and tracked-change controllers** (`buffers/controllers/range.py` and its older copy `thread.py`; modules `Intervals`, `Tracker`, `RangeController`, `ThreadController`). Their interval trees follow the document through inserts and deletes. The controllers also provide navigation and the overlaps that `doubled` reports.
- **The settings singleton** (`lib/settings.py`, module `PluginSettings`), **the add-on's background page** (`firefox/add-on/background.js`, module `Background`), and **the build filesystem** (`tools/airmount.py` and `fs.py`, module `BuildFs`).

Python's own semantics are written out where the code relies on them: `str.split`/`join`, `str(int)`, negative indices, clamped slices, dict insertion order, and the exception each failing operation raises. These live in `PySeq`, `PyText` and `JsonValues`. Exceptions are modelled by the name of their type: an `Outcome` is `Done` or `Raised(name)`. Networking, the editor and the clock enter as parameters, and their effects are logs such as the frames sent.

## Model

| member | source | states |
|---|---|---|
| Names.NameRoundTrip | rplugin/python3/airlatex/buffers/document.py:130-132 | when no path component holds a `/`, splitting the buffer name at `/` gives back the path |
| Names.ExtIsLastPiece | rplugin/python3/airlatex/buffers/document.py:134-136 | the file type is a dot-free suffix of the name that is either the whole name or follows its last dot |
| Names.ExtOfDotted | rplugin/python3/airlatex/documentbuffer.py:22-23 | the file type of `stem.ext` is `ext` whenever `ext` has no dot |
| Lines.FindLine | rplugin/python3/airlatex/buffers/document.py:592-602 | the line search binds a line exactly when the buffer has lines, and that line is in range |
| Lines.FindLineLocates | rplugin/python3/airlatex/buffers/document.py:592-602 | for an offset inside the text, with the end included, the search stops at the line that holds it: the offset is that line's start plus a column within the line |
| Lines.Inserted | rplugin/python3/airlatex/buffers/document.py:591-615 | `_insert` never shortens the list it writes into |
| Lines.SpliceLines | rplugin/python3/airlatex/buffers/document.py:607-615 | the list splice adds one line per extra part |
| Lines.InsertSplices | rplugin/python3/airlatex/buffers/document.py:591-615 | `_insert` of `s` at an offset within the text puts `s` into the joined text at that offset, adds one line per newline in `s`, and keeps every line free of newlines |
| Lines.Removed | rplugin/python3/airlatex/buffers/document.py:618-646 | `_remove` never leaves an empty list |
| Lines.RemoveSplices | rplugin/python3/airlatex/buffers/document.py:618-646 | `_remove` of a string that the text holds at `start` cuts it out of the joined text, drops one line per newline in it, and keeps every line free of newlines |
| Lines.RemovedIsSplit | rplugin/python3/airlatex/buffers/document.py:618-646 | the lines `_remove` leaves are the lines of the text with the string cut out |
| Lines.SplitConcat | rplugin/python3/airlatex/buffers/document.py:605 | the lines of `x + y` are those of `x` and `y`, with the last line of `x` running into the first line of `y` |
| LineOps.EditLinesText | rplugin/python3/airlatex/buffers/document.py:567-578 | an op that fits the text, applied to the lines as `_remove` of `d` and then `_insert` of `i`, edits the joined text exactly as the op edits it |
| LineOps.EditAllText | rplugin/python3/airlatex/buffers/document.py:563-578 | a batch that fits the text, applied op by op to the lines, edits the joined text as the batch edits it, and the lines stay free of newlines and non-empty |
| PyText.JoinSplit | rplugin/python3/airlatex/buffers/document.py:605 | joining the parts of `s.split(sep)` with `sep` gives `s` back |
| PyText.SplitJoin | rplugin/python3/airlatex/buffers/document.py:497-499 | splitting a `"\n".join` of newline-free lines gives the lines back |
| Accumulator.Cumulative | rplugin/python3/airlatex/lib/range.py:147-150 | `na[index]` is the sum of the entries before `index`; a negative index first counts from the end, and an index past the end sums everything |
| Accumulator.LocateFirst | rplugin/python3/airlatex/lib/range.py:159-165 | `search(v)` reports the first row whose running total reaches `v`, with `v` minus the total before that row as the column; when no row reaches `v` it reports `(last_index, 0)` |
| Accumulator.LocateColumnInRow | rplugin/python3/airlatex/lib/range.py:159-165 | with non-negative lengths and a non-negative offset that some row reaches, the reported column lies within the reported row |
| Accumulator.LocatePosition | rplugin/python3/airlatex/lib/range.py:159-168 | `search` inverts `position(row, col)` for a column inside the row (past its start) |
| Accumulator.LocateRowStart | rplugin/python3/airlatex/lib/range.py:159-168 | an offset at the very start of a later row is reported as the end of the previous row, because the comparison is `>=` |
| Accumulator.NaiveAccumulator.constructor | rplugin/python3/airlatex/lib/range.py:131-135 | the entries are the base followed by a single zero, and `last_index` is the length of the base |
| Accumulator.NaiveAccumulator.Initialize | rplugin/python3/airlatex/lib/range.py:137-141 | the entries become the given lengths followed by one zero, and `last_index` their number |
| Accumulator.NaiveAccumulator.Insert | rplugin/python3/airlatex/lib/range.py:143-145 | the entries are Python's `list.insert` of the old entries, and `last_index` grows by one |
| Accumulator.NaiveAccumulator.Remove | rplugin/python3/airlatex/lib/range.py:152-157 | one entry is deleted, with a negative index counted from the end; an index out of range raises `IndexError` and changes nothing |
| Accumulator.NaiveAccumulator.Update | rplugin/python3/airlatex/lib/range.py:170-175 | `diff` is added to an existing entry, or appended when the index lies past `last_index`; an index out of range below raises `IndexError` |
| Accumulator.NaiveAccumulator.SetItem | rplugin/python3/airlatex/lib/range.py:180-185 | an existing entry is overwritten, or the value appended when the index lies past `last_index` |
| Accumulator.NaiveAccumulator.Search | rplugin/python3/airlatex/lib/range.py:159-165 | the loop returns the row and column of `Locate`, the function that `LocateFirst` characterises |
| Accumulator.NaiveAccumulator.Arr | rplugin/python3/airlatex/lib/range.py:190-192 | `arr` is all the entries while the accumulator is consistent |
| FenwickChain.LowBit | rplugin/python3/airlatex/lib/range.py:21 | `x & -x` for a positive `x` lies between 1 and `x`, and is 0 for 0 |
| FenwickChain.ClearedIsEven | rplugin/python3/airlatex/lib/range.py:34 | clearing the lowest set bit, the query step, leaves an even number |
| FenwickChain.InUpCovers | rplugin/python3/airlatex/lib/range.py:26-28 | the update chain from `i` visits exactly the cells `k >= i` whose range `(k - lowbit(k), k]` contains `i` |
| FenwickChain.ChainAdvance | rplugin/python3/airlatex/lib/range.py:26-28 | one step of the `update` loop moves to the next cell of the chain and skips none |
| FenwickChain.NextOnChain | rplugin/python3/airlatex/lib/range.py:26-28 | no chain cell lies strictly between a chain cell and its successor |
| FenwickChain.HopTo | rplugin/python3/airlatex/lib/range.py:21-23 | during `initialize`, cell `x` receives a cell's total straight from `p` exactly when `x` is the cell after `p` on a chain through `p`, or both are the start |
| FenwickChain.DownSumAfterUpdate | rplugin/python3/airlatex/lib/range.py:25-35 | after `update(i, d)`, the prefix query at `k` (up to `size`) grows by `d` exactly when `i <= k` |
| FenwickChain.DownSumOfCovers | rplugin/python3/airlatex/lib/range.py:30-35 | when every cell holds the sum of its range, `get_cumulative_value(k)` is the sum of the first `k` entries |
| FenwickChain.InitStep | rplugin/python3/airlatex/lib/range.py:18-23 | one round of the `initialize` loop keeps the tree's length |
| FenwickChain.InitializeStepGathers | rplugin/python3/airlatex/lib/range.py:18-23 | each round of the `initialize` loop gathers one more entry into every cell whose range holds it, and leaves the cells past `len(a)` at zero |
| FenwickChain.GatheredComplete | rplugin/python3/airlatex/lib/range.py:18-23 | once every position up to `x` is processed, cell `x` holds the sum of its range, cut off at `len(a)` |
| FenwickChain.GatheredCovers | rplugin/python3/airlatex/lib/range.py:18-23 | after the whole `initialize` loop every cell up to `len(a)` holds the sum of its range |
| FenwickChain.PowerAbove | rplugin/python3/airlatex/lib/range.py:13 | `2 ** int(log2(n) + 1)` lies above `n` and at most `2n` |
| Fenwick.CoveredPrefixes | rplugin/python3/airlatex/lib/range.py:30-35 | a tree built by `initialize` answers every prefix query up to the length of its input with the prefix sum |
| Fenwick.AssignKeepsPrefixSums | rplugin/python3/airlatex/lib/range.py:116-121 | `ft[p] = v` keeps every prefix query equal to the prefix sum of the updated entries |
| Fenwick.InitializedMatchesNaive | rplugin/python3/airlatex/lib/range.py:12-35 | after `initialize(a)`, `ft[k - 1]` equals `NaiveAccumulator(a)[k]` for every `k` from 1 to `len(a)`, and `ft[-1]` is `sum(a)` |
| Fenwick.Build | rplugin/python3/airlatex/lib/range.py:15-23 | the arrays `initialize` fills: the entries are `a` padded with zeros, every cell up to `len(a)` holds the sum of its range, and the cells past `len(a)` stay zero |
| Fenwick.Gather | rplugin/python3/airlatex/lib/range.py:20-23 | the tree writes of one round of the loop are `InitStep` |
| Fenwick.FenwickTree.constructor | rplugin/python3/airlatex/lib/range.py:6-10 | a tree of `size + 1` zero cells and `size` zero entries, with `last_index` at -1 |
| Fenwick.FenwickTree.Initialize | rplugin/python3/airlatex/lib/range.py:12-23 | `log2(0)` raises on an empty list; otherwise the size grows to at least the power of two above `len(a)`, the entries are `a` padded with zeros, every cell up to `len(a)` covers its range, and nothing is propagated past `len(a)` |
| Fenwick.FenwickTree.Update | rplugin/python3/airlatex/lib/range.py:25-28 | `diff` is added to exactly the cells on the update chain from `index`, up to `size` |
| Fenwick.FenwickTree.GetCumulativeValue | rplugin/python3/airlatex/lib/range.py:30-35 | the loop returns the sum of the cells on the query chain, or `IndexError` past the tree |
| Fenwick.FenwickTree.GetItem | rplugin/python3/airlatex/lib/range.py:111-114 | `ft[index]` is the query at `index + 1`, with -1 standing for `last_index` |
| Fenwick.FenwickTree.Position | rplugin/python3/airlatex/lib/range.py:98-99 | `position(row, col)` is `ft[row] + col`, or the error the query raises |
| Fenwick.FenwickTree.SetItem | rplugin/python3/airlatex/lib/range.py:116-121 | the entry is overwritten and the tree moves by the difference along the update chain; an index past either end of `array` raises `IndexError` and changes nothing |
| Fenwick.FenwickTree.Search | rplugin/python3/airlatex/lib/range.py:101-109 | the same scan as `NaiveAccumulator.search` over the entries up to `last_index`; reading one past the end of `array` raises `IndexError` |
| Fenwick.FenwickTree.Resize | rplugin/python3/airlatex/lib/range.py:91-96 | the lists of a fresh tree initialised from `array` replace the old ones, `size` becomes `new_size`, and `last_index` is kept |
| Fenwick.FenwickTree.Append | rplugin/python3/airlatex/lib/range.py:37-44 | the value is written just past `last_index` and the tree moves along the update chain, after doubling when that index reaches `size`; the resize of an empty list raises `ValueError` |
| Fenwick.FenwickTree.Place | rplugin/python3/airlatex/lib/range.py:41-43 | the entry write and the tree update that `append` performs |
| Fenwick.FenwickTree.Remove | rplugin/python3/airlatex/lib/range.py:46-60 | the entries after `index` shift down by one, the old last slot is zeroed and `last_index` drops by one; when `last_index` has run past the end of `array`, the read there raises part-way; on an empty tree `array[-1]` is zeroed and `last_index` becomes -2, or `IndexError` when `array` is empty |
| Fenwick.FenwickTree.Insert | rplugin/python3/airlatex/lib/range.py:62-89 | an index near `size` inserts into the list and resizes; an index at or past `last_index` appends; otherwise the entries from `index` shift up, the value lands at `index`, and the displaced last entry is kept only while the new `last_index` is below `size` |
| Fenwick.FenwickTree.ShiftIn | rplugin/python3/airlatex/lib/range.py:72-89 | the shifting loop of `insert`, with its `IndexError` when `last_index` reaches the end of `array` |
| Intervals.NavigationSets | rplugin/python3/airlatex/buffers/controllers/range.py:27-40 | in a tree of non-empty intervals, `range[o+1:] - range[o]` is the set of intervals beginning after `o`, and `range[:o] - range[o]` the set of those ending at or before `o` |
| Intervals.MinBegin | rplugin/python3/airlatex/buffers/controllers/range.py:34 | `min(positions).begin` is the smallest begin among the positions |
| Intervals.MaxBegin | rplugin/python3/airlatex/buffers/controllers/range.py:44 | `max(positions).begin` is the largest begin among the positions |
| Intervals.NextPosition | rplugin/python3/airlatex/buffers/controllers/range.py:26-34 | the nearest begin after the cursor, with the count of intervals not after it plus one; failing that, the first begin before the cursor with count 1; failing that, `(-1, -1), 0` |
| Intervals.PrevPosition | rplugin/python3/airlatex/buffers/controllers/range.py:36-44 | the last begin before the cursor, with the number of intervals before it; failing that, the last begin after the cursor with count 1; failing that, `(-1, -1), 0` |
| Intervals.NextPositionSkipsCursor | rplugin/python3/airlatex/buffers/controllers/range.py:26-34 | next-navigation lands on the begin of an interval that does not hold the cursor, after it when one exists, with a count between 1 and the number of intervals; it finds nothing exactly when every interval holds the cursor |
| Intervals.PrevPositionSkipsCursor | rplugin/python3/airlatex/buffers/controllers/range.py:36-44 | the mirror image for previous-navigation |
| Intervals.Doubled | rplugin/python3/airlatex/buffers/controllers/range.py:46-58 | the nested loop of `doubled` collects `DoubledSpec` |
| Intervals.DoubledMeaning | rplugin/python3/airlatex/buffers/controllers/range.py:46-58 | `doubled` holds exactly the intersections of pairs of distinct stored intervals that overlap; each is non-empty and carries no data |
| Intervals.DoubledOfDisjoint | rplugin/python3/airlatex/buffers/controllers/range.py:46-58 | intervals that pairwise share no offset give no doubled range |
| Intervals.DoubledExample | rplugin/python3/airlatex/buffers/controllers/range.py:46-58 | `[0,20)` and `[10,30)` double exactly on `[10,20)` |
| Intervals.MoveEach | rplugin/python3/airlatex/buffers/controllers/range.py:74-78 | each interval after the edit is taken out and put back moved by the same amount, in any set order; when no moved interval collides with one still waiting, the result is exactly the others plus the moved copies |
| Intervals.Shrunk | rplugin/python3/airlatex/buffers/controllers/range.py:64-72 | a reshaped interval is never empty and keeps its data |
| Intervals.RemoveSpan | rplugin/python3/airlatex/buffers/controllers/range.py:60-80 | `_remove(start, end)` leaves the exact outcome of `RemoveRules`, except for moved copies that coincide with an interval still waiting to move (none when no copy collides), whatever order the tree is walked in, and keeps every interval non-empty |
| Intervals.RemoveRules | rplugin/python3/airlatex/buffers/controllers/range.py:60-80 | an interval ending at or before the deletion stays; one beginning after it moves back by its length; any other starts at `min(begin, start)` and stops at `start` when the deletion covers its end, else its length earlier, but at least one character after its start; nothing else appears |
| Intervals.InsertSpan | rplugin/python3/airlatex/buffers/controllers/range.py:82-95 | `_insert(start, end)` leaves the exact outcome of `InsertRules`, except for moved copies that coincide with an interval still waiting to move (none when no copy collides), whatever order the tree is walked in |
| Intervals.InsertRules | rplugin/python3/airlatex/buffers/controllers/range.py:82-95 | an interval holding the offset grows by the insertion's length, one beginning after it moves forward by that length, one ending at or before it stays; nothing else appears |
| Intervals.Payloads | rplugin/python3/airlatex/buffers/controllers/range.py:24 | `[r.data for r in ...]` has one payload per interval, and holds exactly their payloads |
| Tracker.Anchor | rplugin/python3/airlatex/buffers/controllers/range.py:115-125 | the anchored span holds the comment's offset; a non-empty span keeps its length and the reported coordinates, and an empty one is widened to the two characters around the offset, with its columns widened by one and clamped to the line |
| Tracker.ApplyEdits | rplugin/python3/airlatex/buffers/controllers/range.py:128-140 | the deletion span goes through `_remove`, then the insertion span through `_insert` |
| Tracker.EditedKeepsProper | rplugin/python3/airlatex/buffers/controllers/range.py:128-140 | an op's edits keep a tree of non-empty intervals free of empty intervals |
| Tracker.ChangeInsertOvershoots | rplugin/python3/airlatex/buffers/controllers/range.py:206-210 | as written, `Changes.applyOp` moves `[6, 8)` by 7 for an insertion of two characters at 5, where `Threads.applyOp` moves it by 2 |
| Tracker.InsertedSpanShiftsByLength | rplugin/python3/airlatex/buffers/controllers/range.py:137-140 | with the span `p .. p + len(i)`, every interval after `p` moves forward by exactly the insertion's length, and one holding `p` grows by it |
| Tracker.InsertExactShifts | rplugin/python3/airlatex/buffers/controllers/range.py:82-95 | where `_insert(start, end)` puts each interval after or around the insertion point |
| Tracker.Undo | rplugin/python3/airlatex/buffers/controllers/range.py:216-221 | the undo as evidently intended: a tracked change leaves both the tree and `lookup`, and nothing else changes; an untracked id changes nothing |
| Tracker.UndoAsWrittenKeepsChange | rplugin/python3/airlatex/buffers/controllers/range.py:217-221 | as written, undoing a tracked change that is still in the tree raises, because `interval` is unbound, and leaves the change in place, where the intended undo drops it |
| Tracker.ChangeMark | rplugin/python3/airlatex/buffers/controllers/range.py:196-223 | the interval recorded under `tc` is `[p, p + len(i))` flagged as an insertion, or `[p, p + 1)` for a deletion |
| Tracker.RecordChange | rplugin/python3/airlatex/buffers/controllers/range.py:212-224 | without a tracked id nothing changes; an undo op drops the recorded change; otherwise `lookup[tc]` becomes the op's mark and the mark joins the tree, raising `ValueError` when it is empty; other ids keep their entries |
| RangeController.Threads.constructor | rplugin/python3/airlatex/buffers/controllers/range.py:100-104 | an empty tree, no threads, no selection, active |
| RangeController.Threads.Clear | rplugin/python3/airlatex/buffers/controllers/range.py:18-19 | `clear()` empties the tree and touches nothing else |
| RangeController.Threads.Get | rplugin/python3/airlatex/buffers/controllers/range.py:21-24 | `get` returns one payload per interval of the tree overlapping the span between the two positions, and a payload is returned exactly when such an interval carries it; a reversed or empty span gives nothing |
| RangeController.Threads.Doubled | rplugin/python3/airlatex/buffers/controllers/range.py:46-58 | the overlaps of the thread anchors, as `DoubledMeaning` characterises them |
| RangeController.Threads.Create | rplugin/python3/airlatex/buffers/controllers/range.py:106-126 | a thread is anchored exactly when its comments exist and are not resolved; the anchor is `Anchor`'s span labelled with the thread id, and nothing else changes |
| RangeController.Threads.ApplyOp | rplugin/python3/airlatex/buffers/controllers/range.py:128-145 | the deletion and insertion spans edit the tree; a comment op records the thread under `t`, raising `KeyError` without `t` or without the packet's `meta` |
| RangeController.Threads.Activate | rplugin/python3/airlatex/buffers/controllers/range.py:148-152 | the threads under the cursor's offset, with `active` true exactly when there are any |
| RangeController.Threads.Select | rplugin/python3/airlatex/buffers/controllers/range.py:155-160 | the selection becomes the single span between the two positions; an empty or reversed span raises `ValueError` after the old selection is dropped |
| RangeController.Changes.constructor | rplugin/python3/airlatex/buffers/controllers/range.py:164-169 | an empty tree, no lookup, no data, no selection, active |
| RangeController.Changes.Clear | rplugin/python3/airlatex/buffers/controllers/range.py:18-19 | `clear()` empties the tree and touches nothing else |
| RangeController.Changes.Get | rplugin/python3/airlatex/buffers/controllers/range.py:21-24 | `get` returns one payload per interval of the tree overlapping the span between the two positions, and a payload is returned exactly when such an interval carries it; a reversed or empty span gives nothing |
| RangeController.Changes.Doubled | rplugin/python3/airlatex/buffers/controllers/range.py:46-58 | the overlaps of the change marks |
| RangeController.Changes.Create | rplugin/python3/airlatex/buffers/controllers/range.py:171-192 | a change is recorded in the tree and in `lookup` under its id, with the flag true exactly when the op inserts nothing |
| RangeController.Changes.ApplyOp | rplugin/python3/airlatex/buffers/controllers/range.py:194-224 | the deletion and insertion spans edit the tree, then `RecordChange` updates the tree and `lookup`; the insertion span and the undo are the corrected ones |
| ThreadController.Threads.constructor | rplugin/python3/airlatex/buffers/controllers/thread.py:88-92 | an empty tree, no threads, no selection, active |
| ThreadController.Threads.Clear | rplugin/python3/airlatex/buffers/controllers/thread.py:16-17 | `clear()` empties the tree and touches nothing else |
| ThreadController.Threads.Get | rplugin/python3/airlatex/buffers/controllers/thread.py:19-22 | `get` returns one payload per interval of the tree overlapping the span between the two positions, and a payload is returned exactly when such an interval carries it; a reversed or empty span gives nothing |
| ThreadController.Threads.Doubled | rplugin/python3/airlatex/buffers/controllers/thread.py:150-162 | the overlaps of the thread anchors |
| ThreadController.Threads.Create | rplugin/python3/airlatex/buffers/controllers/thread.py:94-114 | a thread is anchored exactly when its comments exist and are not resolved, at `Anchor`'s span |
| ThreadController.Threads.ApplyOp | rplugin/python3/airlatex/buffers/controllers/thread.py:116-133 | the deletion and insertion spans edit the tree; a comment op records the thread, raising `KeyError` without `t` or `meta` |
| ThreadController.Threads.Activate | rplugin/python3/airlatex/buffers/controllers/thread.py:136-140 | the threads under the cursor, with `active` true exactly when there are any |
| ThreadController.Threads.Select | rplugin/python3/airlatex/buffers/controllers/thread.py:143-148 | the selection becomes the single span between the two positions, or raises `ValueError` for an empty or reversed span |
| ThreadController.Changes.constructor | rplugin/python3/airlatex/buffers/controllers/thread.py:166-171 | an empty tree, no lookup, no data, no selection, active |
| ThreadController.Changes.Clear | rplugin/python3/airlatex/buffers/controllers/thread.py:16-17 | `clear()` empties the tree |
| ThreadController.Changes.Get | rplugin/python3/airlatex/buffers/controllers/thread.py:19-22 | `get` returns one payload per interval of the tree overlapping the span between the two positions, and a payload is returned exactly when such an interval carries it; a reversed or empty span gives nothing |
| ThreadController.Changes.Create | rplugin/python3/airlatex/buffers/controllers/thread.py:173-194 | a change is recorded in the tree and in `lookup`, with the flag true exactly when the op inserts nothing |
| ThreadController.Changes.ApplyOp | rplugin/python3/airlatex/buffers/controllers/thread.py:196-226 | the spans edit the tree, then `RecordChange` updates the tree and `lookup`; the insertion span and the undo are the corrected ones (see Findings) |
| Edits.ApplyOpsConcat | rplugin/python3/airlatex/documentbuffer.py:113-118 | applying two batches one after the other is applying their concatenation |
| Edits.CutAt | rplugin/python3/airlatex/documentbuffer.py:106-107 | a `{"p", "d"}` op whose string is in the text at its offset fits the text and cuts exactly that string |
| Edits.PutAt | rplugin/python3/airlatex/documentbuffer.py:103-104 | a `{"p", "i"}` op at an offset inside the text fits it and puts exactly its string there |
| Edits.LastChunk | rplugin/python3/airlatex/documentbuffer.py:95-107 | the ops of the last opcode chunk, reversed, replace that chunk's part of the old text by its part of the new text |
| Edits.EmitRoundTrip | rplugin/python3/airlatex/documentbuffer.py:90-114 | "last op should be applied first": for any opcode list that matches the two texts, the emitted ops, reversed, turn the old text into the new text, with any fixed text before and after, and each op fits the text it meets: every deletion names exactly the text it cuts, so a server that checks deletions accepts the batch |
| Edits.EmitNothing | rplugin/python3/airlatex/documentbuffer.py:95-111 | no ops are emitted only when the two texts are equal |
| DocumentBuffer.RunOpSynced | rplugin/python3/airlatex/documentbuffer.py:137-151 | when the buffer and the saved lines agree, one fitting op edits both alike, and each as the op edits the joined text |
| DocumentBuffer.RunOpsSynced | rplugin/python3/airlatex/documentbuffer.py:134-153 | a remote batch that fits the text keeps the buffer and the saved lines equal, and turns their text into the text the ops produce |
| DocumentBuffer.SavedInsertDiverges | rplugin/python3/airlatex/documentbuffer.py:147-179 | as written, inserting `"X"` at 1 into `["ab"]` on both lists gives `["aXb"]` on screen but `["aXXb"]` saved, because the saved-line insert takes the line from the already edited buffer |
| DocumentBuffer.DocumentBuffer.constructor | rplugin/python3/airlatex/documentbuffer.py:10-18 | a new buffer holds one empty line and nothing saved |
| DocumentBuffer.DocumentBuffer.Write | rplugin/python3/airlatex/documentbuffer.py:53-58 | the first line replaces line 0, the others are appended, and the result is saved; empty `lines` raise `IndexError` before anything changes |
| DocumentBuffer.DocumentBuffer.ApplyUpdate | rplugin/python3/airlatex/documentbuffer.py:120-154 | a newer version is taken over as is; without ops nothing else changes; otherwise the ops edit both lists as `RunOps` says, with the corrected saved-line insertion (see Findings) |
| DocumentBuffer.DocumentBuffer.ApplyBatch | rplugin/python3/airlatex/documentbuffer.py:134-153 | the ops in list order until one raises, using the corrected saved-line insertion (see Findings) |
| DocumentBuffer.DocumentBuffer.ApplyOne | rplugin/python3/airlatex/documentbuffer.py:139-151 | one op: the deletion on both lists, then the insertion on both lists, stopping at the first failure; the saved-line insertion is the corrected one (see Findings) |
| DocumentBuffer.DocumentBuffer.RemoveOne | rplugin/python3/airlatex/documentbuffer.py:140-144 | the deletion half of one op |
| DocumentBuffer.DocumentBuffer.WriteBuffer | rplugin/python3/airlatex/documentbuffer.py:69-118 | nothing is sent before the first `write`, when the lists are equal line by line, or when no op arises, and then the texts are equal; otherwise the ops sent fit the saved text, each deletion naming the text it cuts, and turn it into the buffer text, and the buffer becomes the saved state |
| DocumentBuffer.DiffOpsMeaning | rplugin/python3/airlatex/documentbuffer.py:90-114 | the ops of a diff fit the old text and turn it into the new one, and there are none only when the texts are equal |
| DocumentBuffer.SameLines | rplugin/python3/airlatex/documentbuffer.py:81-88 | the early exit compares lists of equal length line by line, and skips exactly when they are equal |
| DocumentBuffer.CollectOps | rplugin/python3/airlatex/documentbuffer.py:95-107 | the loop gathers the ops of every chunk in order |
| Rows.LineLengths | rplugin/python3/airlatex/buffers/document.py:398-414 | `write` gives the accumulator one entry per line |
| Rows.LengthsPrefix | rplugin/python3/airlatex/buffers/document.py:403-414 | the entries before line `i` add up to the offset where line `i` starts |
| Rows.LengthsTotal | rplugin/python3/airlatex/buffers/document.py:403-414 | all the entries add up to the length of the text |
| Rows.PositionOfLine | rplugin/python3/airlatex/buffers/document.py:447 | an accumulator that describes the saved lines gives, as `pos[i]`, the offset where line `i` starts |
| Rows.PositionFromEnd | rplugin/python3/airlatex/buffers/document.py:487 | the same offset read from the end, as `pos[-(k) - 1]` |
| Rows.PositionOfEnd | rplugin/python3/airlatex/buffers/document.py:470 | `pos[-1]` is the length of the text |
| Rows.EqualStep | rplugin/python3/airlatex/buffers/document.py:454-455 | an `equal` chunk emits nothing and its rows are the same on both sides |
| Rows.InsertAtEnd | rplugin/python3/airlatex/buffers/document.py:469-471 | a row insert at the end of the text, as corrected: the new rows go after the last old row, each behind a newline |
| Rows.InsertInside | rplugin/python3/airlatex/buffers/document.py:472-475 | a row insert before an old row puts the new rows at the start of that row, each followed by a newline |
| Rows.DeleteAtEnd | rplugin/python3/airlatex/buffers/document.py:486-488 | a row delete that reaches the last old row takes the newline before the deleted rows with it |
| Rows.DeleteInside | rplugin/python3/airlatex/buffers/document.py:489-492 | a row delete before the last old row takes the newline after the deleted rows with it |
| Rows.ReplaceStep | rplugin/python3/airlatex/buffers/document.py:495-525 | a `replace` chunk edits the text of its rows in place through the character ops of its inner opcodes |
| Rows.ChunkStep | rplugin/python3/airlatex/buffers/document.py:453-525 | the ops of one chunk, applied to the text whose later rows are already new, make that chunk's rows new as well |
| Rows.RowsFrom | rplugin/python3/airlatex/buffers/document.py:450-525 | the chunks before row `k`, reversed, turn the text whose first `k` rows are old into the new text |
| Rows.RowRoundTrip | rplugin/python3/airlatex/buffers/document.py:447-534 | while the accumulator describes the saved lines, the row ops reversed ("last op should be applied first") turn the saved text into the buffer's text, and each op fits the text it meets, so a server that checks deletions accepts them |
| Rows.EndInsertMisplaced | rplugin/python3/airlatex/buffers/document.py:469-471 | as written, appending the row `"c"` to `["ab"]` sends `"\nc"` at `pos[-1] - 1`, one character early, and the text becomes `"a\ncb"`; the corrected op at `pos[-1]` gives `"ab\nc"` |
| Rows.DeleteEndMisjudged | rplugin/python3/airlatex/buffers/document.py:486-488 | as written, dropping the first and third of `["D", "a", "Q", "b"]` takes the second delete, which starts at the new row count, for a delete at the end: `"\nQ"` is sent for offset 5, where the text holds `"\nb"`, so the batch does not fit and a server that checks deletions rejects it; counting characters only, it would leave `"a\nQ"` instead of `"a\nb"` |
| Rows.DropTwoApplied | rplugin/python3/airlatex/buffers/document.py:486-488 | the deletion applied first does not fit, since the text holds `"\nb"` where it names `"\nQ"`; counting characters only, the two deletions leave `"a\nQ"` |
| Rows.InsertRowsAsWritten | rplugin/python3/airlatex/buffers/document.py:462-468 | the accumulator loop of an `insert` chunk adds one entry per inserted row |
| Rows.AccumulatorDrifts | rplugin/python3/airlatex/buffers/document.py:462-468 | as written, appending `"b"` to `["a"]` turns the entries `[1, 0]` into `[1, 1, 0]`, which do not describe `["a", "b"]`; the entries that do are `[2, 1, 0]` |
| Rows.DeleteRowsAsWritten | rplugin/python3/airlatex/buffers/document.py:480-485 | the accumulator loop of a `delete` chunk removes one entry per deleted row, and raises `IndexError` exactly when the rows to remove run past the entries |
| Rows.DeleteAccumulatorDrifts | rplugin/python3/airlatex/buffers/document.py:480-485 | as written, dropping the last row of `["a", "b"]` turns the entries `[2, 1, 0]` into `[-1, 0]`, which do not describe `["a"]`; the entries that do are `[1, 0]` |
| Rows.ReplaceRowsAsWritten | rplugin/python3/airlatex/buffers/document.py:499-504 | the accumulator loop of a `replace` chunk keeps the last index when the new rows fit and otherwise only appends |
| Rows.ReplaceAccumulatorDrifts | rplugin/python3/airlatex/buffers/document.py:499-504 | as written, replacing `["a"]` by `["bc", "d"]` turns the entries `[1, 0]` into `[3, 1]`, which do not describe the new lines; the entries that do are `[3, 1, 0]` |
| Document.RemoveBoth | rplugin/python3/airlatex/buffers/document.py:567-571 | the deletion half of an op keeps the threads and never empties either list |
| Document.InsertBoth | rplugin/python3/airlatex/buffers/document.py:574-578 | the insertion half of an op keeps the threads and never empties either list |
| Document.RunDocOp | rplugin/python3/airlatex/buffers/document.py:566-584 | one op never empties either list and records at most its own thread |
| Document.RunDocOps | rplugin/python3/airlatex/buffers/document.py:563-588 | the loop never empties either list |
| Document.RunDocOpSynced | rplugin/python3/airlatex/buffers/document.py:566-584 | when the buffer and the saved lines agree, one fitting op edits both alike, as the op edits the text, and records its thread exactly when it is a comment |
| Document.RunDocOpsSynced | rplugin/python3/airlatex/buffers/document.py:561-588 | a remote batch that fits the text keeps the buffer and the saved lines equal, turns their text into the text the ops produce, and records exactly the batch's comment threads |
| Document.RunDocOpsTail | rplugin/python3/airlatex/buffers/document.py:563-584 | after its first op, a fitting batch goes on from an agreeing state with the rest of the ops |
| Document.StaleAfterUpdate | rplugin/python3/airlatex/buffers/document.py:561-588 | as written, `applyOps` never touches `cumulative_lines`, so after a batch that changes the length of the text the entries no longer describe the lines |
| Document.StaleOffsetMisplaces | rplugin/python3/airlatex/buffers/document.py:561-588 | as written, after a remote `"X\n"` at 0 into `["a"]`, the stale entries `[1, 0]` send the row `"b"` inserted before `a` as `"b\n"` at offset 1; the op fits, and the server text becomes `"Xb\n\na"` instead of `"X\nb\na"` |
| Document.FirstPast | rplugin/python3/airlatex/buffers/document.py:386-393 | the first line from `i` on that passes `x`: none before it passes, and it does unless it is the end |
| Document.LineInfoLocates | rplugin/python3/airlatex/buffers/document.py:383-396 | for a span inside the text, `getLineInfo` locates both ends: start line plus column make `start` with the column inside the line, end line plus column make `end` with the column at most one past the line, and `char_count` is where the end line begins |
| Document.EndAtLineStart | rplugin/python3/airlatex/buffers/document.py:389-391 | an `end` exactly at the start of line `k + 1` is reported on line `k`, one column past its last character |
| Document.Document.constructor | rplugin/python3/airlatex/buffers/document.py:25-51 | a new document takes its name and file type from the path, holds one empty line, nothing saved, no threads and an empty accumulator |
| Document.Document.Write | rplugin/python3/airlatex/buffers/document.py:398-416 | the buffer is refilled with the lines, the accumulator gets each line's length (plus its newline but for the last line), and the lines are saved; empty lines raise `IndexError` once the buffer holds one empty line |
| Document.Document.GetLineInfo | rplugin/python3/airlatex/buffers/document.py:383-396 | the single scan returns `LineInfoOf`, which `LineInfoLocates` characterises |
| Document.Document.ContentHashInput | rplugin/python3/airlatex/buffers/document.py:143-161 | the hash preimage is `"blob " + str(n) + "\x00"` and the saved text, with `n` the length of that text; before the first `write` the copy raises `TypeError` |
| Document.Document.MarkComment | rplugin/python3/airlatex/buffers/document.py:195-205 | with no pending selection the span between the two positions becomes the selection, an empty or reversed one raising `ValueError`; a pending selection is kept |
| Document.Document.GetCommentPosition | rplugin/python3/airlatex/buffers/document.py:207-240 | both flags or neither give `((-1, -1), 0)`; otherwise the next or previous thread start found from the cursor, as a 1-based row and a column, with its place in the count |
| Document.Document.StartOf | rplugin/python3/airlatex/buffers/document.py:239-240 | the 1-based row and the column of the thread start found, from `getLineInfo` |
| Document.Document.ApplyUpdate | rplugin/python3/airlatex/buffers/document.py:545-588 | a packet version at or past the document's moves the document to the next one; ops run on the buffer and the saved lines until one raises; the accumulator, as corrected, again describes the saved lines |
| Document.Document.RunOps | rplugin/python3/airlatex/buffers/document.py:563-588 | the op loop of `applyOps` leaves the state `RunDocOps` describes |
| Document.Document.WriteBuffer | rplugin/python3/airlatex/buffers/document.py:418-543 | nothing is sent before the first `write` or when nothing changed; otherwise the corrected row ops, reversed, are sent with the new saved lines' hash preimage, fit the saved text (each deletion naming the text it cuts) and turn it into the buffer text, and the buffer becomes the saved state; the accumulator is rebuilt from the new saved lines, which corrects the insert, delete and replace drifts (see Findings) |
| Document.CollectOps | rplugin/python3/airlatex/buffers/document.py:453-525 | the chunk loop gathers the ops of every row chunk in chunk order |
| Document.SameRows | rplugin/python3/airlatex/buffers/document.py:436-444 | the early exit skips exactly when the buffer rows equal the saved rows |
| Document.RowChunkOps | rplugin/python3/airlatex/buffers/document.py:454-525 | one pass of the chunk loop, as corrected |
| Document.ReplaceOps | rplugin/python3/airlatex/buffers/document.py:510-525 | for each inner chunk, at the row start plus its offset in the old text, an insertion of the new characters, a deletion of the old ones, or both, insertion first |
| Frames.DigitRun | rplugin/python3/airlatex/project.py:24 | `\d+` takes the whole run of ASCII digits a string starts with, and stops at the first non-digit |
| Frames.Line | rplugin/python3/airlatex/project.py:24 | `.*` takes everything up to the first newline |
| Frames.IdMarkSpells | rplugin/python3/airlatex/project.py:24 | the group `(?:(\d+)(\+?))?` yields an id exactly when it yields a mark, the id is digits and the mark is empty or `+`, and together with the rest they spell the input |
| Frames.AnswerSpells | rplugin/python3/airlatex/project.py:24 | the optional answer part yields an id only with a mark and a payload, a payload has no newline, and what it reads is a prefix of its input ending at a newline or at the end |
| Frames.ParseSpells | rplugin/python3/airlatex/project.py:24 | whatever `codere` matches is a well-formed frame whose groups spell the start of the message, and a payload stops only at a newline or at the end |
| Frames.KeepAliveParses | rplugin/python3/airlatex/project.py:126-128 | the heartbeat frame `"2::"` parses to code 2 and nothing else |
| Frames.UpdateParses | rplugin/python3/airlatex/project.py:134-136 | an update frame parses back to code 5 and its JSON text |
| Frames.CmdParses | rplugin/python3/airlatex/project.py:137-142 | a command frame parses back to code 5, its command id with the `+` that asks for an answer, and its JSON text, and the id reads back as the number it was written from |
| Frames.AckParses | rplugin/python3/airlatex/project.py:376-377 | the answer frame for command `id` puts the id and its mark in groups 4 and 5 and the JSON in group 6, whatever the JSON starts with |
| Frames.DigitJsonMisread | rplugin/python3/airlatex/project.py:24 | JSON text that starts with a digit loses it to the answer-id group: `"5:::7]"` parses with answer id `"7"` and payload `"]"` |
| Protocol.WaitForRule | rplugin/python3/airlatex/project.py:86 | `wait_for` keeps an integer exactly when it is not negative and a string only when it is all ASCII digits, never `None`, and keeps the value unchanged |
| Protocol.NextKeyFresh | rplugin/python3/airlatex/project.py:104-141 | the key of the next command id is not yet in `requests` |
| Protocol.KeysDistinct | rplugin/python3/airlatex/project.py:138-141 | distinct command ids are stored under distinct keys |
| Protocol.AnswerFindsRequest | rplugin/python3/airlatex/project.py:376-377 | the server's answer to a command parses to the key the command was stored under, with its JSON as the payload |
| Protocol.Shown | rplugin/python3/airlatex/project.py:321-332 | the sidebar message after `disconnect(msg)`: any other message as is; an intended disconnect reads `Connected` exactly when buffers are open, else `Online` |
| Protocol.ClosedDataMeaning | rplugin/python3/airlatex/project.py:303-312 | a disconnected project is closed, not connected and not waiting, shows the message, and keeps every other entry |
| Protocol.PlanMeaning | rplugin/python3/airlatex/project.py:246-281 | a flush round sends one batch per document that has an entry, each document once, with all its ops in arrival order and its last hash and track flag, in the order of the documents' first entries |
| Protocol.GatheredPlan | rplugin/python3/airlatex/project.py:248-281 | the `all_ops` and `payloads` dictionaries, read in insertion order, give exactly the planned batches |
| Protocol.AckCommentsMeaning | rplugin/python3/airlatex/project.py:520-527 | the acknowledgement succeeds exactly when every comment op names its thread; it then clears those threads from the pending comments, records each in the document with the last op of a thread winning, and keeps every other pending comment and thread |
| Protocol.ApplyAllMeaning | rplugin/python3/airlatex/project.py:436-440 | a completed walk over `otUpdateApplied` hands each served document exactly the packets that name it, in order, and changes nothing else |
| Protocol.ApplyAllStep | rplugin/python3/airlatex/project.py:439-440 | handing over the first packet and then the rest hands each document the packets that name it |
| Protocol.PacketsHead | rplugin/python3/airlatex/project.py:439-440 | the packets for a document are the first one, when it names the document, followed by those of the rest |
| Protocol.MarkedMeaning | rplugin/python3/airlatex/project.py:466-470 | a thread event changes only the resolved flag of the named thread, and only in documents that hold it |
| Flush.CloseIndex | rplugin/python3/airlatex/project.py:249-252 | the first close sentinel of a round, before which every entry is a real one |
| Flush.ArrivalsDistinct | rplugin/python3/airlatex/project.py:254-259 | every document with an entry is listed once in `all_ops`, and exactly those documents have a payload |
| Flush.ArrivalsInOrder | rplugin/python3/airlatex/project.py:254-278 | `all_ops` lists documents in the order of their first entries |
| Flush.OpsOfConcat | rplugin/python3/airlatex/project.py:254-257 | a document's ops over two runs of entries are those of the first run followed by those of the second |
| Flush.LastPayloadWins | rplugin/python3/airlatex/project.py:258-259 | the hash and track flag of a document are those of its last entry, whatever other documents queue after it |
| Flush.OpsMapMeaning | rplugin/python3/airlatex/project.py:254-257 | `all_ops` holds, for every document with an entry, its ops concatenated in arrival order |
| Flush.PayloadMapMeaning | rplugin/python3/airlatex/project.py:258-259 | `payloads` holds, for every document with an entry, the hash and track flag of its last entry |
| Flush.Gather | rplugin/python3/airlatex/project.py:265-275 | one round of `dequeue` calls stops at a close sentinel, reporting how many entries it took; otherwise it takes all the entries queued and returns, per document in first-arrival order, the concatenated ops and the last payload |
| Cursors.MergeKeepsKeys | rplugin/python3/airlatex/project.py:422-425 | `clientUpdated` never adds a cursor: only known ids are merged |
| Cursors.MergeUntouched | rplugin/python3/airlatex/project.py:422-425 | a cursor that no argument names is left as it was |
| Cursors.UpdateOneMerges | rplugin/python3/airlatex/project.py:424-425 | merging an object into a known cursor gives each of its fields the new value and keeps the cursor's other fields |
| Cursors.DropAllForgets | rplugin/python3/airlatex/project.py:429-432 | `clientDisconnected` forgets exactly the listed ids and keeps every other cursor as it was |
| Cursors.FlattenedMerges | rplugin/python3/airlatex/project.py:535-538 | flattening keeps the user's own fields, lets `cursorData`'s fields win, and drops the `cursorData` entry unless it names itself |
| Cursors.FlattenedPairs | rplugin/python3/airlatex/project.py:535-538 | a `cursorData` that is a list of string-keyed pairs, the empty list among them, stores each pair over the user's other fields, as `dict.update` does |
| Cursors.FlattenedRejects | rplugin/python3/airlatex/project.py:535-538 | a `cursorData` that is not iterable raises `TypeError`; a string raises `ValueError` unless it is empty, when the user keeps only its other fields |
| Cursors.EmptyCursorDataStored | rplugin/python3/airlatex/project.py:533-539 | the answer `[null, [{"client_id": "u", "cursorData": []}]]` completes and stores `u` with only its `client_id` |
| Cursors.AddUsersStores | rplugin/python3/airlatex/project.py:533-539 | a completed `getConnectedUsers` answer keeps every known cursor, stores every user under its client id, and stores the last user's flattened fields |
| JsonValues.Get | rplugin/python3/airlatex/project.py:402 | `j[key]` succeeds exactly on a dictionary that holds the key; otherwise `KeyError` on a dictionary and `TypeError` elsewhere |
| JsonValues.GetOr | rplugin/python3/airlatex/project.py:439 | `j.get(key, default)` exists only on a dictionary, and gives the value or the default |
| JsonValues.At | rplugin/python3/airlatex/project.py:403 | `j[i]` on a list gives an item, `items[i]` in range and `IndexError` out of range |
| JsonValues.Elements | rplugin/python3/airlatex/project.py:423-439 | iterating a list visits its items, a string its characters, and a dictionary its keys once each, in first-insertion order; anything else raises `TypeError` |
| JsonValues.Contains | rplugin/python3/airlatex/project.py:424-431 | `x in container`: key membership for a dictionary, item membership for a list, substring for a string, an error for the rest |
| JsonValues.KeyOrder | rplugin/python3/airlatex/project.py:430 | a dictionary's keys in first-insertion order, each once, exactly the keys of its entries |
| JsonValues.WithoutFields | rplugin/python3/airlatex/project.py:535-538 | removing a key's entries leaves the dictionary without that key and with every other entry |
| JsonValues.FieldsOfConcat | rplugin/python3/airlatex/project.py:535-538 | the dictionary of two runs of entries is the first's updated by the second's |
| JsonValues.PairOf | rplugin/python3/airlatex/project.py:175 | an item `dict.update` reads as a pair must have exactly two elements (`ValueError` otherwise) and a hashable first one (`TypeError` otherwise); a non-iterable item raises `TypeError` |
| JsonValues.UpdateFromPairs | rplugin/python3/airlatex/project.py:175 | `d.update(pairs)` on a list of pairs gives the same result as updating with the dictionary those pairs build, later pairs winning |
| JsonValues.UpdateFromString | rplugin/python3/airlatex/project.py:175 | `d.update(s)` on a string changes nothing when it is empty and otherwise raises `ValueError`, since a character is not a pair, with `d` unchanged |
| Project.AirLatexProject.constructor | rplugin/python3/airlatex/project.py:68-94 | a new session holds the project record and its name, starts with counter 1 and empty request, cursor, document, pending-comment and queue tables, keeps a numeric `wait_for` only, and has no change pending |
| Project.AirLatexProject.Refresh | rplugin/python3/airlatex/project.py:96-118 | a new project record and name, and the session state reset as in `Reset` |
| Project.AirLatexProject.Reset | rplugin/python3/airlatex/project.py:103-118 | the counter restarts at 1; session id, requests, cursors, documents, pending comments and queue are dropped and the join event is unset |
| Project.AirLatexProject.ClearRequests | rplugin/python3/airlatex/project.py:104-107 | counter 1 and no stored requests, which keeps every stored id below the counter |
| Project.AirLatexProject.ClearTables | rplugin/python3/airlatex/project.py:108-110 | no cursors, documents or pending comments |
| Project.AirLatexProject.ClearSession | rplugin/python3/airlatex/project.py:105-114 | no session id, an empty queue and an unset join event |
| Project.AirLatexProject.SendKeepAlive | rplugin/python3/airlatex/project.py:124-129 | the heartbeat writes exactly one `2::` frame and stores no request |
| Project.AirLatexProject.SendCmd | rplugin/python3/airlatex/project.py:137-142 | a command takes the counter's next id, never overwrites a stored request, is stored under the id's decimal text with its event, and is written as one frame with that id |
| Project.AirLatexProject.UpdateCursor | rplugin/python3/airlatex/project.py:850-863 | a cursor update sends the document's `_id` with the zero-based row and is not stored; a document without `_id` raises before anything is sent |
| Project.AirLatexProject.SendOps | rplugin/python3/airlatex/project.py:182-184 | queuing ops marks the project changed and appends exactly one entry to the queue |
| Project.AirLatexProject.Compile | rplugin/python3/airlatex/project.py:619-620 | compiling marks the project changed |
| Project.AirLatexProject.SyncPDF | rplugin/python3/airlatex/project.py:696-699 | the scroll string carries the id, the changed flag as 0/1, the file, the zero-based line and the column, and reading it clears the flag; without an id it raises `KeyError` and keeps the flag |
| Project.AirLatexProject.Disconnect | rplugin/python3/airlatex/project.py:303-332 | a disconnect closes the project (msg, open, connected, no waiting flag), queues the close sentinel, and leaves it disconnected |
| Project.AirLatexProject.Connect | rplugin/python3/airlatex/project.py:334-357 | the project stays connected exactly when the websocket opens; a failure disconnects with its text and queues the close sentinel |
| Project.AirLatexProject.BeginRun | rplugin/python3/airlatex/project.py:359-363 | the session holds the fetched comments, and the Dropbox folder name replaces the name when the setting asks for it |
| Project.AirLatexProject.JoinDocument | rplugin/python3/airlatex/project.py:289-301 | the document is registered under its id, then one `joinDoc` command is stored and sent under a fresh id |
| Project.AirLatexProject.SendOpsNow | rplugin/python3/airlatex/project.py:187-228 | a batch is sent exactly when the document's buffered ops plus the new ones are non-empty; then the whole buffer goes in one `applyOtUpdate` at the document's version, the buffer is emptied and the request waits on a new event; otherwise nothing changes |
| Project.AirLatexProject.AwaitEnded | rplugin/python3/airlatex/project.py:230-239 | an answered batch only clears the waiting flag; a timeout disconnects with the `wait_for` message and queues the close sentinel; a kept string `wait_for` makes `asyncio.wait_for` raise `TypeError`, so the flush loop disconnects with `Op Failed: ...` and stops |
| Project.AirLatexProject.FlushRound | rplugin/python3/airlatex/project.py:263-275 | a disconnected project stops the flush loop untouched; a close sentinel stops it and drops everything up to it; otherwise the whole queue is taken and coalesced per document in arrival order |
| Project.AirLatexProject.NextBatch | rplugin/python3/airlatex/project.py:277-286 | each document's batch is taken once, in order; a document the session does not serve ends the loop with an `Op Failed` disconnect |
| Project.AirLatexProject.Receive | rplugin/python3/airlatex/project.py:359-367 | one turn of the read loop is `ReceiveStep`: a disconnected project reads nothing and stops; otherwise the frame is dispatched by `FrameStep`, an exception from it disconnects with `WS loop Failed` and the exception's name, and the loop goes on exactly while the project is still connected |
| Project.AirLatexProject.OnFrame | rplugin/python3/airlatex/project.py:375-397 | a frame is routed by `FrameStep`: one the pattern rejects raises `AttributeError` and changes nothing; code 5 goes to `ServerMessageStep` with the decoded payload, code 6 to `AnswerStep` with the answer id, and any other code only updates the sidebar record and the queue as `StatusFrameStep` says |
| Project.AirLatexProject.OnStatusFrame | rplugin/python3/airlatex/project.py:384-394 | code 0 disconnects, 1 clears the waiting flag, 2 changes nothing, 7 shows the unauthorized message with the settings URL, any other code is shown; only code 0 queues |
| Project.AirLatexProject.OnServerMessage | rplugin/python3/airlatex/project.py:396-402 | a code 5 message is routed by `ServerMessageStep`: without a string `"name"` it raises and changes nothing; otherwise the name's branch (`Classify`) runs as `NamedStep` says |
| Project.AirLatexProject.OnNamedMessage | rplugin/python3/airlatex/project.py:402-480 | each branch of `run` for a named message, as `NamedStep` routes it: `joinProjectResponse` to `JoinProjectStep`, `connectionAccepted`, `clientUpdated` and `clientDisconnected` to their steps on `args`, `otUpdateApplied`/`otUpdateError` and the thread events to theirs; `broadcastDocMeta` changes nothing, `accept-changes` only looks up the document, and an unknown name is shown and changes nothing else |
| Project.AirLatexProject.OtUpdateError | rplugin/python3/airlatex/project.py:442-445 | `otUpdateError` disconnects showing its first argument and queues the close sentinel; malformed arguments raise and change nothing |
| Project.AirLatexProject.JoinProject | rplugin/python3/airlatex/project.py:171-179 | `self.data.update(info)` as `DictUpdate` gives it: a dictionary's entries are merged in; a list or string is read as key/value pairs, so an empty one adds nothing and a malformed pair raises with the pairs before it kept; after a successful update the record is marked open, one `getConnectedUsers` command is sent and the join event is set; a raise changes nothing else |
| Project.AirLatexProject.ConnectionAccepted | rplugin/python3/airlatex/project.py:406-415 | arguments that do not unpack into two raise and change nothing (a dictionary unpacks its keys); otherwise the second is the session id, `Connection Active.` is shown and, when the project has an id, one `joinProject` command is sent, else `KeyError` |
| Project.AirLatexProject.ClientUpdated | rplugin/python3/airlatex/project.py:422-426 | the cursor table after `clientUpdated` is the merge of its arguments in order (a dictionary's keys when `args` is one), up to the first that raises; nothing else changes |
| Project.AirLatexProject.ClientDisconnected | rplugin/python3/airlatex/project.py:429-433 | the listed ids (a dictionary's keys when `args` is one) are forgotten in order; the call `clearRemoteCursor(*args)` raises `TypeError` unless exactly one id was listed; nothing else changes |
| Project.AirLatexProject.OtUpdateApplied | rplugin/python3/airlatex/project.py:436-440 | every packet of `args` (none when missing) is applied to the document it names, in order, up to the first that raises; a missing document skips its packet |
| Project.AirLatexProject.ThreadEvent | rplugin/python3/airlatex/project.py:449-472 | without fetched comments nothing changes; a `new-comment` for a pending comment is left to its document; otherwise the comments are fetched again and `resolve-thread`/`reopen-thread` set the flag in every document holding the thread |
| Project.MarkEvery | rplugin/python3/airlatex/project.py:466-470 | the loop over the documents sets the named thread's flag in every document holding it, as `MarkedAll` describes, and keeps every other document and thread |
| Project.AirLatexProject.AcceptChanges | rplugin/python3/airlatex/project.py:474-476 | `accept-changes` completes exactly when `data["args"][0]` is a string naming a document; a hashable argument naming none raises `KeyError`, an unhashable one `TypeError`, and a missing `args` or first argument raises what the lookup raises; nothing changes |
| Project.AirLatexProject.OnAnswer | rplugin/python3/airlatex/project.py:483-540 | an answer is routed by `AnswerStep` on the stored command: `joinProject` to `JoinProjectStep` with `data[1]`, `joinDoc` to `JoinDocAnswerStep`, `applyOtUpdate` to `AckUpdateStep` and `getConnectedUsers` to `ConnectedUsersStep`; an id that names no stored request raises `KeyError` and changes nothing |
| Project.AirLatexProject.JoinDocAnswer | rplugin/python3/airlatex/project.py:494-504 | the answer succeeds exactly when its lines decode, the document is known, `data[2]` is an integer and `data[4]` is an object; then the document has those lines and that version; no document is added or removed |
| Project.AirLatexProject.AckUpdate | rplugin/python3/airlatex/project.py:507-531 | an acknowledged batch bumps its document's version by one, releases the waiting event, deletes the request and records every comment op in the document's threads, dropping it from the pending comments |
| Project.AirLatexProject.RecordComments | rplugin/python3/airlatex/project.py:520-531 | the pending comments and threads after the batch are those `AckComments` gives, and the comments are fetched again exactly when a comment op was recorded |
| Project.AirLatexProject.ConnectedUsers | rplugin/python3/airlatex/project.py:533-540 | the cursor table is the one `AddUsers` gives for the users of `data[1]` (a dictionary's keys when it is one), up to the first that raises, each user's `cursorData` merged in by `dict.update`; a malformed answer raises and changes nothing |
| Project.AirLatexProject.SetResolved | rplugin/python3/airlatex/project.py:766-772 | resolving or reopening sets the flag of an existing comment entry only; no comments raises `AttributeError`, a missing thread changes nothing |
| Project.AirLatexProject.CreateComment | rplugin/python3/airlatex/project.py:785-805 | the position and highlighted text come from an interval of the document's selection; a non-empty comment on a non-empty highlight becomes a pending thread and a pending comment; an unknown document or empty selection raises `KeyError` |
| Project.Classify | rplugin/python3/airlatex/project.py:402-480 | each message name takes exactly one branch; only the five thread events reach the thread branch, and a name reaches the unknown branch only when it is neither one of them nor a substring of `accept-changes` |
| Project.AckFrameReleases | rplugin/python3/airlatex/project.py:375-397 | end to end, the frame `6:::<id>+<json>` answering a stored `applyOtUpdate` releases its waiting event, deletes the request and bumps the document's version by one, keeping its lines; it succeeds exactly when every comment op names a thread |
| Project.StrayAnswerDisconnects | rplugin/python3/airlatex/project.py:359-397 | end to end, an answer frame whose id names no stored request makes `run` disconnect with `WS loop Failed: KeyError` and stop |
| Project.CursorFrameMerges | rplugin/python3/airlatex/project.py:375-426 | end to end, a `5:::` frame carrying `clientTracking.clientUpdated` merges its arguments into the cursor table and changes nothing else |
| PluginSettings.Url | rplugin/python3/airlatex/lib/settings.py:24 | the address is the scheme (`https` exactly when HTTPS is on) followed by the domain |
| PluginSettings.UrlInjective | rplugin/python3/airlatex/lib/settings.py:24 | two settings with the same address have the same scheme flag and the same domain |
| PluginSettings.Settings.constructor | rplugin/python3/airlatex/lib/settings.py:8-11 | a new object holds the given options and the address they determine |
| PluginSettings.Settings.Initialize | rplugin/python3/airlatex/lib/settings.py:14-24 | `initialize` overwrites every option and recomputes the address from them |
| PluginSettings.SettingsClass.constructor | rplugin/python3/airlatex/lib/settings.py:6 | before any construction there is no instance |
| PluginSettings.SettingsClass.New | rplugin/python3/airlatex/lib/settings.py:8-12 | the first construction creates and initialises the single instance; every later one returns that instance unchanged, ignoring its arguments |
| PluginSettings.SettingsClass.Clear | rplugin/python3/airlatex/lib/settings.py:6 | resetting `_instance` makes the next construction start afresh |
| PluginSettings.TwoConstructions | rplugin/python3/airlatex/lib/settings.py:8-12 | two constructions in a row give the same object, holding the first call's options |
| PluginSettings.DefaultConstruction | rplugin/python3/airlatex/lib/settings.py:8-24 | the first `Settings()` without arguments stores and returns an object holding the defaults of `initialize`: `wait_for` 0, empty cookie, domain and mount root, no Dropbox mount, HTTPS, certificate checks on, and the address `https://` |
| Background.Key | firefox/add-on/background.js:8-11 | a message's id is the key of its pair; a missing id is filed under `"undefined"` |
| Background.ToInt32 | firefox/add-on/background.js:28-32 | the coercion `x OR 0` (bitwise) yields a signed 32-bit value congruent to the number modulo 2^32 |
| Background.ToInt32InRange | firefox/add-on/background.js:28-32 | a number already in the signed 32-bit range passes the coercion unchanged |
| Background.Coerce | firefox/add-on/background.js:28-32 | a field without any digit coerces to 0; an optionally signed digit string goes through the nearest double (`NumberToInt32`); every coerced number lies in the signed 32-bit range |
| Background.NumberToInt32 | firefox/add-on/background.js:28-32 | the Number a signed digit string converts to, infinity giving 0, wrapped into the signed 32-bit range |
| Background.DoubleExact | firefox/add-on/background.js:28-32 | a magnitude below 2^53 converts to a Number exactly |
| Background.DoubleNearest | firefox/add-on/background.js:28-32 | a wider magnitude that stays finite converts to a multiple of its binade's spacing at most half a spacing away, the nearest double |
| Background.DoubleOverflow | firefox/add-on/background.js:28-32 | a magnitude of 2^1024 or more converts to infinity |
| Background.CoerceRoundsFirst | firefox/add-on/background.js:28-32 | 2^53 + 1 rounds, tie to even, to the double 2^53, so `"9007199254740993"` or-ed with 0 is 0: the digits round before the 32-bit wrap |
| Background.CoerceOverflow | firefox/add-on/background.js:28-32 | digits worth 2^1024 or more coerce to 0, through infinity |
| Background.CoerceField | firefox/add-on/background.js:19-32 | a field past the end of the split is `undefined` and coerces to 0 |
| Background.UnmatchableIds | firefox/add-on/background.js:19-23 | a listener whose id is missing or holds a comma never forwards anything, since no comma field holds a comma |
| Background.NoCommaInInt | rplugin/python3/airlatex/project.py:697 | a decimal integer holds no comma, so the numbers of the scroll string stay single fields |
| Background.CoerceIntToString | firefox/add-on/background.js:31-32 | the decimal text of a 32-bit integer coerces back to that integer |
| Background.SplitScroll | rplugin/python3/airlatex/project.py:697 | splitting the scroll string at commas gives exactly its five fields when neither the id nor the file name holds a comma |
| Background.JoinScroll | rplugin/python3/airlatex/project.py:697 | the scroll string is its five fields joined by commas |
| Background.ScrollRoundTrip | rplugin/python3/airlatex/project.py:696-699 | the string `syncPDF` builds is matched by its project's listener and parses back into the changed flag, the file, `line - 1` and the column |
| Background.BackgroundPage.constructor | firefox/add-on/background.js:2 | the script starts with no pairs, no ports and nothing sent |
| Background.BackgroundPage.OnMessage | firefox/add-on/background.js:4-16 | a `pair` message records the tab under its id and role, creating the entry on first use, and opens a port exactly when the entry then has two roles; any other message changes nothing |
| Background.BackgroundPage.OnResponse | firefox/add-on/background.js:17-34 | a port's listener sends the parsed response to the pair's detacher tab exactly when the pair has two roles and the first field is the listener's id; otherwise nothing is sent |
| Background.DetachedPairingAsWritten | firefox/add-on/detached.js:25 | as the pages send it, the detached page's `pair` message has no id, so the two roles land under different keys and no port ever opens |
| Background.DetachedPairing | firefox/add-on/background.js:4-34 | with the project id on both `pair` messages one port opens, and a `syncPDF` string reaches the detacher tab as the flag, the file, `line - 1` and the column |
| BuildFs.Put | tools/airmount.py:64-68 | assigning a key gives it the value; a new key goes last in iteration order and an existing key keeps its place |
| BuildFs.PutWellFormed | tools/airmount.py:64-68 | assignment keeps the key order and the entries in step (each key once, exactly the entries' keys) |
| BuildFs.MakeStat | tools/airmount.py:21-33 | a stat carries the mode and size given, with two links for a directory and one otherwise |
| BuildFs.ModesLinks | tools/airmount.py:82-94 | the directory mode the filesystem uses has two links and the file mode one |
| BuildFs.LStripSlash | tools/airmount.py:80 | `lstrip('/')` removes exactly the leading slashes: the result is a suffix not starting with a slash, and everything removed was a slash |
| BuildFs.Located | tools/airmount.py:114-121 | a located path names a project that exists and a file that project lists |
| BuildFs.Attributes | tools/airmount.py:79-98 | `getattr` fails only with `-ENOENT` |
| BuildFs.OnePart | tools/airmount.py:80-83 | `/p` splits into one part when `p` holds no slash |
| BuildFs.TwoParts | tools/airmount.py:80-89 | `/p/f` splits into the two parts `p` and `f` |
| BuildFs.RootAttributes | tools/airmount.py:81-82 | the root is a directory |
| BuildFs.ProjectAttributes | tools/airmount.py:83-87 | a one-part path is a directory exactly when it names a project, and `-ENOENT` otherwise |
| BuildFs.FileAttributes | tools/airmount.py:88-96 | a two-part path is a read-only file exactly when its project lists it; its size is that of the cached bytes, or 1024000 before the first download |
| BuildFs.DeepPathsMissing | tools/airmount.py:97-98 | a path of three or more parts is never found |
| BuildFs.ListingAgrees | tools/airmount.py:79-111 | `readdir` lists a project at the root exactly when `getattr` finds its directory, and a file under its project exactly when `getattr` finds the file |
| BuildFs.FilesTableWellFormed | tools/airmount.py:61-67 | the table a notification builds is a well-formed dict |
| BuildFs.FilesTableKeys | tools/airmount.py:62-67 | the rebuilt table lists exactly the output paths |
| BuildFs.PathsStep | tools/airmount.py:62 | the paths of a list are those of all but its last entry, and the last entry's |
| BuildFs.FilesTableUnfetched | tools/airmount.py:63-66 | a rebuilt table caches no bytes |
| BuildFs.FilesTableUrls | tools/airmount.py:64-66 | each path gets the URL of its last entry in the list, prefixed by the base URL |
| BuildFs.CacheKeepsNames | tools/airmount.py:130 | caching a download changes no listing and no located path |
| BuildFs.CacheEffects | tools/airmount.py:92-130 | after caching, `getattr` reports the downloaded size for that file and the same attributes for every other path |
| BuildFs.BuildTable | tools/airmount.py:61-67 | the loop of `handle_notification` builds exactly the table `FilesTable` describes |
| BuildFs.NestedPut | tools/airmount.py:68 | storing a well-formed table keeps the nested dicts well formed |
| BuildFs.CacheWellFormed | tools/airmount.py:130 | caching keeps the nested dicts well formed and the project names in order |
| BuildFs.OverleafBuildFs.constructor | tools/airmount.py:38-46 | a new filesystem has no projects and no headers, and its listener loop runs |
| BuildFs.OverleafBuildFs.Read | tools/airmount.py:113-136 | `read` of an unknown path is `-ENOENT`; cached bytes are sliced without a download; an uncached file is downloaded and cached only when the request succeeds, and a failed request is `-EIO` with nothing cached |
| BuildFs.OverleafBuildFs.Rebuild | tools/airmount.py:61-69 | a compile notification replaces the project's files by a fresh table without bytes and keeps its headers for downloads |
| BuildFs.OverleafBuildFs.HandleNotification | tools/airmount.py:55-72 | `umount` stops the loop and leaves the projects alone; any other event rebuilds the project's table and asks the editor to remount, naming the mount and the project |
| BuildFs.OverleafBuildFs.HandleNotificationBare | fs.py:58-70 | the same as `HandleNotification`, with a remount notification that carries no arguments |
| BuildFs.RebuildDropsCache | tools/airmount.py:61-94 | a rebuild drops the project's cached bytes: its listed files report the undownloaded size, and other projects' files keep their attributes |
| BuildFs.ReadTwice | tools/airmount.py:123-136 | once a read has succeeded, a second read of the same range returns the same bytes whatever its request would give |

## Left out

- The sidebar status line: `updateSidebar(error=e)` (project.py:148-151) writes the exception to the editor's status area, which is editor output; `self.data` and the queue are modelled.
- Networking: the websocket, tornado's `IOLoop`, the `PeriodicCallback` heartbeat, locks and events. The model is sequential. A frame read is an argument of `Receive`, a frame written is appended to `sent`, and a `wait_for` timeout is the flag `timedOut` of `AwaitEnded`. The `TypeError` text that `AwaitEnded` shows for a string `wait_for` is the one CPython's `asyncio.wait_for` raises from its `timeout <= 0` test.
- HTTP endpoints are not modelled as requests: `syncDropbox`, `syncGit`, `verboseCompile`, `resolveChanges`, `adjustComment`, `getComments` and `getDropboxMount`. Their results enter as parameters, such as the fetched comments and the Dropbox folder name. `compile` is modelled only as the changed flag it sets.
- `replyComment` (project.py:774-783) only appends a pending message to a comment's list and starts an HTTP request; it is not modelled.
- URLs, the CSRF token, cookies and `validate_cert` are not kept in the model: they only feed HTTP requests.
- Message texts of Python exceptions: an exception is modelled by its type name alone. The sidebar text of `disconnect("WS loop Failed: …")` carries that name where Python would show the message.
- `str()` of a JSON list or object is written as the placeholders `[...]` and `{...}` (`JsonText`). Python's repr of containers is not modelled.
- `json.loads` is not modelled: the decoded payload is an input, with `None` when decoding fails. The text of the JSON written in a frame is not modelled either: a sent frame records the command, not its characters.
- `d.encode("latin1").decode("utf8")` on the joined lines is modelled as the identity on strings; character encodings are not modelled.
- `Project.AirLatexProject.JoinDocAnswer`: a version `data[2]` that is not an integer raises `TypeError` in the model, where Python would store it; document versions are integers throughout the model.
- `Project.AirLatexProject.OtUpdateApplied`: each packet is appended to the `updates` of the document it names. What the document's `applyUpdate` then does is modelled separately by `Document.Document.ApplyUpdate`, because the project keeps documents as values.
- The comments table starts as `None` until `run` fetches it, where the source has no attribute at all before then; both make the comment handlers fail.
- `send` failures (an exception while writing) are not modelled: writing a frame always succeeds.
- The flush loop's `dequeue` appends to the op list of the first entry in place, so the caller's list is shared; the model copies values and does not capture this aliasing.
- Editor rendering and side effects: `buildBuffer`, highlights, `showComments`, `updateRemoteCursor`, `clearRemoteCursor`, `deactivate`, `publishComment`, `triggerRefresh` and `markInvalid`, and the sidebar refreshes. The sha1 digest of `content_hash` is not modelled; the model computes its preimage (`ContentHashInput`).
- `difflib.SequenceMatcher` is not modelled: its opcodes are an input satisfying `Matches`, and `InnerMatches` for the character-level diff of a replaced row.
- `intervaltree` is modelled as a set of `(begin, end, data)` triples, so the order in which its methods return intervals is not modelled. `Intervals.RemoveSpan` and `Intervals.InsertSpan` take the intervals in any order.
- `Intervals.RemoveSpan`: moved copies that coincide with an interval still waiting to move collapse in a set, and that outcome depends on the walk order, so the exact result is stated only when no copy collides. `Intervals.InsertSpan` and `Intervals.MoveEach` have the same restriction.
- `Changes.create` flags a change as an insertion when the op inserts nothing (range.py:179), the opposite of `applyOp` (range.py:210). Both are modelled as written; the flag is only carried as data.
- `Fenwick.FenwickTree.Remove`: the contract states the new `array` and `last_index` but not the cells of `tree`. The source updates those with zero-based indices and marks the method "TODO fix remove and insert", so no prefix-sum property holds after it.
- `Fenwick.FenwickTree.Insert`: as for `Remove`, only the entries are stated. When the shift raises `IndexError` part-way, the tree is not described.
- `Fenwick.FenwickTree.ShiftIn`: the tree is not described on the `IndexError` path.
- `Fenwick.FenwickTree.Update`: requires `index >= 1`. For an index from `-len(tree)` to 0 the source's loop never ends, because the chain reaches 0 and stays there; an index below `-len(tree)` raises `IndexError` at `self.tree[index]`, and that error path is not modelled.
- `Fenwick.FenwickTree.SetItem`: requires `index >= 0`, `-1` on a non-empty tree, or an index below `-len(array)`, which raises `IndexError` at `self.array[index]`. Any other index, from `-len(array)` to -2 or -1 on an empty tree, reaches the endless loop of `update`.
- `Fenwick.FenwickTree.Remove` and `Fenwick.FenwickTree.Insert` require a negative index to resolve to a non-negative one. Python would resolve a further negative index from the end of the list; that case is not modelled.
- `Fenwick.FenwickTree.Remove`: on an empty tree it leaves `last_index` at -2, outside the invariant `Valid()` that every other method requires, so calls on the tree after that are not modelled.
- `JsonValues.DictUpdate`: a pair read from a list whose key is a number, a boolean or `None` raises nothing in Python and stores that key; the model's dictionaries have string keys only, so such a pair is skipped. `Project.AirLatexProject.JoinProject` and the `cursorData` merge of `Project.AirLatexProject.ConnectedUsers` (`Cursors.Flattened`) inherit this.
- The browser add-on: JavaScript's numeric syntax for `x | 0` beyond optionally signed decimal digits (exponents, hexadecimal, spaces) is left as `Unparsed`. Ids that name `Object.prototype` properties, `console.log`, and the native port's message I/O are not modelled.
- The build filesystem: `uid`, `gid` and timestamps of `Stat`; base64 and JSON decoding of the notification, which arrives decoded; exceptions other than a failed request; the exact text of the editor command; the listener thread; and the socket paths.
- `Frames.DigitRun`: a digit is an ASCII `0`-`9`. Python's `\d` in `codere` (project.py:24) also matches every other Unicode decimal digit, such as `١`; frames with such digits are not modelled.
- `Protocol.WaitForRule`: a numeric string is one of ASCII digits. Python's `str.isnumeric()` (project.py:86) accepts every Unicode numeric character, such as `½`; such `wait_for` strings are not modelled.
- `PluginSettings`: `https` is a boolean, so Python's truthiness of other values is not modelled.
- `readdir`'s generator is modelled as the list it yields (`Listing`).

## Findings

| source | as written | input that shows it | evidently intended | confidence | as-written member | corrected member |
|---|---|---|---|---|---|---|
| rplugin/python3/airlatex/buffers/controllers/range.py:209 | `Changes.applyOp` calls `_insert(start, start + end)` where `end` already is `start + len(i)`, so later intervals move by `p + len(i)` | an insertion of two characters at 5 moves `[6, 8)` by 7 | move by `len(i)`, as `Threads.applyOp` does | not executed | Tracker.ChangeInsertOvershoots | Tracker.InsertedSpanShiftsByLength |
| rplugin/python3/airlatex/buffers/controllers/range.py:217-220 | the undo branch removes `interval`, a name that is never bound | undoing a tracked change whose interval is in the tree raises `NameError` and leaves it | remove `lookup[tc]` from the tree and drop the id | not executed | Tracker.UndoAsWrittenKeepsChange | Tracker.Undo |
| rplugin/python3/airlatex/buffers/controllers/thread.py:210 | the same `_insert(start, start + end)` in the other copy of `Changes.applyOp` | an insertion of two characters at 5 moves `[6, 8)` by 7 | move by `len(i)` | not executed | Tracker.ChangeInsertOvershoots | Tracker.InsertedSpanShiftsByLength |
| rplugin/python3/airlatex/buffers/controllers/thread.py:218-220 | the same undo branch removes the unbound `interval` | undoing a tracked change whose interval is in the tree raises `NameError` and leaves it | remove `lookup[tc]` from the tree and drop the id | not executed | Tracker.UndoAsWrittenKeepsChange | Tracker.Undo |
| rplugin/python3/airlatex/buffers/document.py:469-471 | a whole row appended at the end of the file is sent at `pos[-1] - 1` | appending `"c"` to `["ab"]` sends `"\nc"` at 1 and the server text becomes `"a\ncb"` | send it at `pos[-1]`, giving `"ab\nc"` | not executed | Rows.EndInsertMisplaced | Rows.RowRoundTrip |
| rplugin/python3/airlatex/buffers/document.py:486-488 | a row delete counts as "at the end" when `i1` reaches the new row count | dropping rows 0 and 2 of `["D", "a", "Q", "b"]` sends `"\nQ"` for offset 5, where the text holds `"\nb"`: a checking server rejects the batch, and a length-based applier gives `"a\nQ"` | test the end of the old rows, giving `"a\nb"` | not executed | Rows.DeleteEndMisjudged | Rows.RowRoundTrip |
| rplugin/python3/airlatex/buffers/document.py:462-468 | the insert chunk adds one to prefix sums read back as raw entries | appending `"b"` to `["a"]` turns the entries `[1, 0]` into `[1, 1, 0]` | entries that describe the new lines, `[2, 1, 0]` | not executed | Rows.AccumulatorDrifts | Document.Document.WriteBuffer |
| rplugin/python3/airlatex/buffers/document.py:480-485 | the delete chunk lowers the entry before the new last index with `na[j1 - 1] -= 1`, which reads a prefix sum and writes it back as one entry | dropping the last row of `["a", "b"]` turns the entries `[2, 1, 0]` into `[-1, 0]` | entries that describe the new lines, `[1, 0]` | not executed | Rows.DeleteAccumulatorDrifts | Document.Document.WriteBuffer |
| rplugin/python3/airlatex/buffers/document.py:499-504 | the replace chunk overwrites one entry per new row and never inserts or removes entries when the row counts differ | replacing `["a"]` by `["bc", "d"]` turns the entries `[1, 0]` into `[3, 1]` | entries that describe the new lines, `[3, 1, 0]` | not executed | Rows.ReplaceAccumulatorDrifts | Document.Document.WriteBuffer |
| rplugin/python3/airlatex/buffers/document.py:561-588 | `applyOps` edits the lines but never `cumulative_lines` | after a remote `"X\n"` at 0 into `["a"]`, inserting the row `"b"` before `a` is sent as `"b\n"` at 1 and the server text becomes `"Xb\n\na"` | keep the accumulator in step with the saved lines | not executed | Document.StaleOffsetMisplaces | Document.Document.ApplyUpdate |
| rplugin/python3/airlatex/documentbuffer.py:157-179 | `_insert` reads the line from `self.buffer` even when editing `saved_buffer` | inserting `"X"` at 1 into `["ab"]` gives `["aXb"]` on screen and `["aXXb"]` saved | read the line of the list being edited | not executed | DocumentBuffer.SavedInsertDiverges | DocumentBuffer.RunOpsSynced |
| firefox/add-on/detached.js:25 | the detached page's `pair` message carries no `id`, so the background page files it under `"undefined"` | a project's detached and detacher tabs never form a pair and no port opens | both pages send the project id | not executed | Background.DetachedPairingAsWritten | Background.DetachedPairing |
