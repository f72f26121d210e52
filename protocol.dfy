/** The values project.py keeps between websocket frames, and the
    functions that say what its handlers do to them: the request table of
    the command counter, the sidebar record after a disconnect, the
    batches of a flush round, the bookkeeping of an acknowledged update,
    the `otUpdateApplied` packets handed to the documents, and the thread
    flags that thread events set. */
module Protocol {
  import opened Base
  import opened PyText
  import opened Ops
  import opened JsonValues
  import opened Frames
  import opened Flush

  /** A `wait_for` argument as the caller may pass it. */
  datatype PyValue = PyInt(n: int) | PyStr(s: string) | PyNone

  /** `str(v)`. */
  function Str(v: PyValue): string
  {
    match v
    case PyInt(n) => IntToString(n)
    case PyStr(s) => s
    case PyNone => "None"
  }

  /** `wait_for if str(wait_for).isnumeric() else None`. */
  function KeptWaitFor(v: PyValue): Option<PyValue>
  {
    if IsNumeric(Str(v)) then Some(v) else None
  }

  /** An integer timeout is kept exactly when it is not negative; `None`
      is never kept, and a string only when it is all digits. */
  lemma WaitForRule(v: PyValue)
    ensures v.PyInt? ==> (KeptWaitFor(v) == Some(v) <==> v.n >= 0)
    ensures v.PyNone? ==> KeptWaitFor(v) == None
    ensures v.PyStr? ==> (KeptWaitFor(v).Some? <==> IsNumeric(v.s))
    ensures KeptWaitFor(v).Some? ==> KeptWaitFor(v).value == v
  {
    if v.PyInt? {
      IsNumericToString(v.n);
    }
    if v.PyNone? {
      assert !IsDigit(Str(v)[0]);
    }
  }

  /** The `args[1]` object of an `applyOtUpdate` command; `tc` is the
      `meta.tc` id sent only when changes are tracked. */
  datatype Update = Update(doc: string, op: seq<Op>, v: int, lastV: int, hash: string, tc: Option<string>)

  /** The commands the session sends with `send("cmd", ...)`. */
  datatype Command =
    | GetConnectedUsers
    | JoinProject(projectId: Json)
    | JoinDoc(docId: string)
    | ApplyOtUpdate(docId: string, update: Update)

  /** A stored request: the command and the event its answer sets. */
  datatype Request = Request(cmd: Command, event: Option<nat>)

  /** A frame written to the socket: the heartbeat, a command with its id,
      or the `clientTracking.updatePosition` update (the JSON text of the
      message is not modelled). */
  datatype Wire = KeepAlive | Cmd(id: nat, cmd: Command) | Position(docId: Json, row: int, column: int)

  /** `threads.data[t]` of a document, with the `resolved` flag that
      thread events set. */
  datatype ThreadEntry = ThreadEntry(id: string, op: Op, resolved: Option<bool>)

  /** What the session reads and writes of a document it serves: its
      version, `data["ops_buffer"]`, `threads.data`, its lines, the
      comment selection intervals `[begin, end)` of `threads.selection`,
      and the `otUpdateApplied` packets handed to its `applyUpdate`. */
  datatype DocEntry = DocEntry(version: int, opsBuffer: seq<Op>, threads: map<string, ThreadEntry>,
                               lines: seq<string>, selection: set<(int, int)>, updates: seq<Json>)

  /** `pending_comments[thread] = (doc_id, count, content)`. */
  datatype Pending = Pending(docId: string, count: int, content: string)

  /** One document's share of a flush round: `all_ops[doc_id]` and
      `payloads[doc_id]`. */
  datatype Batch = Batch(docId: string, ops: seq<Op>, hash: string, track: bool)

  /** Every key of the request table is the decimal text of an id that
      the counter has handed out. */
  predicate IssuedBelow(keys: set<string>, counter: nat)
  {
    forall key :: key in keys ==> IsNumeric(key) && 1 <= DigitsValue(key) < counter
  }

  /** The key of the next command is not yet in use. */
  lemma NextKeyFresh(keys: set<string>, counter: nat)
    requires IssuedBelow(keys, counter)
    ensures NatToString(counter) !in keys
  {
    DigitsOfNat(counter);
  }

  /** Distinct command ids give distinct request keys. */
  lemma KeysDistinct(i: nat, j: nat)
    requires i != j
    ensures NatToString(i) != NatToString(j)
  {
    DigitsOfNat(i);
    DigitsOfNat(j);
  }

  /** The server's answer to command `id` parses to the key the command
      was stored under, whatever its JSON starts with. */
  lemma AnswerFindsRequest(keys: set<string>, id: nat, json: string)
    requires NatToString(id) in keys && '\n' !in json
    ensures var f := Parse("6:::" + NatToString(id) + "+" + json);
      f.Some? && f.value.code == '6' && f.value.answerId.Some? && f.value.answerId.value in keys &&
      f.value.payload == Some(json)
  {
    AckParses(id, json);
  }

  /** The message the sidebar shows after `disconnect(msg)`: an intended
      disconnect reads `Online`, or `Connected` while buffers are open. */
  function Shown(msg: string, openBuffers: nat): (shown: string)
    ensures msg != "Disconnected." ==> shown == msg
    ensures msg == "Disconnected." ==> (shown == "Connected" <==> openBuffers > 0)
    ensures msg == "Disconnected." ==> (shown == "Online" <==> openBuffers == 0)
  {
    if msg == "Disconnected." then (if openBuffers > 0 then "Connected" else "Online") else msg
  }

  /** `self.data` after `disconnect(msg)`. */
  function ClosedData(d: map<string, Json>, msg: string, openBuffers: nat): map<string, Json>
  {
    (d["msg" := JStr(Shown(msg, openBuffers))]["open" := JBool(false)]["connected" := JBool(false)]) - {"await"}
  }

  /** A disconnected project is closed, not connected and not waiting,
      shows the message, and keeps every other entry. */
  lemma ClosedDataMeaning(d: map<string, Json>, msg: string, openBuffers: nat)
    ensures var r := ClosedData(d, msg, openBuffers);
      "await" !in r && r["msg"] == JStr(Shown(msg, openBuffers)) &&
      r["open"] == JBool(false) && r["connected"] == JBool(false) &&
      (forall k :: k in d && k != "msg" && k != "open" && k != "connected" && k != "await" ==> k in r && r[k] == d[k]) &&
      (forall k :: k in r ==> k in d || k == "msg" || k == "open" || k == "connected")
  {
  }

  /** The string `syncPDF` returns: `id,changed,file,line-1,column`. */
  function ScrollValue(id: string, changed: bool, file: string, line: int, column: int): string
  {
    id + "," + (if changed then "1" else "0") + "," + file + "," + IntToString(line - 1) + "," + IntToString(column)
  }

  /** `str(x)` of a scalar JSON value. */
  function JsonText(j: Json): string
  {
    match j
    case JNull => "None"
    case JBool(b) => if b then "True" else "False"
    case JInt(n) => IntToString(n)
    case JStr(s) => s
    case JList(_) => "[...]"
    case JObj(_) => "{...}"
  }

  /** The `data` variable of `run` after the payload group: the decoded
      payload when it is not empty (`{"name": "error"}` when `json.loads`
      fails, given as `None`), else the empty string or `None`. */
  function PayloadValue(payload: Option<string>, decoded: Option<Json>): Json
  {
    if payload.None? then JNull
    else if payload.value == "" then JStr("")
    else if decoded.Some? then decoded.value
    else JObj([("name", JStr("error"))])
  }

  /** The sidebar message of a code 7 frame. The source joins `the` and
      `browser` without a space. */
  function Unauthorized(settingsUrl: string): string
  {
    UnauthorizedHead + settingsUrl + UnauthorizedTail
  }

  const UnauthorizedHead: string :=
    "Error: Unauthorized. My guess is that your session cookies are outdated or not loaded. Typically reloading '"
  const UnauthorizedTail: string := "/project' using thebrowser you used for login should reload the cookies."

  /** The message of a code 0 frame. */
  const ServerClosed: string := "Error: The server closed the connection."

  /** The `disconnect` message of the flush loop when `_sendOps` hands a
      string `wait_for` to `asyncio.wait_for`: its first step,
      `timeout <= 0`, raises this `TypeError`. */
  const StrTimeoutFailed: string := "Op Failed: '<=' not supported between instances of 'str' and 'int'"

  /** The `disconnect` message of an exception in the `run` loop, named
      by its exception type. */
  function LoopFailed(error: string): string
  {
    "WS loop Failed: " + error
  }

  /** A document's batch in a round over `entries`. */
  function BatchOf(entries: seq<QueueEntry>, d: string): Batch
  {
    var p := LastPayload(entries, d);
    Batch(d, OpsOf(entries, d), if p.Some? then p.value.0 else "", p.Some? && p.value.1)
  }

  /** The batches a flush round over `entries` sends, in the order of
      `all_ops.items()`. */
  function Plan(entries: seq<QueueEntry>): seq<Batch>
  {
    var order := Arrivals(entries);
    seq(|order|, i requires 0 <= i < |order| => BatchOf(entries, order[i]))
  }

  /** A round sends one batch per document with an entry, each document
      once, with all its ops in arrival order and its last hash and track
      flag; documents go out in the order of their first entries. */
  lemma PlanMeaning(entries: seq<QueueEntry>)
    ensures forall d :: (exists i :: 0 <= i < |Plan(entries)| && Plan(entries)[i].docId == d) <==> d in Ids(entries)
    ensures forall i, j :: 0 <= i < j < |Plan(entries)| ==> Plan(entries)[i].docId != Plan(entries)[j].docId
    ensures forall i :: 0 <= i < |Plan(entries)| ==>
      Plan(entries)[i].ops == OpsOf(entries, Plan(entries)[i].docId) &&
      LastPayload(entries, Plan(entries)[i].docId) == Some((Plan(entries)[i].hash, Plan(entries)[i].track))
    ensures forall i, j, k ::
      (0 <= i < j < |Plan(entries)| && 0 <= k < |entries| && entries[k].Entry? && entries[k].docId == Plan(entries)[j].docId) ==>
      Plan(entries)[i].docId in Arrivals(entries[..k])
  {
    var order := Arrivals(entries);
    ArrivalsDistinct(entries);
    forall d | d in Ids(entries)
      ensures exists i :: 0 <= i < |Plan(entries)| && Plan(entries)[i].docId == d
    {
      var i :| 0 <= i < |order| && order[i] == d;
      assert Plan(entries)[i].docId == d;
    }
    forall i, j, k | 0 <= i < j < |Plan(entries)| && 0 <= k < |entries| &&
      entries[k].Entry? && entries[k].docId == Plan(entries)[j].docId
      ensures Plan(entries)[i].docId in Arrivals(entries[..k])
    {
      ArrivalsInOrder(entries, i, j, k);
    }
  }

  /** The batches read off the dictionaries a round builds, in the order
      of `order`. */
  function Batches(order: seq<string>, allOps: map<string, seq<Op>>, payloads: map<string, (string, bool)>): seq<Batch>
    requires forall d :: d in order ==> d in allOps && d in payloads
  {
    seq(|order|, i requires 0 <= i < |order| => Batch(order[i], allOps[order[i]], payloads[order[i]].0, payloads[order[i]].1))
  }

  /** The `all_ops` and `payloads` dictionaries of a round, read in
      insertion order, give exactly the planned batches. */
  lemma GatheredPlan(entries: seq<QueueEntry>)
    ensures forall d :: d in Arrivals(entries) ==> d in OpsMap(entries) && d in PayloadMap(entries)
    ensures Batches(Arrivals(entries), OpsMap(entries), PayloadMap(entries)) == Plan(entries)
  {
    ArrivalsDistinct(entries);
    OpsMapMeaning(entries);
    PayloadMapMeaning(entries);
  }

  /** The threads named by the comment ops of `ops`. */
  function CommentThreads(ops: seq<Op>): set<string>
    decreases |ops|
  {
    if ops == [] then {}
    else (if ops[0].c.Some? && ops[0].t.Some? then {ops[0].t.value} else {}) + CommentThreads(ops[1..])
  }

  /** Every comment op names its thread. */
  predicate ThreadsNamed(ops: seq<Op>)
  {
    forall k :: 0 <= k < |ops| ==> ops[k].c.Some? ==> ops[k].t.Some?
  }

  /** The loop over the ops of an acknowledged batch: each comment op
      drops its thread from the pending comments and records itself in
      the document's threads; a comment op without `t` raises. */
  function AckComments(pending: map<string, Pending>, threads: map<string, ThreadEntry>, ops: seq<Op>)
    : (Outcome, map<string, Pending>, map<string, ThreadEntry>)
    decreases |ops|
  {
    if ops == [] then (Done, pending, threads)
    else
      var op := ops[0];
      if op.c.None? then AckComments(pending, threads, ops[1..])
      else if op.t.None? then (Raised("KeyError"), pending, threads)
      else AckComments(pending - {op.t.value}, threads[op.t.value := ThreadEntry(op.t.value, op, None)], ops[1..])
  }

  /** When every comment op names its thread, the acknowledgement clears
      exactly those threads from the pending comments, records each of them
      in the document (the last op of a thread wins), and keeps every other
      pending comment and thread. */
  lemma {:induction false} AckCommentsMeaning(pending: map<string, Pending>, threads: map<string, ThreadEntry>, ops: seq<Op>)
    ensures var r := AckComments(pending, threads, ops);
      (r.0 == Done <==> ThreadsNamed(ops)) &&
      (r.0 == Done ==>
        r.1 == pending - CommentThreads(ops) &&
        r.2.Keys == threads.Keys + CommentThreads(ops) &&
        (forall t :: t in threads && t !in CommentThreads(ops) ==> r.2[t] == threads[t]) &&
        (forall k :: 0 <= k < |ops| && ops[k].c.Some? && ops[k].t.Some? && (forall m :: k < m < |ops| ==> ops[m].t != ops[k].t) ==>
          ops[k].t.value in r.2 && r.2[ops[k].t.value] == ThreadEntry(ops[k].t.value, ops[k], None)))
    decreases |ops|
  {
    if ops != [] {
      var op := ops[0];
      var tail := ops[1..];
      assert ThreadsNamed(ops) <==> (op.c.Some? ==> op.t.Some?) && ThreadsNamed(tail) by {
        assert forall k :: 1 <= k < |ops| ==> ops[k] == tail[k - 1];
      }
      if op.c.None? {
        AckCommentsMeaning(pending, threads, tail);
        assert CommentThreads(ops) == CommentThreads(tail);
        LastOfThread(ops);
      } else if op.t.Some? {
        var t := op.t.value;
        var p1 := pending - {t};
        var h1 := threads[t := ThreadEntry(t, op, None)];
        AckCommentsMeaning(p1, h1, tail);
        assert CommentThreads(ops) == {t} + CommentThreads(tail);
        var r := AckComments(pending, threads, ops);
        if r.0 == Done {
          assert r.1 == pending - CommentThreads(ops);
          forall k | 0 <= k < |ops| && ops[k].c.Some? && ops[k].t.Some? && (forall m :: k < m < |ops| ==> ops[m].t != ops[k].t)
            ensures ops[k].t.value in r.2 && r.2[ops[k].t.value] == ThreadEntry(ops[k].t.value, ops[k], None)
          {
            if k > 0 {
              assert ops[k] == tail[k - 1];
              assert forall m :: k - 1 < m < |tail| ==> tail[m] == ops[m + 1];
            } else {
              NotInLater(ops);
            }
          }
        }
      }
    }
  }

  /** Recording a batch without comment ops, the walk goes on. */
  lemma LastOfThread(ops: seq<Op>)
    requires ops != [] && ops[0].c.None?
    ensures forall k :: 1 <= k < |ops| ==> ops[k] == ops[1..][k - 1]
  {
  }

  /** A thread that no later op names is not recorded again. */
  lemma {:induction false} NotInLater(ops: seq<Op>)
    requires ops != [] && ops[0].t.Some? && forall m :: 0 < m < |ops| ==> ops[m].t != ops[0].t
    ensures ops[0].t.value !in CommentThreads(ops[1..])
    decreases |ops|
  {
    var tail := ops[1..];
    if tail != [] {
      assert forall m :: 0 < m < |tail| ==> tail[m] == ops[m + 1];
      NotInLater([ops[0]] + tail[1..]);
      assert ([ops[0]] + tail[1..])[1..] == tail[1..];
    }
  }

  /** Whether a batch holds a comment op. */
  predicate HasComment(ops: seq<Op>)
  {
    exists k :: 0 <= k < |ops| && ops[k].c.Some?
  }

  /** The packets of an `otUpdateApplied` list addressed to document `id`. */
  function PacketsFor(packets: seq<Json>, id: string): seq<Json>
    decreases |packets|
  {
    if packets == [] then []
    else (if Get(packets[0], "doc") == Ok(JStr(id)) then [packets[0]] else []) + PacketsFor(packets[1..], id)
  }

  /** The loop over `data.get("args", [])` of `otUpdateApplied`: every
      packet is handed to the document it names, when the session serves
      it. A packet without `doc` raises, and so does an unhashable id. */
  function ApplyAll(docs: map<string, DocEntry>, packets: seq<Json>): (Outcome, map<string, DocEntry>)
    decreases |packets|
  {
    if packets == [] then (Done, docs)
    else match Get(packets[0], "doc")
      case Err(e) => (Raised(e), docs)
      case Ok(d) =>
        if !Hashable(d) then (Raised("TypeError"), docs)
        else if d.JStr? && d.s in docs then
          ApplyAll(docs[d.s := docs[d.s].(updates := docs[d.s].updates + [packets[0]])], packets[1..])
        else ApplyAll(docs, packets[1..])
  }

  /** A completed walk hands each served document exactly the packets that
      name it, in order, and changes nothing else. */
  lemma {:induction false} ApplyAllMeaning(docs: map<string, DocEntry>, packets: seq<Json>)
    ensures var r := ApplyAll(docs, packets);
      r.1.Keys == docs.Keys &&
      (r.0 == Done ==> forall id :: id in docs ==> r.1[id] == docs[id].(updates := docs[id].updates + PacketsFor(packets, id)))
    decreases |packets|
  {
    if packets != [] {
      var p := packets[0];
      match Get(p, "doc")
      case Err(_) =>
      case Ok(d) =>
        if Hashable(d) {
          var docs1 := if d.JStr? && d.s in docs then docs[d.s := docs[d.s].(updates := docs[d.s].updates + [p])] else docs;
          assert ApplyAll(docs, packets) == ApplyAll(docs1, packets[1..]);
          ApplyAllMeaning(docs1, packets[1..]);
          ApplyAllStep(docs, packets, d, docs1);
        }
    }
  }

  /** Handing the first packet over and then the rest hands each document
      the packets that name it. */
  lemma ApplyAllStep(docs: map<string, DocEntry>, packets: seq<Json>, d: Json, docs1: map<string, DocEntry>)
    requires packets != [] && Get(packets[0], "doc") == Ok(d)
    requires docs1 == if d.JStr? && d.s in docs then docs[d.s := docs[d.s].(updates := docs[d.s].updates + [packets[0]])] else docs
    ensures docs1.Keys == docs.Keys
    ensures forall id :: id in docs ==>
      docs1[id].(updates := docs1[id].updates + PacketsFor(packets[1..], id)) == docs[id].(updates := docs[id].updates + PacketsFor(packets, id))
  {
    forall id | id in docs
      ensures docs1[id].(updates := docs1[id].updates + PacketsFor(packets[1..], id)) == docs[id].(updates := docs[id].updates + PacketsFor(packets, id))
    {
      ApplyAllStepAt(docs, packets, d, docs1, id);
    }
  }

  /** `ApplyAllStep` for one document. */
  lemma ApplyAllStepAt(docs: map<string, DocEntry>, packets: seq<Json>, d: Json, docs1: map<string, DocEntry>, id: string)
    requires packets != [] && Get(packets[0], "doc") == Ok(d) && id in docs
    requires docs1 == if d.JStr? && d.s in docs then docs[d.s := docs[d.s].(updates := docs[d.s].updates + [packets[0]])] else docs
    ensures id in docs1
    ensures docs1[id].(updates := docs1[id].updates + PacketsFor(packets[1..], id)) == docs[id].(updates := docs[id].updates + PacketsFor(packets, id))
  {
    var here := PacketsHead(packets, id, d);
    assert docs1[id] == docs[id].(updates := docs[id].updates + here) by {
      if d != JStr(id) {
        assert docs[id].updates + here == docs[id].updates;
      }
    }
    UpdatesAppend(docs[id], docs1[id], here, PacketsFor(packets[1..], id));
  }

  /** Appending `here` and then `tail` appends `here + tail`. */
  lemma UpdatesAppend(e: DocEntry, e1: DocEntry, here: seq<Json>, tail: seq<Json>)
    requires e1 == e.(updates := e.updates + here)
    ensures e1.(updates := e1.updates + tail) == e.(updates := e.updates + (here + tail))
  {
    assert e.updates + here + tail == e.updates + (here + tail);
  }

  /** The packets for `id` are the first one, when it names `id`, and then
      those of the rest. */
  lemma PacketsHead(packets: seq<Json>, id: string, d: Json) returns (here: seq<Json>)
    requires packets != [] && Get(packets[0], "doc") == Ok(d)
    ensures here == if d == JStr(id) then [packets[0]] else []
    ensures PacketsFor(packets, id) == here + PacketsFor(packets[1..], id)
  {
    here := if d == JStr(id) then [packets[0]] else [];
  }

  /** A document after a `resolve-thread` (`Some(true)`) or
      `reopen-thread` (`Some(false)`) event for thread `tid`. */
  function Marked(doc: DocEntry, tid: string, resolved: Option<bool>): DocEntry
  {
    if tid in doc.threads && resolved.Some? then
      doc.(threads := doc.threads[tid := doc.threads[tid].(resolved := resolved)])
    else doc
  }

  /** A thread event changes only the flag of the named thread, and only
      in documents that hold it. */
  lemma MarkedMeaning(doc: DocEntry, tid: string, resolved: Option<bool>)
    ensures var r := Marked(doc, tid, resolved);
      r.threads.Keys == doc.threads.Keys && r.version == doc.version && r.lines == doc.lines &&
      (tid in doc.threads && resolved.Some? ==> r.threads[tid] == doc.threads[tid].(resolved := resolved)) &&
      (forall t :: t in doc.threads && t != tid ==> r.threads[t] == doc.threads[t]) &&
      (tid !in doc.threads || resolved.None? ==> r == doc)
  {
  }
}
