/** project.py: the websocket session of one Overleaf project. The model
    keeps the bookkeeping the session does between frames: the command
    counter and the table of requests waiting for an answer, the remote
    cursors, the documents it serves, the comments it is creating, the
    queue of op batches and the `data` dictionary the sidebar shows. The
    socket is the log `sent` of frames written; a frame read arrives as an
    argument, with the value `json.loads` gives its payload. The
    coroutines are cut at their `await` points: the flush loop is a round
    (`FlushRound`), a step per document (`NextBatch`, `SendOpsNow`) and
    the end of the wait for the server (`AwaitEnded`); the read loop is
    one `Receive` per frame. */
module Project {
  import opened Base
  import opened PySeq
  import opened PyText
  import opened Ops
  import opened Lines
  import opened JsonValues
  import opened Frames
  import opened Flush
  import opened Cursors
  import opened Protocol

  class AirLatexProject {
    var name: Json
    /** `self.data`: the project record the sidebar shows. */
    var data: map<string, Json>
    /** The next value of `command_counter`. */
    var counter: nat
    var requests: map<string, Request>
    var cursors: Table
    var documents: map<string, DocEntry>
    var pendingComments: map<string, Pending>
    /** `self.comments`: `None` until fetched, or when a fetch failed. */
    var comments: Option<map<string, Json>>
    /** `ops_queue`. */
    var queue: seq<QueueEntry>
    /** The batches of the current flush round that are not sent yet. */
    var batch: seq<Batch>
    var changed: bool
    var waitFor: Option<PyValue>
    var sessionId: Option<Json>
    /** Whether `join_event` is set. */
    var joined: bool
    /** The frames written to the socket. */
    var sent: seq<Wire>
    /** How many events `_sendOps` has created, and which of them an
        answer has set. */
    var events: nat
    var released: set<nat>

    /** The request table only holds keys the counter has handed out. */
    ghost predicate Valid()
      reads this
    {
      counter >= 1 && IssuedBelow(requests.Keys, counter)
    }

    /** `data.get("connected")` is true: the loops keep running. */
    predicate Connected()
      reads this
    {
      Live(data)
    }

    /** The attributes as one value. */
    function Snapshot(): Session
      reads this
    {
      Session(name, data, counter, requests, cursors, documents, pendingComments, comments, queue, batch,
              changed, waitFor, sessionId, joined, sent, events, released)
    }

    /** `__init__`: `refresh`, then the timeout rule and a clean `changed`
        flag. */
    constructor (project: map<string, Json>, waitFor: PyValue)
      requires "name" in project
      ensures data == project && name == project["name"]
      ensures counter == 1 && requests == map[] && cursors == map[] && documents == map[] && pendingComments == map[]
      ensures queue == [] && batch == [] && !joined && sessionId == None
      ensures this.waitFor == KeptWaitFor(waitFor) && !changed
      ensures comments == None && sent == [] && events == 0 && released == {}
      ensures Valid()
    {
      data := project;
      name := project["name"];
      counter := 1;
      requests, cursors, documents, pendingComments := map[], map[], map[], map[];
      queue, batch := [], [];
      joined := false;
      sessionId := None;
      this.waitFor := KeptWaitFor(waitFor);
      changed := false;
      comments := None;
      sent := [];
      events, released := 0, {};
    }

    /** `refresh`: a new project record, then the reset of the session. */
    method Refresh(project: map<string, Json>)
      requires "name" in project
      modifies this`data, this`name, this`counter, this`requests, this`cursors, this`documents, this`pendingComments, this`queue, this`joined, this`sessionId
      ensures data == project && name == project["name"]
      ensures counter == 1 && requests == map[] && cursors == map[] && documents == map[] && pendingComments == map[]
      ensures queue == [] && !joined && sessionId == None
      ensures Valid()
    {
      data := project;
      name := project["name"];
      Reset();
    }

    /** The reset block of `refresh`: the counter restarts at 1; the
        session id, requests, cursors, documents and pending comments are
        dropped; a new queue and an unset join event. */
    method Reset()
      modifies this`counter, this`requests, this`cursors, this`documents, this`pendingComments, this`queue, this`joined, this`sessionId
      ensures counter == 1 && requests == map[] && cursors == map[] && documents == map[] && pendingComments == map[]
      ensures queue == [] && !joined && sessionId == None
      ensures Valid()
    {
      ClearRequests();
      ClearTables();
      ClearSession();
    }

    /** A new `command_counter` and an empty request table. */
    method ClearRequests()
      modifies this`counter, this`requests
      ensures counter == 1 && requests == map[]
      ensures Valid()
    {
      counter, requests := 1, map[];
    }

    /** No cursors, documents or pending comments. */
    method ClearTables()
      modifies this`cursors, this`documents, this`pendingComments
      ensures cursors == map[] && documents == map[] && pendingComments == map[]
    {
      cursors, documents, pendingComments := map[], map[], map[];
    }

    /** A new queue, an unset join event and no session id. */
    method ClearSession()
      modifies this`queue, this`joined, this`sessionId
      ensures queue == [] && !joined && sessionId == None
    {
      queue, joined, sessionId := [], false, None;
    }

    /** `keep_alive`, i.e. `send("keep_alive")`: the heartbeat frame. */
    method SendKeepAlive()
      modifies this`sent
      ensures sent == old(sent) + [KeepAlive]
    {
      sent := sent + [KeepAlive];
    }

    /** `send("cmd", message, event)`: the next id of the counter, the
        request stored under its decimal text, then the frame written. No
        stored request is overwritten. */
    method SendCmd(cmd: Command, event: Option<nat>) returns (id: nat)
      requires Valid()
      modifies this`counter, this`requests, this`sent
      ensures id == old(counter) && counter == id + 1
      ensures NatToString(id) !in old(requests)
      ensures requests == old(requests)[NatToString(id) := Request(cmd, event)]
      ensures sent == old(sent) + [Cmd(id, cmd)]
      ensures Snapshot() == WithCmd(old(Snapshot()), cmd, event)
      ensures Valid()
    {
      id := counter;
      counter := counter + 1;
      NextKeyFresh(requests.Keys, id);
      DigitsOfNat(id);
      requests := requests[NatToString(id) := Request(cmd, event)];
      sent := sent + [Cmd(id, cmd)];
    }

    /** `updateCursor(doc, pos)`: the `clientTracking.updatePosition`
        update with the zero-based row; it is not stored as a request. */
    method UpdateCursor(doc: Json, row: int, column: int) returns (r: Outcome)
      modifies this`sent
      ensures Get(doc, "_id").Err? ==> r == Raised(Get(doc, "_id").error) && sent == old(sent)
      ensures Get(doc, "_id").Ok? ==> r == Done && sent == old(sent) + [Position(doc.fields["_id"], row - 1, column)]
    {
      var id := Get(doc, "_id");
      if id.Err? {
        return Raised(id.error);
      }
      sent := sent + [Position(id.value, row - 1, column)];
      return Done;
    }

    /** `sendOps`: the changed flag for the next `syncPDF`, and the batch
        queued for the flush loop. */
    method SendOps(docId: string, hash: string, ops: seq<Op>, track: bool)
      modifies this`changed, this`queue
      ensures changed && queue == old(queue) + [Entry(docId, hash, ops, track)]
    {
      changed := true;
      queue := queue + [Entry(docId, hash, ops, track)];
    }

    /** The start of `compile`: the changed flag for the next `syncPDF`. */
    method Compile()
      modifies this`changed
      ensures changed
    {
      changed := true;
    }

    /** `syncPDF(file, line, column)`: the scroll string for the browser;
        reading it clears the changed flag. `self.id` raises `KeyError`
        without an `"id"`. */
    method SyncPDF(file: string, line: int, column: int) returns (scroll: Result<string>)
      modifies this`changed
      ensures "id" !in data ==> scroll == Err("KeyError") && changed == old(changed)
      ensures "id" in data ==> scroll == Ok(ScrollValue(JsonText(data["id"]), old(changed), file, line, column)) && !changed
    {
      if "id" !in data {
        return Err("KeyError");
      }
      scroll := Ok(JsonText(data["id"]) + "," + (if changed then "1" else "0") + "," + file + "," +
                   IntToString(line - 1) + "," + IntToString(column));
      changed := false;
    }

    /** `disconnect(msg)`: the project is marked closed and disconnected,
        the waiting flag is removed, the close sentinel is queued for the
        flush loop, and the sidebar message is set. */
    method Disconnect(msg: string, openBuffers: nat)
      modifies this`data, this`queue
      ensures data == ClosedData(old(data), msg, openBuffers)
      ensures queue == old(queue) + [Close]
      ensures !Connected()
      ensures Snapshot() == Disconnected(old(Snapshot()), msg, openBuffers)
    {
      var shown := msg;
      if msg == "Disconnected." {
        shown := "Online";
        if openBuffers > 0 {
          shown := "Connected";
        }
      }
      data := (data["msg" := JStr(shown)]["open" := JBool(false)]["connected" := JBool(false)]) - {"await"};
      queue := queue + [Close];
    }

    /** `connect`: connected while the websocket opens; a failure to
        open it (`error`) disconnects with its text. */
    method Connect(error: Option<string>, openBuffers: nat)
      modifies this`data, this`queue
      ensures var d := old(data)["msg" := JStr("Connecting Websocket.")]["connected" := JBool(true)];
        (error.None? ==> data == d["msg" := JStr("Connected.")] && queue == old(queue)) &&
        (error.Some? ==> data == ClosedData(d, "Connection Error: " + error.value, openBuffers) && queue == old(queue) + [Close])
      ensures Connected() <==> error.None?
    {
      data := data["msg" := JStr("Connecting Websocket.")]["connected" := JBool(true)];
      if error.Some? {
        Disconnect("Connection Error: " + error.value, openBuffers);
      } else {
        data := data["msg" := JStr("Connected.")];
      }
    }

    /** The start of `run`: the fetched comments, and the Dropbox folder
        name as the project name when the setting asks for it. */
    method BeginRun(fetched: Option<map<string, Json>>, dropboxName: Option<Json>)
      modifies this`comments, this`name
      ensures comments == fetched
      ensures name == if dropboxName.Some? then dropboxName.value else old(name)
    {
      comments := fetched;
      if dropboxName.Some? {
        name := dropboxName.value;
      }
    }

    /** `joinDocument`: the document is registered, then `joinDoc` is
        sent. */
    method JoinDocument(docId: string, doc: DocEntry) returns (id: nat)
      requires Valid()
      modifies this`documents, this`counter, this`requests, this`sent
      ensures documents == old(documents)[docId := doc]
      ensures id == old(counter) && counter == id + 1 && NatToString(id) !in old(requests)
      ensures requests == old(requests)[NatToString(id) := Request(JoinDoc(docId), None)]
      ensures sent == old(sent) + [Cmd(id, JoinDoc(docId))]
      ensures Valid()
    {
      documents := documents[docId := doc];
      id := SendCmd(JoinDoc(docId), None);
    }

    /** `_sendOps` up to its wait: the ops join the document's buffer;
        an empty buffer sends nothing; otherwise a new event, the waiting
        flag, an emptied buffer and one `applyOtUpdate` carrying the whole
        buffer at the document's version (`tc` is the id `generateId`
        gives when changes are tracked). */
    method SendOpsNow(docId: string, hash: string, ops: seq<Op>, track: bool, tc: string) returns (sentBatch: bool)
      requires Valid() && docId in documents
      modifies this`documents, this`data, this`counter, this`requests, this`sent, this`events
      ensures sentBatch <==> old(documents)[docId].opsBuffer + ops != []
      ensures !sentBatch ==>
        documents == old(documents) && data == old(data) && counter == old(counter) &&
        requests == old(requests) && sent == old(sent) && events == old(events)
      ensures sentBatch ==>
        var doc := old(documents)[docId];
        var cmd := ApplyOtUpdate(docId, Update(docId, doc.opsBuffer + ops, doc.version, doc.version - 1, hash,
                                                if track then Some(tc) else None));
        events == old(events) + 1 && data == old(data)["await" := JBool(true)] &&
        documents == old(documents)[docId := doc.(opsBuffer := [])] &&
        counter == old(counter) + 1 && NatToString(old(counter)) !in old(requests) &&
        requests == old(requests)[NatToString(old(counter)) := Request(cmd, Some(events))] &&
        sent == old(sent) + [Cmd(old(counter), cmd)]
      ensures Valid()
    {
      var doc := documents[docId];
      var buffer := doc.opsBuffer + ops;
      if buffer == [] {
        return false;
      }
      events := events + 1;
      data := data["await" := JBool(true)];
      documents := documents[docId := doc.(opsBuffer := [])];
      var update := Update(docId, buffer, doc.version, doc.version - 1, hash, if track then Some(tc) else None);
      var _ := SendCmd(ApplyOtUpdate(docId, update), Some(events));
      return true;
    }

    /** The end of `_sendOps`. With an integer `wait_for` or none, the
        server answered, or did not within `wait_for` seconds and the
        project is disconnected; either way the waiting flag is cleared
        and the round goes on. A kept string `wait_for` makes
        `asyncio.wait_for` raise `TypeError` before any waiting, which
        `sendOps_flush` turns into `disconnect("Op Failed: ...")` before
        the loop ends; the waiting flag is left to `disconnect`. A timeout
        needs a `wait_for`. */
    method AwaitEnded(timedOut: bool, openBuffers: nat) returns (running: bool)
      requires timedOut ==> waitFor.Some?
      modifies this`data, this`queue
      ensures running <==> !(waitFor.Some? && waitFor.value.PyStr?)
      ensures !running ==>
        data == ClosedData(old(data), StrTimeoutFailed, openBuffers) && queue == old(queue) + [Close]
      ensures running && !timedOut ==> data == old(data)["await" := JBool(false)] && queue == old(queue)
      ensures running && timedOut ==>
        data == ClosedData(old(data), "Error: The server did not answer for " + Str(old(waitFor).value) + " seconds.", openBuffers)["await" := JBool(false)] &&
        queue == old(queue) + [Close]
    {
      if waitFor.Some? && waitFor.value.PyStr? {
        Disconnect(StrTimeoutFailed, openBuffers);
        return false;
      }
      if timedOut {
        Disconnect("Error: The server did not answer for " + Str(waitFor.value) + " seconds.", openBuffers);
      }
      data := data["await" := JBool(false)];
      return true;
    }

    /** One round of `sendOps_flush` up to its sends: a disconnected
        project ends the loop; an empty queue keeps it waiting; otherwise
        every queued entry is dequeued and coalesced, unless a close
        sentinel ends the loop first and drops what was gathered. */
    method FlushRound() returns (running: bool)
      requires batch == []
      modifies this`queue, this`batch
      ensures !old(Connected()) ==> !running && queue == old(queue) && batch == []
      ensures old(Connected()) && CloseIndex(old(queue)) < |old(queue)| ==>
        !running && queue == old(queue)[CloseIndex(old(queue)) + 1..] && batch == []
      ensures old(Connected()) && CloseIndex(old(queue)) == |old(queue)| ==>
        running && queue == [] && batch == Plan(old(queue))
    {
      if !Connected() {
        return false;
      }
      if queue == [] {
        return true;
      }
      var entries := queue;
      var taken, closed, order, allOps, payloads := Gather(entries);
      queue := entries[taken..];
      if closed {
        return false;
      }
      GatheredPlan(entries);
      batch := Batches(order, allOps, payloads);
      assert queue == [] by {
        assert taken == |entries|;
      }
      return true;
    }

    /** The next document of the round: its batch leaves the list; a
        document the session does not serve raises `KeyError`, which ends
        the loop with `disconnect("Op Failed: ...")`. */
    method NextBatch(openBuffers: nat) returns (next: Option<Batch>)
      requires batch != []
      modifies this`batch, this`data, this`queue
      ensures batch == old(batch)[1..]
      ensures old(batch)[0].docId in old(documents) ==> next == Some(old(batch)[0]) && data == old(data) && queue == old(queue)
      ensures old(batch)[0].docId !in old(documents) ==>
        next == None && data == ClosedData(old(data), "Op Failed: '" + old(batch)[0].docId + "'", openBuffers) && queue == old(queue) + [Close]
    {
      var b := batch[0];
      batch := batch[1..];
      if b.docId !in documents {
        Disconnect("Op Failed: '" + b.docId + "'", openBuffers);
        return None;
      }
      return Some(b);
    }

    /** One frame of the `run` loop, with its payload as `json.loads`
        decodes it (`None` when that fails). The loop goes on exactly while
        the project is connected; an exception ends it with
        `disconnect("WS loop Failed: ...")`. */
    method Receive(msg: string, decoded: Option<Json>, fetched: Option<map<string, Json>>, openBuffers: nat,
                   settingsUrl: string) returns (running: bool)
      requires Valid()
      modifies this`data, this`queue, this`joined, this`counter, this`requests, this`sent, this`sessionId, this`cursors, this`documents, this`comments, this`released, this`pendingComments
      ensures running == Connected()
      ensures Valid()
      ensures (!old(Connected())) ==> unchanged(this)
      ensures old(Connected()) && Parse(msg).None? ==>
        data == ClosedData(old(data), LoopFailed("AttributeError"), openBuffers) && queue == old(queue) + [Close]
      ensures (running, Snapshot()) == ReceiveStep(old(Snapshot()), msg, decoded, fetched, openBuffers, settingsUrl)
    {
      if !Connected() {
        return false;
      }
      var r := OnFrame(msg, decoded, fetched, openBuffers, settingsUrl);
      if r.Raised? {
        Disconnect(LoopFailed(r.error), openBuffers);
      }
      return Connected();
    }

    /** The body of the `run` loop for one frame, dispatched on its code:
        a frame the pattern does not match raises `AttributeError`; 5 and
        6 are messages and answers; the other codes only touch the sidebar
        record and the queue. */
    method OnFrame(msg: string, decoded: Option<Json>, fetched: Option<map<string, Json>>, openBuffers: nat,
                   settingsUrl: string) returns (r: Outcome)
      requires Valid()
      modifies this`data, this`queue, this`joined, this`counter, this`requests, this`sent, this`sessionId, this`cursors, this`documents, this`comments, this`released, this`pendingComments
      ensures Valid()
      ensures Parse(msg).None? ==> r == Raised("AttributeError")
      ensures (Parse(msg).None?) ==> unchanged(this)
      ensures Parse(msg).Some? && Parse(msg).value.code !in "56" ==> r == Done
      ensures (Parse(msg).Some? && Parse(msg).value.code !in "56") ==> unchanged(this`joined, this`counter, this`requests, this`sent, this`sessionId, this`cursors, this`documents, this`comments, this`released, this`pendingComments)
      ensures (r, Snapshot()) == FrameStep(old(Snapshot()), msg, decoded, fetched, openBuffers, settingsUrl)
    {
      var f := Parse(msg);
      if f.None? {
        return Raised("AttributeError");
      }
      var value := PayloadValue(f.value.payload, decoded);
      if f.value.code == '5' {
        r := OnServerMessage(value, msg, fetched, openBuffers);
      } else if f.value.code == '6' {
        r := OnAnswer(f.value.answerId, value, fetched);
      } else {
        OnStatusFrame(f.value.code, msg, openBuffers, settingsUrl);
        r := Done;
      }
    }

    /** The frames other than messages and answers: 0 disconnects, 1
        clears the waiting flag, 2 does nothing (the heartbeat coroutine is
        created but never awaited), 7 reports an expired session, and any
        other code is shown. */
    method OnStatusFrame(code: char, msg: string, openBuffers: nat, settingsUrl: string)
      requires code != '5' && code != '6'
      modifies this`data, this`queue
      ensures code == '0' ==>
        data == ClosedData(old(data), ServerClosed, openBuffers) && queue == old(queue) + [Close]
      ensures code == '1' ==> data == old(data)["await" := JBool(false)]
      ensures code == '2' ==> data == old(data)
      ensures code == '7' ==> data == old(data)["msg" := JStr(Unauthorized(settingsUrl))]
      ensures code !in "0127" ==> data == old(data)["msg" := JStr("Unknown Code: " + msg)]
      ensures code != '0' ==> queue == old(queue)
      ensures Snapshot() == StatusFrameStep(old(Snapshot()), code, msg, openBuffers, settingsUrl)
    {
      if code == '0' {
        Disconnect(ServerClosed, openBuffers);
      } else if code == '1' {
        data := data["await" := JBool(false)];
      } else if code == '7' {
        data := data["msg" := JStr(Unauthorized(settingsUrl))];
      } else if code != '2' {
        data := data["msg" := JStr("Unknown Code: " + msg)];
      }
    }

    /** A code 5 frame: a message from the server, dispatched on its
        `"name"` (see `Classify`). */
    method OnServerMessage(value: Json, msg: string, fetched: Option<map<string, Json>>, openBuffers: nat) returns (r: Outcome)
      requires Valid()
      modifies this`data, this`queue, this`joined, this`counter, this`requests, this`sent, this`sessionId, this`cursors, this`documents, this`comments
      ensures Valid()
      ensures Get(value, "name").Err? ==> r == Raised(Get(value, "name").error)
      ensures Get(value, "name").Ok? && !Get(value, "name").value.JStr? ==> r == Raised("TypeError")
      ensures (Get(value, "name").Err? || !Get(value, "name").value.JStr?) ==> unchanged(this)
      ensures (r, Snapshot()) == ServerMessageStep(old(Snapshot()), value, msg, fetched, openBuffers)
    {
      var n := Get(value, "name");
      if n.Err? {
        return Raised(n.error);
      }
      if !n.value.JStr? {
        return Raised("TypeError");
      }
      r := OnNamedMessage(Classify(n.value.s), value, msg, fetched, openBuffers);
    }

    /** The branches of a code 5 message: `broadcastDocMeta` is ignored and
        an unknown name is shown; the others have their handlers. */
    method OnNamedMessage(kind: MessageName, value: Json, msg: string, fetched: Option<map<string, Json>>, openBuffers: nat)
      returns (r: Outcome)
      requires Valid()
      requires kind.ThreadChange? ==> kind.event in ThreadEvents
      modifies this`data, this`queue, this`joined, this`counter, this`requests, this`sent, this`sessionId, this`cursors, this`documents, this`comments
      ensures Valid()
      ensures kind.DocMeta? ==> r == Done
      ensures (kind.DocMeta?) ==> unchanged(this)
      ensures kind.Unknown? ==> r == Done && data == old(data)["msg" := JStr("Data not known: " + msg)]
      ensures (kind.Unknown?) ==> unchanged(this`queue, this`joined, this`counter, this`requests, this`sent, this`sessionId, this`cursors, this`documents, this`comments)
      ensures (r, Snapshot()) == NamedStep(old(Snapshot()), kind, value, msg, fetched, openBuffers)
    {
      match kind
      case JoinResponse =>
        var first := ThreadArg(value);
        if first.Err? { return Raised(first.error); }
        var project := Get(first.value, "project");
        if project.Err? { return Raised(project.error); }
        r := JoinProject(project.value);
      case Accepted =>
        var args := Get(value, "args");
        if args.Err? { return Raised(args.error); }
        r := ConnectionAccepted(args.value);
      case DocMeta =>
        r := Done;
      case CursorUpdated =>
        var args := Get(value, "args");
        if args.Err? { return Raised(args.error); }
        r := ClientUpdated(args.value);
      case CursorGone =>
        var args := Get(value, "args");
        if args.Err? { return Raised(args.error); }
        r := ClientDisconnected(args.value);
      case UpdateApplied =>
        r := OtUpdateApplied(value);
      case UpdateError =>
        r := OtUpdateError(value, openBuffers);
      case ThreadChange(event) =>
        r := ThreadEvent(event, value, fetched);
      case Accept =>
        r := AcceptChanges(value);
      case Unknown =>
        data := data["msg" := JStr("Data not known: " + msg)];
        r := Done;
    }

    /** `otUpdateError`: the project disconnects, showing the first
        argument. */
    method OtUpdateError(value: Json, openBuffers: nat) returns (r: Outcome)
      modifies this`data, this`queue
      ensures ThreadArg(value).Err? ==> r == Raised(ThreadArg(value).error) && data == old(data) && queue == old(queue)
      ensures ThreadArg(value).Ok? ==>
        r == Done && queue == old(queue) + [Close] &&
        data == ClosedData(old(data), "Error occured on operation Update: " + JsonText(ThreadArg(value).value), openBuffers)
      ensures (r, Snapshot()) == OtUpdateErrorStep(old(Snapshot()), value, openBuffers)
    {
      var first := ThreadArg(value);
      if first.Err? {
        return Raised(first.error);
      }
      Disconnect("Error occured on operation Update: " + JsonText(first.value), openBuffers);
      return Done;
    }

    /** `joinProject(info)`: `self.data.update(info)` (which may raise,
        keeping the pairs stored before the failure), then the project is
        marked open, the connected users are asked for, and the join event
        is set. */
    method JoinProject(info: Json) returns (r: Outcome)
      requires Valid()
      modifies this`data, this`joined, this`counter, this`requests, this`sent
      ensures r == DictUpdate(old(data), info).0
      ensures r.Raised? ==> data == DictUpdate(old(data), info).1
      ensures (r.Raised?) ==> unchanged(this`joined, this`counter, this`requests, this`sent)
      ensures r.Done? ==>
        data == DictUpdate(old(data), info).1["open" := JBool(true)] && joined &&
        counter == old(counter) + 1 && NatToString(old(counter)) !in old(requests) &&
        requests == old(requests)[NatToString(old(counter)) := Request(GetConnectedUsers, None)] &&
        sent == old(sent) + [Cmd(old(counter), GetConnectedUsers)]
      ensures info.JObj? ==> r == Done && data == (old(data) + info.fields)["open" := JBool(true)]
      ensures (r, Snapshot()) == JoinProjectStep(old(Snapshot()), info)
      ensures Valid()
    {
      var (o, d) := DictUpdate(data, info);
      data := d;
      if o.Raised? {
        return o;
      }
      data := data["open" := JBool(true)];
      var _ := SendCmd(GetConnectedUsers, None);
      joined := true;
      return Done;
    }

    /** `connectionAccepted`: `_, self.session_id = data["args"]`, the
        sidebar message, then `joinProject` with the project id. */
    method ConnectionAccepted(args: Json) returns (r: Outcome)
      requires Valid()
      modifies this`sessionId, this`data, this`counter, this`requests, this`sent
      ensures Elements(args).Err? ==> r == Raised(Elements(args).error)
      ensures Elements(args).Ok? && |Elements(args).value| != 2 ==> r == Raised("ValueError")
      ensures (Elements(args).Err? || |Elements(args).value| != 2) ==> unchanged(this)
      ensures Elements(args).Ok? && |Elements(args).value| == 2 ==>
        sessionId == Some(Elements(args).value[1]) &&
        ("id" !in old(data) ==>
           r == Raised("KeyError") && data == old(data)["msg" := JStr("Connection Active.")] &&
           counter == old(counter) && requests == old(requests) && sent == old(sent)) &&
        ("id" in old(data) ==>
           r == Done && data == old(data)["msg" := JStr("Connection Active.")] &&
           counter == old(counter) + 1 && NatToString(old(counter)) !in old(requests) &&
           requests == old(requests)[NatToString(old(counter)) := Request(Command.JoinProject(old(data)["id"]), None)] &&
           sent == old(sent) + [Cmd(old(counter), Command.JoinProject(old(data)["id"]))])
      ensures (r, Snapshot()) == ConnectionAcceptedStep(old(Snapshot()), args)
      ensures Valid()
    {
      var xs := Elements(args);
      if xs.Err? {
        return Raised(xs.error);
      }
      if |xs.value| != 2 {
        return Raised("ValueError");
      }
      sessionId := Some(xs.value[1]);
      data := data["msg" := JStr("Connection Active.")];
      if "id" !in data {
        return Raised("KeyError");
      }
      var _ := SendCmd(Command.JoinProject(data["id"]), None);
      return Done;
    }

    /** `clientUpdated`: every argument is merged into the cursor it
        names, in order, until one raises. */
    method ClientUpdated(args: Json) returns (r: Outcome)
      modifies this`cursors
      ensures Elements(args).Err? ==> r == Raised(Elements(args).error) && cursors == old(cursors)
      ensures Elements(args).Ok? ==> (r, cursors) == MergeUpdated(old(cursors), Elements(args).value)
      ensures (r, Snapshot()) == ClientUpdatedStep(old(Snapshot()), args)
    {
      var xs := Elements(args);
      if xs.Err? {
        return Raised(xs.error);
      }
      var items := xs.value;
      var t := cursors;
      var i := 0;
      while i < |items|
        invariant 0 <= i <= |items|
        invariant MergeUpdated(cursors, items) == MergeUpdated(t, items[i..])
      {
        assert items[i..][1..] == items[i + 1..];
        var step := UpdateOne(t, items[i]);
        if step.Err? {
          cursors := t;
          return Raised(step.error);
        }
        t := step.value;
        i := i + 1;
      }
      cursors := t;
      return Done;
    }

    /** `clientDisconnected`: every listed client is forgotten, in order,
        until an id raises; then `clearRemoteCursor(*args)`, which takes
        exactly one argument. */
    method ClientDisconnected(args: Json) returns (r: Outcome)
      modifies this`cursors
      ensures Elements(args).Err? ==> r == Raised(Elements(args).error) && cursors == old(cursors)
      ensures Elements(args).Ok? ==>
        var (o, t) := DropAll(old(cursors), Elements(args).value);
        cursors == t &&
        r == if o.Raised? then o else if |Elements(args).value| != 1 then Raised("TypeError") else Done
      ensures (r, Snapshot()) == ClientDisconnectedStep(old(Snapshot()), args)
    {
      var xs := Elements(args);
      if xs.Err? {
        return Raised(xs.error);
      }
      var ids := xs.value;
      var t := cursors;
      var o := Done;
      var i := 0;
      while i < |ids| && o.Done?
        invariant 0 <= i <= |ids|
        invariant o.Done? ==> DropAll(cursors, ids) == DropAll(t, ids[i..])
        invariant o.Raised? ==> DropAll(cursors, ids) == (o, t)
        decreases |ids| - i, o.Done?
      {
        assert ids[i..][1..] == ids[i + 1..];
        var step := DropOne(t, ids[i]);
        if step.Err? {
          o := Raised(step.error);
        } else {
          t := step.value;
          i := i + 1;
        }
      }
      assert (o, t) == DropAll(cursors, ids);
      cursors := t;
      r := if o.Raised? then o else if |ids| != 1 then Raised("TypeError") else Done;
    }

    /** `otUpdateApplied`: every packet of `data.get("args", [])` goes to
        the `applyUpdate` of the document it names, until one raises. */
    method OtUpdateApplied(value: Json) returns (r: Outcome)
      modifies this`documents
      ensures GetOr(value, "args", JList([])).Err? ==> r == Raised(GetOr(value, "args", JList([])).error) && documents == old(documents)
      ensures GetOr(value, "args", JList([])).Ok? && Elements(GetOr(value, "args", JList([])).value).Err? ==>
        r == Raised(Elements(GetOr(value, "args", JList([])).value).error) && documents == old(documents)
      ensures GetOr(value, "args", JList([])).Ok? && Elements(GetOr(value, "args", JList([])).value).Ok? ==>
        (r, documents) == ApplyAll(old(documents), Elements(GetOr(value, "args", JList([])).value).value)
      ensures (r, Snapshot()) == OtUpdateAppliedStep(old(Snapshot()), value)
    {
      var args := GetOr(value, "args", JList([]));
      if args.Err? {
        return Raised(args.error);
      }
      var xs := Elements(args.value);
      if xs.Err? {
        return Raised(xs.error);
      }
      var packets := xs.value;
      var docs := documents;
      var i := 0;
      while i < |packets|
        invariant 0 <= i <= |packets|
        invariant ApplyAll(documents, packets) == ApplyAll(docs, packets[i..])
      {
        assert packets[i..][1..] == packets[i + 1..];
        var d := Get(packets[i], "doc");
        if d.Err? {
          documents := docs;
          return Raised(d.error);
        }
        if !Hashable(d.value) {
          documents := docs;
          return Raised("TypeError");
        }
        if d.value.JStr? && d.value.s in docs {
          var id := d.value.s;
          docs := docs[id := docs[id].(updates := docs[id].updates + [packets[i]])];
        }
        i := i + 1;
      }
      documents := docs;
      return Done;
    }

    /** The thread events. Without fetched comments nothing is tracked;
        a `new-comment` for a comment this session is creating is left to
        its document; otherwise the comments are fetched again and a
        `resolve-thread` or `reopen-thread` sets the flag of the thread in
        every document that holds it. */
    method ThreadEvent(event: string, value: Json, fetched: Option<map<string, Json>>) returns (r: Outcome)
      requires event in ThreadEvents
      modifies this`comments, this`documents
      ensures old(comments).None? ==> r == Done && comments == old(comments) && documents == old(documents)
      ensures (old(comments).Some? && event == "new-comment" && ThreadArg(value).Ok? && Hashable(ThreadArg(value).value) &&
               ThreadArg(value).value.JStr? && ThreadArg(value).value.s in pendingComments) ==>
        comments == old(comments) && documents == old(documents) &&
        r == if pendingComments[ThreadArg(value).value.s].docId in documents then Done else Raised("KeyError")
      ensures old(comments).Some? && ThreadArg(value).Err? ==> r == Raised(ThreadArg(value).error) && documents == old(documents)
      ensures old(comments).Some? && ThreadArg(value).Ok? && (event != "new-comment" || PendingFor(ThreadArg(value).value, pendingComments) == Ok(false)) ==>
        comments == fetched &&
        (!Hashable(ThreadArg(value).value) && old(documents) != map[] ==> r == Raised("TypeError") && documents == old(documents)) &&
        (Hashable(ThreadArg(value).value) || old(documents) == map[] ==>
          r == Done && documents == MarkedAll(old(documents), ThreadArg(value).value, ResolvedBy(event)))
      ensures old(comments).Some? && event == "new-comment" && ThreadArg(value).Ok? && PendingFor(ThreadArg(value).value, pendingComments).Err? ==>
        r == Raised("TypeError") && comments == old(comments) && documents == old(documents)
      ensures (r, Snapshot()) == ThreadEventStep(old(Snapshot()), event, value, fetched)
    {
      if comments.None? {
        return Done;
      }
      var tid := ThreadArg(value);
      if event == "new-comment" {
        if tid.Err? {
          return Raised(tid.error);
        }
        var pending := PendingFor(tid.value, pendingComments);
        if pending.Err? {
          return Raised(pending.error);
        }
        if pending.value {
          if pendingComments[tid.value.s].docId !in documents {
            return Raised("KeyError");
          }
          return Done;
        }
      }
      comments := fetched;
      if tid.Err? {
        return Raised(tid.error);
      }
      if !Hashable(tid.value) && documents != map[] {
        return Raised("TypeError");
      }
      var resolved := ResolvedBy(event);
      if !tid.value.JStr? || resolved.None? {
        return Done;
      }
      documents := MarkEvery(documents, tid.value.s, resolved);
      return Done;
    }

    /** `accept-changes` (and every name the substring test lets
        through): only the document lookup, which may raise. */
    method AcceptChanges(value: Json) returns (r: Outcome)
      ensures var id := ThreadArg(value);
        r == Done <==> id.Ok? && id.value.JStr? && id.value.s in documents
      ensures var id := ThreadArg(value);
        id.Ok? && Hashable(id.value) && !(id.value.JStr? && id.value.s in documents) ==> r == Raised("KeyError")
      ensures var id := ThreadArg(value);
        (id.Err? ==> r == Raised(id.error)) && (id.Ok? && !Hashable(id.value) ==> r == Raised("TypeError"))
      ensures r == AcceptLookup(value, documents)
    {
      r := AcceptLookup(value, documents);
    }

    /** A code 6 frame: the answer to the request its id names. */
    method OnAnswer(answerId: Option<string>, value: Json, fetched: Option<map<string, Json>>) returns (r: Outcome)
      requires Valid()
      modifies this`data, this`joined, this`counter, this`requests, this`sent, this`documents, this`released, this`pendingComments, this`comments, this`cursors
      ensures answerId.None? || answerId.value !in old(requests) ==> r == Raised("KeyError")
      ensures (answerId.None? || answerId.value !in old(requests)) ==> unchanged(this)
      ensures (r, Snapshot()) == AnswerStep(old(Snapshot()), answerId, value, fetched)
      ensures Valid()
    {
      if answerId.None? || answerId.value !in requests {
        return Raised("KeyError");
      }
      var key := answerId.value;
      var request := requests[key];
      match request.cmd
      case JoinProject(_) =>
        var info := At(value, 1);
        if info.Err? {
          return Raised(info.error);
        }
        r := JoinProject(info.value);
      case JoinDoc(id) =>
        r := JoinDocAnswer(id, value);
      case ApplyOtUpdate(_, _) =>
        r := AckUpdate(key, fetched);
      case GetConnectedUsers =>
        r := ConnectedUsers(value);
    }

    /** The answer to `joinDoc`: the lines `data[1]` are written to the
        document, its version becomes `data[2]`, and `data[4]` must be an
        object (its comments and changes go to the highlighting). */
    method JoinDocAnswer(id: string, value: Json) returns (r: Outcome)
      modifies this`documents
      ensures documents.Keys == old(documents).Keys
      ensures r.Done? <==>
        (JoinDocLines(value).Ok? && id in old(documents) && At(value, 2).Ok? && At(value, 2).value.JInt? &&
         At(value, 4).Ok? && GetOr(At(value, 4).value, "comments", JList([])).Ok?)
      ensures r.Done? ==> documents == old(documents)[id := old(documents)[id].(lines := JoinDocLines(value).value,
                                                                               version := At(value, 2).value.n)]
      ensures JoinDocLines(value).Err? ==> documents == old(documents)
      ensures JoinDocLines(value).Ok? && id in old(documents) && !r.Done? ==>
        documents[id].lines == JoinDocLines(value).value && documents[id].opsBuffer == old(documents)[id].opsBuffer &&
        documents[id].threads == old(documents)[id].threads
      ensures (r, Snapshot()) == JoinDocAnswerStep(old(Snapshot()), id, value)
    {
      var lines := JoinDocLines(value);
      if lines.Err? {
        return Raised(lines.error);
      }
      if id in documents {
        documents := documents[id := documents[id].(lines := lines.value)];
      }
      var v := At(value, 2);
      if v.Err? {
        return Raised(v.error);
      }
      if id !in documents {
        return Raised("KeyError");
      }
      if !v.value.JInt? {
        return Raised("TypeError");
      }
      documents := documents[id := documents[id].(version := v.value.n)];
      var extra := At(value, 4);
      if extra.Err? {
        return Raised(extra.error);
      }
      var threads := GetOr(extra.value, "comments", JList([]));
      if threads.Err? {
        return Raised(threads.error);
      }
      return Done;
    }

    /** The answer to `applyOtUpdate`: the document's version goes up by
        one, the waiting `_sendOps` is released, the request is deleted,
        and the comment ops of the batch are recorded. */
    method AckUpdate(key: string, fetched: Option<map<string, Json>>) returns (r: Outcome)
      requires Valid() && key in requests && requests[key].cmd.ApplyOtUpdate?
      modifies this`documents, this`requests, this`released, this`pendingComments, this`comments
      ensures old(requests)[key].cmd.docId !in old(documents) ==> r == Raised("KeyError")
      ensures (old(requests)[key].cmd.docId !in old(documents)) ==> unchanged(this)
      ensures var id := old(requests)[key].cmd.docId;
        id in old(documents) && old(requests)[key].event.None? ==>
        r == Raised("AttributeError") &&
        documents == old(documents)[id := old(documents)[id].(version := old(documents)[id].version + 1)]
      ensures (old(requests)[key].cmd.docId in old(documents) && old(requests)[key].event.None?) ==> unchanged(this`requests, this`released, this`pendingComments, this`comments)
      ensures var req := old(requests)[key]; var id := req.cmd.docId;
        id in old(documents) && req.event.Some? ==>
        var doc := old(documents)[id];
        var (o, pend, threads) := AckComments(old(pendingComments), doc.threads, req.cmd.update.op);
        released == old(released) + {req.event.value} && requests == old(requests) - {key} &&
        r == o && pendingComments == pend &&
        documents == old(documents)[id := doc.(version := doc.version + 1, threads := threads)] &&
        comments == if o.Done? && HasComment(req.cmd.update.op) then fetched else old(comments)
      ensures (r, Snapshot()) == AckUpdateStep(old(Snapshot()), key, fetched)
      ensures Valid()
    {
      var request := requests[key];
      var id := request.cmd.docId;
      if id !in documents {
        return Raised("KeyError");
      }
      var doc := documents[id].(version := documents[id].version + 1);
      if request.event.None? {
        documents := documents[id := doc];
        return Raised("AttributeError");
      }
      released := released + {request.event.value};
      requests := requests - {key};
      r := RecordComments(id, doc, request.cmd.update.op, fetched);
    }

    /** The loop over the ops of an acknowledged batch: each comment op
        leaves the pending comments and is recorded in the threads of the
        document (given with its new version); a comment op without a
        thread raises. The comments are fetched again when the batch held
        a comment. */
    method RecordComments(id: string, doc: DocEntry, ops: seq<Op>, fetched: Option<map<string, Json>>) returns (r: Outcome)
      modifies this`pendingComments, this`documents, this`comments
      ensures var (o, pend, threads) := AckComments(old(pendingComments), doc.threads, ops);
        r == o && pendingComments == pend && documents == old(documents)[id := doc.(threads := threads)] &&
        comments == if o.Done? && HasComment(ops) then fetched else old(comments)
      ensures (r, Snapshot()) == RecordCommentsStep(old(Snapshot()), id, doc, ops, fetched)
    {
      var pend := pendingComments;
      var threads := doc.threads;
      var i := 0;
      while i < |ops|
        invariant 0 <= i <= |ops|
        invariant AckComments(pendingComments, doc.threads, ops) == AckComments(pend, threads, ops[i..])
      {
        assert ops[i..][1..] == ops[i + 1..];
        var op := ops[i];
        if op.c.Some? {
          if op.t.None? {
            pendingComments := pend;
            documents := documents[id := doc.(threads := threads)];
            return Raised("KeyError");
          }
          pend := pend - {op.t.value};
          threads := threads[op.t.value := ThreadEntry(op.t.value, op, None)];
        }
        i := i + 1;
      }
      pendingComments := pend;
      documents := documents[id := doc.(threads := threads)];
      if HasComment(ops) {
        comments := fetched;
      }
      return Done;
    }

    /** The answer to `getConnectedUsers`: every user of `data[1]` is
        stored under its client id with its `cursorData` flattened, until
        one raises. The request stays in the table. */
    method ConnectedUsers(value: Json) returns (r: Outcome)
      modifies this`cursors
      ensures At(value, 1).Err? ==> r == Raised(At(value, 1).error) && cursors == old(cursors)
      ensures At(value, 1).Ok? && Elements(At(value, 1).value).Err? ==> r == Raised(Elements(At(value, 1).value).error) && cursors == old(cursors)
      ensures At(value, 1).Ok? && Elements(At(value, 1).value).Ok? ==> (r, cursors) == AddUsers(old(cursors), Elements(At(value, 1).value).value)
      ensures (r, Snapshot()) == ConnectedUsersStep(old(Snapshot()), value)
    {
      var users := At(value, 1);
      if users.Err? {
        return Raised(users.error);
      }
      var xs := Elements(users.value);
      if xs.Err? {
        return Raised(xs.error);
      }
      var items := xs.value;
      var t := cursors;
      var i := 0;
      while i < |items|
        invariant 0 <= i <= |items|
        invariant AddUsers(cursors, items) == AddUsers(t, items[i..])
      {
        assert items[i..][1..] == items[i + 1..];
        var step := AddUser(t, items[i]);
        if step.Err? {
          cursors := t;
          return Raised(step.error);
        }
        t := step.value;
        i := i + 1;
      }
      cursors := t;
      return Done;
    }

    /** `resolveComment` (`resolved`) and `reopenComment` (`!resolved`):
        the flag is set in the comment's entry when there is one; the
        request to the server is not modelled. */
    method SetResolved(thread: string, resolved: bool) returns (r: Outcome)
      modifies this`comments
      ensures old(comments).None? ==> r == Raised("AttributeError") && comments == old(comments)
      ensures old(comments).Some? && thread !in old(comments).value ==> r == Done && comments == old(comments)
      ensures old(comments).Some? && thread in old(comments).value && old(comments).value[thread].JObj? ==>
        r == Done &&
        comments == Some(old(comments).value[thread := JObj(old(comments).value[thread].entries + [("resolved", JBool(resolved))])])
      ensures old(comments).Some? && thread in old(comments).value && !old(comments).value[thread].JObj? ==>
        r == Raised("TypeError") && comments == old(comments)
    {
      if comments.None? {
        return Raised("AttributeError");
      }
      var all := comments.value;
      if thread !in all {
        return Done;
      }
      var entry := all[thread];
      if !entry.JObj? {
        return Raised("TypeError");
      }
      comments := Some(all[thread := JObj(entry.entries + [("resolved", JBool(resolved))])]);
      return Done;
    }

    /** `createComment`: the interval popped from the document's comment
        selection gives the position and the highlighted text; with both a
        content and a highlight, the comment shows as pending and is
        remembered until the server acknowledges its op. */
    method CreateComment(thread: string, docId: string, content: string, timestamp: Json)
      returns (r: Outcome, picked: Option<(int, int)>)
      modifies this`comments, this`pendingComments
      ensures docId !in old(documents) || old(documents)[docId].selection == {} ==>
        r == Raised("KeyError") && picked == None && comments == old(comments) && pendingComments == old(pendingComments)
      ensures docId in old(documents) && old(documents)[docId].selection != {} ==>
        picked.Some? && picked.value in old(documents)[docId].selection &&
        var highlight := Slice(Text(old(documents)[docId].lines), picked.value.0, picked.value.1);
        (content == [] || highlight == [] ==> r == Done && comments == old(comments) && pendingComments == old(pendingComments)) &&
        (content != [] && highlight != [] && old(comments).None? ==>
          r == Raised("TypeError") && comments == old(comments) && pendingComments == old(pendingComments)) &&
        (content != [] && highlight != [] && old(comments).Some? ==>
          r == Done && comments == Some(old(comments).value[thread := PendingThread(content, timestamp)]) &&
          pendingComments == old(pendingComments)[thread := Pending(docId, picked.value.0, highlight)])
    {
      if docId !in documents {
        return Raised("KeyError"), None;
      }
      var doc := documents[docId];
      if doc.selection == {} {
        return Raised("KeyError"), None;
      }
      var interval :| interval in doc.selection;
      picked := Some(interval);
      var highlight := Slice(Text(doc.lines), interval.0, interval.1);
      if content == [] || highlight == [] {
        return Done, picked;
      }
      if comments.None? {
        return Raised("TypeError"), picked;
      }
      comments := Some(comments.value[thread := PendingThread(content, timestamp)]);
      pendingComments := pendingComments[thread := Pending(docId, interval.0, highlight)];
      return Done, picked;
    }
  }

  /** The attributes of an `AirLatexProject` as one value: what the
      session holds between two steps of its coroutines. */
  datatype Session = Session(name: Json, data: map<string, Json>, counter: nat, requests: map<string, Request>,
                             cursors: Table, documents: map<string, DocEntry>, pendingComments: map<string, Pending>,
                             comments: Option<map<string, Json>>, queue: seq<QueueEntry>, batch: seq<Batch>,
                             changed: bool, waitFor: Option<PyValue>, sessionId: Option<Json>, joined: bool,
                             sent: seq<Wire>, events: nat, released: set<nat>)

  /** `data.get("connected")` is true. */
  predicate Live(data: map<string, Json>)
  {
    "connected" in data && Truthy(data["connected"])
  }

  /** The session after `disconnect(msg)`. */
  function Disconnected(s: Session, msg: string, openBuffers: nat): Session
  {
    s.(data := ClosedData(s.data, msg, openBuffers), queue := s.queue + [Close])
  }

  /** The session after `send("cmd", cmd)`: the request is stored under the
      counter's next id and the frame is written. */
  function WithCmd(s: Session, cmd: Command, event: Option<nat>): Session
  {
    s.(counter := s.counter + 1, requests := s.requests[NatToString(s.counter) := Request(cmd, event)],
       sent := s.sent + [Cmd(s.counter, cmd)])
  }

  /** `joinProject(info)`. */
  function JoinProjectStep(s: Session, info: Json): (Outcome, Session)
  {
    var (o, d) := DictUpdate(s.data, info);
    if o.Raised? then (o, s.(data := d))
    else (Done, WithCmd(s.(data := d["open" := JBool(true)]), GetConnectedUsers, None).(joined := true))
  }

  /** `connectionAccepted` with its arguments. */
  function ConnectionAcceptedStep(s: Session, args: Json): (Outcome, Session)
  {
    match Elements(args)
    case Err(e) => (Raised(e), s)
    case Ok(xs) =>
      if |xs| != 2 then (Raised("ValueError"), s)
      else
        var s1 := s.(sessionId := Some(xs[1]), data := s.data["msg" := JStr("Connection Active.")]);
        if "id" !in s1.data then (Raised("KeyError"), s1)
        else (Done, WithCmd(s1, Command.JoinProject(s1.data["id"]), None))
  }

  /** `clientUpdated` with its arguments. */
  function ClientUpdatedStep(s: Session, args: Json): (Outcome, Session)
  {
    match Elements(args)
    case Err(e) => (Raised(e), s)
    case Ok(xs) => var (o, t) := MergeUpdated(s.cursors, xs); (o, s.(cursors := t))
  }

  /** `clientDisconnected` with its arguments. */
  function ClientDisconnectedStep(s: Session, args: Json): (Outcome, Session)
  {
    match Elements(args)
    case Err(e) => (Raised(e), s)
    case Ok(xs) =>
      var (o, t) := DropAll(s.cursors, xs);
      (if o.Raised? then o else if |xs| != 1 then Raised("TypeError") else Done, s.(cursors := t))
  }

  /** `otUpdateApplied`. */
  function OtUpdateAppliedStep(s: Session, value: Json): (Outcome, Session)
  {
    match GetOr(value, "args", JList([]))
    case Err(e) => (Raised(e), s)
    case Ok(args) =>
      match Elements(args)
      case Err(e) => (Raised(e), s)
      case Ok(xs) => var (o, d) := ApplyAll(s.documents, xs); (o, s.(documents := d))
  }

  /** `otUpdateError`. */
  function OtUpdateErrorStep(s: Session, value: Json, openBuffers: nat): (Outcome, Session)
  {
    match ThreadArg(value)
    case Err(e) => (Raised(e), s)
    case Ok(first) => (Done, Disconnected(s, "Error occured on operation Update: " + JsonText(first), openBuffers))
  }

  /** A thread event. */
  function ThreadEventStep(s: Session, event: string, value: Json, fetched: Option<map<string, Json>>): (Outcome, Session)
  {
    var tid := ThreadArg(value);
    if s.comments.None? then (Done, s)
    else if event == "new-comment" && tid.Err? then (Raised(tid.error), s)
    else if event == "new-comment" && PendingFor(tid.value, s.pendingComments).Err? then (Raised("TypeError"), s)
    else if event == "new-comment" && PendingFor(tid.value, s.pendingComments) == Ok(true) then
      (if s.pendingComments[tid.value.s].docId in s.documents then Done else Raised("KeyError"), s)
    else
      var s1 := s.(comments := fetched);
      if tid.Err? then (Raised(tid.error), s1)
      else if !Hashable(tid.value) && s.documents != map[] then (Raised("TypeError"), s1)
      else (Done, s1.(documents := MarkedAll(s.documents, tid.value, ResolvedBy(event))))
  }

  /** The branch of a code 5 message with its name classified. */
  function NamedStep(s: Session, kind: MessageName, value: Json, msg: string, fetched: Option<map<string, Json>>,
                     openBuffers: nat): (Outcome, Session)
  {
    match kind
    case JoinResponse =>
      (match ThreadArg(value)
       case Err(e) => (Raised(e), s)
       case Ok(first) =>
         match Get(first, "project")
         case Err(e) => (Raised(e), s)
         case Ok(project) => JoinProjectStep(s, project))
    case Accepted =>
      (match Get(value, "args") case Err(e) => (Raised(e), s) case Ok(args) => ConnectionAcceptedStep(s, args))
    case DocMeta => (Done, s)
    case CursorUpdated =>
      (match Get(value, "args") case Err(e) => (Raised(e), s) case Ok(args) => ClientUpdatedStep(s, args))
    case CursorGone =>
      (match Get(value, "args") case Err(e) => (Raised(e), s) case Ok(args) => ClientDisconnectedStep(s, args))
    case UpdateApplied => OtUpdateAppliedStep(s, value)
    case UpdateError => OtUpdateErrorStep(s, value, openBuffers)
    case ThreadChange(event) => ThreadEventStep(s, event, value, fetched)
    case Accept => (AcceptLookup(value, s.documents), s)
    case Unknown => (Done, s.(data := s.data["msg" := JStr("Data not known: " + msg)]))
  }

  /** A code 5 frame: the message's name picks the branch. */
  function ServerMessageStep(s: Session, value: Json, msg: string, fetched: Option<map<string, Json>>, openBuffers: nat)
    : (Outcome, Session)
  {
    match Get(value, "name")
    case Err(e) => (Raised(e), s)
    case Ok(n) => if !n.JStr? then (Raised("TypeError"), s) else NamedStep(s, Classify(n.s), value, msg, fetched, openBuffers)
  }

  /** The answer to `joinDoc` for document `id`. */
  function JoinDocAnswerStep(s: Session, id: string, value: Json): (Outcome, Session)
  {
    match JoinDocLines(value)
    case Err(e) => (Raised(e), s)
    case Ok(lines) =>
      var s1 := if id in s.documents then s.(documents := s.documents[id := s.documents[id].(lines := lines)]) else s;
      match At(value, 2)
      case Err(e) => (Raised(e), s1)
      case Ok(v) =>
        if id !in s1.documents then (Raised("KeyError"), s1)
        else if !v.JInt? then (Raised("TypeError"), s1)
        else
          var s2 := s1.(documents := s1.documents[id := s1.documents[id].(version := v.n)]);
          match At(value, 4)
          case Err(e) => (Raised(e), s2)
          case Ok(extra) =>
            match GetOr(extra, "comments", JList([]))
            case Err(e) => (Raised(e), s2)
            case Ok(_) => (Done, s2)
  }

  /** The comment ops of an acknowledged batch recorded for document `id`,
      given with its new version. */
  function RecordCommentsStep(s: Session, id: string, doc: DocEntry, ops: seq<Op>, fetched: Option<map<string, Json>>)
    : (Outcome, Session)
  {
    var (o, pend, threads) := AckComments(s.pendingComments, doc.threads, ops);
    (o, s.(pendingComments := pend, documents := s.documents[id := doc.(threads := threads)],
           comments := if o.Done? && HasComment(ops) then fetched else s.comments))
  }

  /** The answer to the `applyOtUpdate` stored under `key`. */
  function AckUpdateStep(s: Session, key: string, fetched: Option<map<string, Json>>): (Outcome, Session)
    requires key in s.requests && s.requests[key].cmd.ApplyOtUpdate?
  {
    var req := s.requests[key];
    var id := req.cmd.docId;
    if id !in s.documents then (Raised("KeyError"), s)
    else
      var doc := s.documents[id].(version := s.documents[id].version + 1);
      if req.event.None? then (Raised("AttributeError"), s.(documents := s.documents[id := doc]))
      else RecordCommentsStep(s.(released := s.released + {req.event.value}, requests := s.requests - {key}),
                              id, doc, req.cmd.update.op, fetched)
  }

  /** The answer to `getConnectedUsers`. */
  function ConnectedUsersStep(s: Session, value: Json): (Outcome, Session)
  {
    match At(value, 1)
    case Err(e) => (Raised(e), s)
    case Ok(users) =>
      match Elements(users)
      case Err(e) => (Raised(e), s)
      case Ok(xs) => var (o, t) := AddUsers(s.cursors, xs); (o, s.(cursors := t))
  }

  /** A code 6 frame: the stored request its id names picks the branch. */
  function AnswerStep(s: Session, answerId: Option<string>, value: Json, fetched: Option<map<string, Json>>): (Outcome, Session)
  {
    if answerId.None? || answerId.value !in s.requests then (Raised("KeyError"), s)
    else
      var key := answerId.value;
      match s.requests[key].cmd
      case JoinProject(_) =>
        (match At(value, 1) case Err(e) => (Raised(e), s) case Ok(info) => JoinProjectStep(s, info))
      case JoinDoc(id) => JoinDocAnswerStep(s, id, value)
      case ApplyOtUpdate(_, _) => AckUpdateStep(s, key, fetched)
      case GetConnectedUsers => ConnectedUsersStep(s, value)
  }

  /** A frame with another code. */
  function StatusFrameStep(s: Session, code: char, msg: string, openBuffers: nat, settingsUrl: string): Session
  {
    if code == '0' then Disconnected(s, ServerClosed, openBuffers)
    else if code == '1' then s.(data := s.data["await" := JBool(false)])
    else if code == '7' then s.(data := s.data["msg" := JStr(Unauthorized(settingsUrl))])
    else if code != '2' then s.(data := s.data["msg" := JStr("Unknown Code: " + msg)])
    else s
  }

  /** One frame of the `run` loop, dispatched on its code. */
  function FrameStep(s: Session, msg: string, decoded: Option<Json>, fetched: Option<map<string, Json>>, openBuffers: nat,
                     settingsUrl: string): (Outcome, Session)
  {
    match Parse(msg)
    case None => (Raised("AttributeError"), s)
    case Some(f) =>
      var value := PayloadValue(f.payload, decoded);
      if f.code == '5' then ServerMessageStep(s, value, msg, fetched, openBuffers)
      else if f.code == '6' then AnswerStep(s, f.answerId, value, fetched)
      else (Done, StatusFrameStep(s, f.code, msg, openBuffers, settingsUrl))
  }

  /** One turn of the `run` loop: a frame is read only while connected,
      and an exception disconnects the project. The result says whether
      the loop goes on. */
  function ReceiveStep(s: Session, msg: string, decoded: Option<Json>, fetched: Option<map<string, Json>>, openBuffers: nat,
                       settingsUrl: string): (bool, Session)
  {
    if !Live(s.data) then (false, s)
    else
      var (r, t) := FrameStep(s, msg, decoded, fetched, openBuffers, settingsUrl);
      var u := if r.Raised? then Disconnected(t, LoopFailed(r.error), openBuffers) else t;
      (Live(u.data), u)
  }

  /** The answer to a stored `applyOtUpdate`, `6:::<id>+<json>`, releases
      the flush round waiting for it, forgets the request and bumps the
      document's version, whatever the payload; it raises exactly when a
      comment op of the batch names no thread. */
  lemma AckFrameReleases(s: Session, id: nat, json: string, decoded: Option<Json>, fetched: Option<map<string, Json>>,
                         openBuffers: nat, settingsUrl: string)
    requires '\n' !in json
    requires NatToString(id) in s.requests && s.requests[NatToString(id)].cmd.ApplyOtUpdate?
    requires s.requests[NatToString(id)].event.Some? && s.requests[NatToString(id)].cmd.docId in s.documents
    ensures var req := s.requests[NatToString(id)];
      var (r, t) := FrameStep(s, "6:::" + NatToString(id) + "+" + json, decoded, fetched, openBuffers, settingsUrl);
      (r == Done <==> ThreadsNamed(req.cmd.update.op)) &&
      t.released == s.released + {req.event.value} && t.requests == s.requests - {NatToString(id)} &&
      req.cmd.docId in t.documents &&
      t.documents[req.cmd.docId].version == s.documents[req.cmd.docId].version + 1 &&
      t.documents[req.cmd.docId].lines == s.documents[req.cmd.docId].lines &&
      t.data == s.data && t.cursors == s.cursors && t.sent == s.sent && t.counter == s.counter
  {
    AckParses(id, json);
    var req := s.requests[NatToString(id)];
    var doc := s.documents[req.cmd.docId];
    AckCommentsMeaning(s.pendingComments, doc.threads, req.cmd.update.op);
  }

  /** An answer whose id names no stored request raises `KeyError` in
      `run`, which disconnects the project and ends the loop. */
  lemma StrayAnswerDisconnects(s: Session, id: nat, json: string, decoded: Option<Json>,
                               fetched: Option<map<string, Json>>, openBuffers: nat, settingsUrl: string)
    requires '\n' !in json && Live(s.data) && NatToString(id) !in s.requests
    ensures ReceiveStep(s, "6:::" + NatToString(id) + "+" + json, decoded, fetched, openBuffers, settingsUrl) ==
      (false, Disconnected(s, LoopFailed("KeyError"), openBuffers))
  {
    AckParses(id, json);
  }

  /** A `clientTracking.clientUpdated` message, `5:::<json>`, merges its
      arguments into the cursor table and changes nothing else. */
  lemma CursorFrameMerges(s: Session, json: string, value: Json, xs: seq<Json>, fetched: Option<map<string, Json>>,
                          openBuffers: nat, settingsUrl: string)
    requires PlainJson(json) && json != ""
    requires Get(value, "name") == Ok(JStr("clientTracking.clientUpdated")) && Get(value, "args") == Ok(JList(xs))
    ensures FrameStep(s, UpdateFrame(json), Some(value), fetched, openBuffers, settingsUrl) ==
      (MergeUpdated(s.cursors, xs).0, s.(cursors := MergeUpdated(s.cursors, xs).1))
  {
    UpdateParses(json);
  }

  /** The name `run` tests with `in`, which on strings is a substring
      test. */
  const AcceptChangesName: string := "accept-changes"

  /** The names of the thread events. */
  const ThreadEvents: seq<string> := ["resolve-thread", "new-comment", "edit-message", "delete-message", "reopen-thread"]

  /** The branches of `run` for a code 5 message, by its name. */
  datatype MessageName =
    | JoinResponse | Accepted | DocMeta | CursorUpdated | CursorGone | UpdateApplied | UpdateError
    | ThreadChange(event: string) | Accept | Unknown

  /** The branch a message name takes: the names are compared in the order
      of `run`, and the last comparison is the substring test. */
  function Classify(name: string): (k: MessageName)
    ensures k.ThreadChange? ==> k.event == name && name in ThreadEvents
    ensures k.Unknown? ==> name !in ThreadEvents && !IsSubstring(name, AcceptChangesName)
  {
    if name == "joinProjectResponse" then JoinResponse
    else if name == "connectionAccepted" then Accepted
    else if name == "broadcastDocMeta" then DocMeta
    else if name == "clientTracking.clientUpdated" then CursorUpdated
    else if name == "clientTracking.clientDisconnected" then CursorGone
    else if name == "otUpdateApplied" then UpdateApplied
    else if name == "otUpdateError" then UpdateError
    else if name in ThreadEvents then ThreadChange(name)
    else if IsSubstring(name, AcceptChangesName) then Accept
    else Unknown
  }

  /** `data["args"][0]`: the first argument of a message. */
  function ThreadArg(value: Json): Result<Json>
  {
    match Get(value, "args")
    case Err(e) => Err(e)
    case Ok(args) => At(args, 0)
  }

  /** `thread in self.pending_comments`. */
  function PendingFor(thread: Json, pending: map<string, Pending>): Result<bool>
  {
    if !Hashable(thread) then Err("TypeError") else Ok(thread.JStr? && thread.s in pending)
  }

  /** The flag a thread event sets: resolved, reopened, or none. */
  function ResolvedBy(event: string): Option<bool>
  {
    if event == "resolve-thread" then Some(true)
    else if event == "reopen-thread" then Some(false)
    else None
  }

  /** Every document after a thread event for `tid`. */
  function MarkedAll(docs: map<string, DocEntry>, tid: Json, resolved: Option<bool>): map<string, DocEntry>
  {
    if tid.JStr? then map d | d in docs :: Marked(docs[d], tid.s, resolved) else docs
  }

  /** The loop over `self.documents` that flips one thread's flag in every
      document holding it. */
  method MarkEvery(documents: map<string, DocEntry>, tid: string, resolved: Option<bool>)
    returns (docs: map<string, DocEntry>)
    ensures docs == MarkedAll(documents, JStr(tid), resolved)
  {
    docs := documents;
    var todo := documents.Keys;
    while todo != {}
      invariant todo <= documents.Keys && docs.Keys == documents.Keys
      invariant forall d :: d in docs ==> docs[d] == if d in todo then documents[d] else Marked(documents[d], tid, resolved)
      decreases todo
    {
      var d :| d in todo;
      docs := docs[d := Marked(docs[d], tid, resolved)];
      todo := todo - {d};
    }
  }

  /** `self.documents[data["args"][0]]`. */
  function AcceptLookup(value: Json, documents: map<string, DocEntry>): Outcome
  {
    match ThreadArg(value)
    case Err(e) => Raised(e)
    case Ok(id) =>
      if !Hashable(id) then Raised("TypeError")
      else if id.JStr? && id.s in documents then Done
      else Raised("KeyError")
  }

  /** `[d.encode("latin1").decode("utf8") for d in data[1]]`: only strings
      have `encode`. */
  function JoinDocLines(value: Json): Result<seq<string>>
  {
    match At(value, 1)
    case Err(e) => Err(e)
    case Ok(l) =>
      match Elements(l)
      case Err(e) => Err(e)
      case Ok(xs) =>
        if forall k :: 0 <= k < |xs| ==> xs[k].JStr? then Ok(seq(|xs|, k requires 0 <= k < |xs| => xs[k].s))
        else Err("AttributeError")
  }

  /** The entry `createComment` shows until the server confirms. */
  function PendingThread(content: string, timestamp: Json): Json
  {
    JObj([("messages", JList([JObj([("user", JObj([("first_name", JStr("** (pending)"))])),
                                    ("content", JStr(content)), ("timestamp", timestamp)])]))])
  }
}
