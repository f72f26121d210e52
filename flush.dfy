/** The batching of `sendOps_flush` in project.py. `sendOps` queues one
    entry per `writeBuffer` of a document; the flush loop waits for the
    first entry, takes the entries queued behind it at that moment, and
    coalesces them per document before sending: the ops of a document are
    concatenated in arrival order, the content hash and the track flag of
    its last entry win, and the documents go out in the order in which
    they first arrived (Python dictionaries keep insertion order). The
    close sentinel that `disconnect` queues ends the loop at once, and the
    ops gathered before it are dropped. */
module Flush {
  import opened Base
  import opened Ops

  /** One `ops_queue` entry `(document_id, content_hash, ops, track,
      close)`; `Close` is `(None, None, None, None, True)`. */
  datatype QueueEntry = Entry(docId: string, hash: string, ops: seq<Op>, track: bool) | Close

  /** The index of the first close sentinel, or the length when there is
      none. */
  function CloseIndex(s: seq<QueueEntry>): (k: nat)
    ensures k <= |s| && (k < |s| ==> s[k] == Close)
    ensures forall j :: 0 <= j < k ==> s[j].Entry?
    decreases |s|
  {
    if s == [] || s[0] == Close then 0 else 1 + CloseIndex(s[1..])
  }

  /** The ids of the documents with an entry in `s`. */
  function Ids(s: seq<QueueEntry>): set<string>
    decreases |s|
  {
    if s == [] then {}
    else
      var e := s[|s| - 1];
      Ids(s[..|s| - 1]) + (if e.Entry? then {e.docId} else {})
  }

  /** Ids holds exactly the documents that some entry names. */
  lemma {:induction false} IdsNamed(s: seq<QueueEntry>, k: nat)
    requires k < |s| && s[k].Entry?
    ensures s[k].docId in Ids(s)
    decreases |s|
  {
    if k < |s| - 1 {
      assert s[..|s| - 1][k] == s[k];
      IdsNamed(s[..|s| - 1], k);
    }
  }

  /** The documents in the order of their first entry. */
  function Arrivals(s: seq<QueueEntry>): seq<string>
    decreases |s|
  {
    if s == [] then []
    else
      var r := Arrivals(s[..|s| - 1]);
      var e := s[|s| - 1];
      if e.Close? || e.docId in r then r else r + [e.docId]
  }

  /** The ops of document `d`, in arrival order. */
  function OpsOf(s: seq<QueueEntry>, d: string): seq<Op>
    decreases |s|
  {
    if s == [] then []
    else
      var e := s[|s| - 1];
      OpsOf(s[..|s| - 1], d) + (if e.Entry? && e.docId == d then e.ops else [])
  }

  /** The content hash and track flag of the last entry of `d`. */
  function LastPayload(s: seq<QueueEntry>, d: string): Option<(string, bool)>
    decreases |s|
  {
    if s == [] then None
    else
      var e := s[|s| - 1];
      if e.Entry? && e.docId == d then Some((e.hash, e.track)) else LastPayload(s[..|s| - 1], d)
  }

  /** Every document with an entry is listed exactly once. */
  lemma {:induction false} ArrivalsDistinct(s: seq<QueueEntry>)
    ensures forall i, j :: 0 <= i < j < |Arrivals(s)| ==> Arrivals(s)[i] != Arrivals(s)[j]
    ensures forall d :: d in Arrivals(s) <==> d in Ids(s)
    ensures forall d :: d in Arrivals(s) <==> LastPayload(s, d).Some?
    decreases |s|
  {
    if s != [] {
      var p := s[..|s| - 1];
      ArrivalsDistinct(p);
    }
  }

  /** First-arrival order: when `a` is listed before `b`, `a` had already
      arrived before any entry of `b`. */
  lemma {:induction false} ArrivalsInOrder(s: seq<QueueEntry>, i: nat, j: nat, k: nat)
    requires i < j < |Arrivals(s)|
    requires k < |s| && s[k].Entry? && s[k].docId == Arrivals(s)[j]
    ensures Arrivals(s)[i] in Arrivals(s[..k])
    decreases |s|
  {
    var p := s[..|s| - 1];
    var r := Arrivals(p);
    ArrivalsDistinct(p);
    if k == |s| - 1 {
      if s[k].docId in r {
        var k' := Index(p, s[k].docId);
        ArrivalsInOrder(p, i, j, k');
        assert p[..k'] == s[..k'];
        ArrivalsPrefix(s, k', k);
      } else {
        assert s[..k] == p;
      }
    } else {
      assert p[k] == s[k];
      IdsNamed(p, k);
      assert Arrivals(s) == r || (Arrivals(s) == r + [s[|s| - 1].docId] && s[|s| - 1].docId !in r);
      assert Arrivals(s)[i] == r[i] && Arrivals(s)[j] == r[j];
      ArrivalsInOrder(p, i, j, k);
      assert p[..k] == s[..k];
    }
  }

  /** The index of an entry of `d`, which has arrived in `s`. */
  ghost function Index(s: seq<QueueEntry>, d: string): (k: nat)
    requires d in Ids(s)
    ensures k < |s| && s[k].Entry? && s[k].docId == d
    decreases |s|
  {
    var e := s[|s| - 1];
    if e.Entry? && e.docId == d then |s| - 1
    else
      var k := Index(s[..|s| - 1], d);
      assert s[k] == s[..|s| - 1][k];
      k
  }

  /** Arrivals of a prefix stay arrivals of a longer prefix. */
  lemma {:induction false} ArrivalsPrefix(s: seq<QueueEntry>, m: nat, n: nat)
    requires m <= n <= |s|
    ensures forall d :: d in Arrivals(s[..m]) ==> d in Arrivals(s[..n])
    decreases n - m
  {
    if m < n {
      ArrivalsPrefix(s, m, n - 1);
      assert s[..n][..n - 1] == s[..n - 1];
    }
  }

  /** The ops of a document over two runs of entries are those of the first
      run followed by those of the second. */
  lemma {:induction false} OpsOfConcat(a: seq<QueueEntry>, b: seq<QueueEntry>, d: string)
    ensures OpsOf(a + b, d) == OpsOf(a, d) + OpsOf(b, d)
    decreases |b|
  {
    if b != [] {
      var b' := b[..|b| - 1];
      assert (a + b)[..|a + b| - 1] == a + b';
      var e := b[|b| - 1];
      assert (a + b)[|a + b| - 1] == e;
      OpsOfConcat(a, b', d);
      assert OpsOf(a + b, d) == OpsOf(a + b', d) + (if e.Entry? && e.docId == d then e.ops else []);
      assert OpsOf(b, d) == OpsOf(b', d) + (if e.Entry? && e.docId == d then e.ops else []);
    } else {
      assert a + b == a;
    }
  }

  /** The payload of a document is that of its last entry, whatever other
      documents queue after it. */
  lemma {:induction false} LastPayloadWins(a: seq<QueueEntry>, e: QueueEntry, b: seq<QueueEntry>)
    requires e.Entry? && e.docId !in Ids(b)
    ensures LastPayload(a + [e] + b, e.docId) == Some((e.hash, e.track))
    decreases |b|
  {
    if b == [] {
      assert (a + [e] + b)[..|a| ] == a;
    } else {
      var b' := b[..|b| - 1];
      assert (a + [e] + b)[..|a + [e] + b| - 1] == a + [e] + b';
      LastPayloadWins(a, e, b');
    }
  }

  /** The `all_ops` dictionary after dequeuing `s` in order. */
  function OpsMap(s: seq<QueueEntry>): map<string, seq<Op>>
    decreases |s|
  {
    if s == [] then map[]
    else
      var m := OpsMap(s[..|s| - 1]);
      var e := s[|s| - 1];
      if e.Close? then m else m[e.docId := (if e.docId in m then m[e.docId] else []) + e.ops]
  }

  /** The `payloads` dictionary after dequeuing `s` in order. */
  function PayloadMap(s: seq<QueueEntry>): map<string, (string, bool)>
    decreases |s|
  {
    if s == [] then map[]
    else
      var m := PayloadMap(s[..|s| - 1]);
      var e := s[|s| - 1];
      if e.Close? then m else m[e.docId := (e.hash, e.track)]
  }

  /** `all_ops` holds, for every document with an entry, its ops
      concatenated in arrival order. */
  lemma {:induction false} OpsMapMeaning(s: seq<QueueEntry>)
    ensures OpsMap(s).Keys == Ids(s)
    ensures forall d :: d in OpsMap(s) ==> OpsMap(s)[d] == OpsOf(s, d)
    decreases |s|
  {
    if s != [] {
      var p := s[..|s| - 1];
      OpsMapMeaning(p);
      var e := s[|s| - 1];
      if e.Entry? && e.docId !in OpsMap(p) {
        OpsOfAbsent(p, e.docId);
      }
    }
  }

  /** `payloads` holds, for every document with an entry, the hash and
      track flag of its last entry. */
  lemma {:induction false} PayloadMapMeaning(s: seq<QueueEntry>)
    ensures PayloadMap(s).Keys == Ids(s)
    ensures forall d :: d in PayloadMap(s) ==> LastPayload(s, d) == Some(PayloadMap(s)[d])
    decreases |s|
  {
    if s != [] {
      PayloadMapMeaning(s[..|s| - 1]);
    }
  }

  /** A document without entries has no ops. */
  lemma {:induction false} OpsOfAbsent(s: seq<QueueEntry>, d: string)
    requires d !in Ids(s)
    ensures OpsOf(s, d) == []
    decreases |s|
  {
    if s != [] {
      var p := s[..|s| - 1];
      OpsOfAbsent(p, d);
    }
  }

  /** One round of `dequeue` calls over the entries queued when the round
      starts (`entries[0]` is the one the first `get` returned): it stops
      at a close sentinel, reporting how many entries it took; otherwise it
      takes them all and returns, per document in first-arrival order, the
      concatenated ops and the last payload. */
  method Gather(entries: seq<QueueEntry>) returns (taken: nat, closed: bool, order: seq<string>,
                                                  allOps: map<string, seq<Op>>, payloads: map<string, (string, bool)>)
    ensures closed <==> CloseIndex(entries) < |entries|
    ensures taken == if closed then CloseIndex(entries) + 1 else |entries|
    ensures !closed ==> order == Arrivals(entries) && allOps == OpsMap(entries) && payloads == PayloadMap(entries)
    ensures !closed ==> allOps.Keys == payloads.Keys == Ids(entries)
    ensures !closed ==> forall d :: d in allOps ==> allOps[d] == OpsOf(entries, d) && Some(payloads[d]) == LastPayload(entries, d)
  {
    order, allOps, payloads := [], map[], map[];
    var i := 0;
    while i < |entries|
      invariant 0 <= i <= |entries| && i <= CloseIndex(entries)
      invariant order == Arrivals(entries[..i])
      invariant allOps == OpsMap(entries[..i]) && payloads == PayloadMap(entries[..i])
    {
      var e := entries[i];
      if e.Close? {
        return i + 1, true, order, allOps, payloads;
      }
      assert entries[..i + 1][..i] == entries[..i] && entries[..i + 1][i] == e;
      assert OpsMap(entries[..i + 1]) == allOps[e.docId := (if e.docId in allOps then allOps[e.docId] else []) + e.ops];
      if e.docId !in allOps {
        assert [] + e.ops == e.ops;
        allOps := allOps[e.docId := e.ops];
      } else {
        allOps := allOps[e.docId := allOps[e.docId] + e.ops];
      }
      payloads := payloads[e.docId := (e.hash, e.track)];
      order := if e.docId in order then order else order + [e.docId];
      i := i + 1;
    }
    assert entries[..i] == entries;
    OpsMapMeaning(entries);
    PayloadMapMeaning(entries);
    return i, false, order, allOps, payloads;
  }
}
