/** The ShareJS text operations exchanged with the Overleaf server, and the
    update packets that carry them. */
module Ops {
  import opened Base

  /** One operation: the offset `p`, with any of a deletion `d`, an
      insertion `i`, a comment `c` anchored to thread `t`, and the undo
      mark `u` of a rejected tracked change. A key that is absent is
      `None`. */
  datatype Op = Op(p: int, d: Option<string>, i: Option<string>, c: Option<string>, t: Option<string>, u: bool)

  /** `{"p": p, "i": s}`. */
  function Insertion(p: int, s: string): Op
  {
    Op(p, None, Some(s), None, None, false)
  }

  /** `{"p": p, "d": s}`. */
  function Deletion(p: int, s: string): Op
  {
    Op(p, Some(s), None, None, None, false)
  }

  /** `{"c": c, "p": p, "t": t}`. */
  function CommentOp(p: int, c: string, t: string): Op
  {
    Op(p, None, None, Some(c), Some(t), false)
  }

  /** A packet's `meta` object; only the tracked-change id `tc` is read. */
  datatype Meta = Meta(tc: Option<string>)

  /** An `otUpdateApplied` packet: an optional version `v`, an optional op
      list `op` and an optional `meta`. */
  datatype Packet = Packet(v: Option<int>, op: Option<seq<Op>>, meta: Option<Meta>)

  /** `packet.get("meta", {}).get("tc")`. */
  function TrackedId(packet: Packet): Option<string>
  {
    if packet.meta.Some? then packet.meta.value.tc else None
  }
}
