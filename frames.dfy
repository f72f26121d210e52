/** The Socket.IO 0.9 frames of project.py: `send` writes `"2::"` for a
    heartbeat, `"5:::" + json` for an update and `"5:" + id + "+::" + json`
    for a command that expects an answer, and `run` splits every incoming
    frame with the regular expression `codere`,
    `(\d):(?:(\d+)(\+?))?:(?::(?:(\d+)(\+?))?(.*))?`, matched at the start
    of the frame. */
module Frames {
  import opened Base
  import opened PyText

  /** The six groups of `codere.match(msg).groups()`; a group that took no
      part in the match is `None`. */
  datatype Frame = Frame(code: char, awaitId: Option<string>, awaitMult: Option<string>,
                         answerId: Option<string>, answerMult: Option<string>, payload: Option<string>)

  predicate AllDigits(s: string)
  {
    forall k :: 0 <= k < |s| ==> IsDigit(s[k])
  }

  /** The length of the run of digits `s` starts with. */
  function DigitRun(s: string): (n: nat)
    ensures n <= |s| && AllDigits(s[..n])
    ensures n < |s| ==> !IsDigit(s[n])
  {
    if s != [] && IsDigit(s[0]) then
      var n := 1 + DigitRun(s[1..]);
      assert s[..n] == [s[0]] + s[1..][..n - 1];
      n
    else 0
  }

  /** What `.*` takes: everything up to the first newline. */
  function Line(s: string): (r: string)
    ensures |r| <= |s| && r == s[..|r|] && '\n' !in r
    ensures |r| < |s| ==> s[|r|] == '\n'
  {
    if s == [] || s[0] == '\n' then []
    else
      var r := [s[0]] + Line(s[1..]);
      assert s[..|r|] == [s[0]] + s[1..][..|r| - 1];
      r
  }

  /** The optional group `(?:(\d+)(\+?))?` at the start of `s`: the digits
      and the mark, both `None` when no digit is there, and what follows.
      Taking fewer digits never helps the rest of the expression, which
      needs a `:` or a `+` next, so the longest run is the only match. */
  function IdMark(s: string): (Option<string>, Option<string>, string)
  {
    var n := DigitRun(s);
    if n == 0 then (None, None, s)
    else if n < |s| && s[n] == '+' then (Some(s[..n]), Some("+"), s[n + 1..])
    else (Some(s[..n]), Some(""), s[n..])
  }

  /** `codere.match(msg)`: `None` where the expression does not match (and
      `.groups()` then raises). */
  function Parse(msg: string): Option<Frame>
  {
    if |msg| < 2 || !IsDigit(msg[0]) || msg[1] != ':' then None
    else
      var (aid, amult, rest) := IdMark(msg[2..]);
      if rest == [] || rest[0] != ':' then None
      else
        var (bid, bmult, payload) := Answer(rest[1..]);
        Some(Frame(msg[0], aid, amult, bid, bmult, payload))
  }

  /** The optional part `(?::(?:(\d+)(\+?))?(.*))?` after the second colon. */
  function Answer(tail: string): (Option<string>, Option<string>, Option<string>)
  {
    if tail == [] || tail[0] != ':' then (None, None, None)
    else
      var (bid, bmult, rest) := IdMark(tail[1..]);
      (bid, bmult, Some(Line(rest)))
  }

  function Opt(o: Option<string>): string
  {
    if o.Some? then o.value else ""
  }

  /** The text a frame's groups spell out, in the order of the expression. */
  function Render(f: Frame): string
  {
    [f.code] + ":" + Opt(f.awaitId) + Opt(f.awaitMult) + ":" +
    (if f.payload.Some? then ":" + Opt(f.answerId) + Opt(f.answerMult) + f.payload.value else "")
  }

  /** Well-formed groups: a digit code, ids made of digits, a mark that is
      `+` or empty and present exactly with its id, a payload without a
      newline. */
  predicate WellFormed(f: Frame)
  {
    IsDigit(f.code) &&
    (f.awaitId.Some? <==> f.awaitMult.Some?) && (f.answerId.Some? <==> f.answerMult.Some?) &&
    (f.awaitId.Some? ==> |f.awaitId.value| >= 1 && AllDigits(f.awaitId.value) && f.awaitMult.value in ["", "+"]) &&
    (f.answerId.Some? ==> |f.answerId.value| >= 1 && AllDigits(f.answerId.value) && f.answerMult.value in ["", "+"]) &&
    (f.answerId.Some? ==> f.payload.Some?) &&
    (f.payload.Some? ==> '\n' !in f.payload.value)
  }

  lemma IdMarkSpells(s: string)
    ensures var (id, mark, rest) := IdMark(s);
      (id.Some? <==> mark.Some?) &&
      (id.Some? ==> |id.value| >= 1 && AllDigits(id.value) && mark.value in ["", "+"]) &&
      s == Opt(id) + Opt(mark) + rest
  {
    var n := DigitRun(s);
    if n > 0 {
      if n < |s| && s[n] == '+' {
        assert s == s[..n] + "+" + s[n + 1..];
      } else {
        assert s == s[..n] + "" + s[n..];
      }
    }
  }

  /** `Parse` in terms of its two groups. */
  lemma ParseBy(msg: string, m: (Option<string>, Option<string>, string), ans: (Option<string>, Option<string>, Option<string>))
    requires |msg| >= 2 && IsDigit(msg[0]) && msg[1] == ':'
    requires IdMark(msg[2..]) == m && m.2 != [] && m.2[0] == ':' && Answer(m.2[1..]) == ans
    ensures Parse(msg) == Some(Frame(msg[0], m.0, m.1, ans.0, ans.1, ans.2))
  {
  }

  /** The optional answer part spells out a prefix of what it reads, up to
      a newline or the end. */
  lemma AnswerSpells(tail: string)
    ensures var (bid, bmult, payload) := Answer(tail);
      var r := if payload.Some? then ":" + Opt(bid) + Opt(bmult) + payload.value else "";
      (bid.Some? <==> bmult.Some?) && (bid.Some? ==> payload.Some?) &&
      (bid.Some? ==> |bid.value| >= 1 && AllDigits(bid.value) && bmult.value in ["", "+"]) &&
      (payload.Some? ==> '\n' !in payload.value) &&
      |r| <= |tail| && tail[..|r|] == r && (payload.Some? && |r| < |tail| ==> tail[|r|] == '\n')
  {
    if tail != [] && tail[0] == ':' {
      IdMarkSpells(tail[1..]);
      var (bid, bmult, rest) := IdMark(tail[1..]);
      var head := ":" + Opt(bid) + Opt(bmult);
      assert tail == head + rest by {
        assert tail == ":" + tail[1..];
      }
      PrefixJoin(tail, head, rest, Line(rest));
    }
  }

  /** Whatever `codere` matches is a well-formed frame whose rendering
      starts the message; a payload stops only at a newline or at the end
      of the message. */
  lemma ParseSpells(msg: string)
    requires Parse(msg).Some?
    ensures var f := Parse(msg).value;
      var n := |Render(f)|;
      WellFormed(f) && n <= |msg| && msg[..n] == Render(f) &&
      (f.payload.Some? && n < |msg| ==> msg[n] == '\n')
  {
    var m := IdMark(msg[2..]);
    var tail := m.2[1..];
    var ans := Answer(tail);
    ParseBy(msg, m, ans);
    IdMarkSpells(msg[2..]);
    AnswerSpells(tail);
    var head := [msg[0]] + ":" + Opt(m.0) + Opt(m.1) + ":";
    HeadSpells(msg, m, head);
    var r := if ans.2.Some? then ":" + Opt(ans.0) + Opt(ans.1) + ans.2.value else "";
    var f := Frame(msg[0], m.0, m.1, ans.0, ans.1, ans.2);
    assert Render(f) == head + r;
    PrefixJoin(msg, head, tail, r);
  }

  lemma HeadSpells(msg: string, m: (Option<string>, Option<string>, string), head: string)
    requires |msg| >= 2 && msg[1] == ':' && m.2 != [] && msg[2..] == Opt(m.0) + Opt(m.1) + m.2
    requires head == [msg[0]] + ":" + Opt(m.0) + Opt(m.1) + ":"
    requires m.2[0] == ':'
    ensures msg == head + m.2[1..]
  {
    assert msg == [msg[0]] + ":" + msg[2..];
    assert m.2 == ":" + m.2[1..];
  }

  lemma PrefixJoin(msg: string, head: string, tail: string, r: string)
    requires msg == head + tail && |r| <= |tail| && tail[..|r|] == r
    ensures |head + r| <= |msg| && msg[..|head + r|] == head + r
    ensures |head + r| < |msg| ==> msg[|head + r|] == tail[|r|]
  {
  }

  /** `send("keep_alive")`. */
  function KeepAliveFrame(): string
  {
    "2::"
  }

  /** `send("update", message)`. */
  function UpdateFrame(json: string): string
  {
    "5:::" + json
  }

  /** `send("cmd", message)` with command id `id`. */
  function CmdFrame(id: nat, json: string): string
  {
    "5:" + NatToString(id) + "+::" + json
  }

  /** JSON text that `codere` returns whole: no newline, and no leading
      digit for the answer-id group to take. */
  predicate PlainJson(json: string)
  {
    '\n' !in json && (json == [] || !IsDigit(json[0]))
  }

  lemma {:induction false} LineWhole(s: string)
    requires '\n' !in s
    ensures Line(s) == s
  {
    if s != [] {
      LineWhole(s[1..]);
    }
  }

  /** The heartbeat frame parses to code 2 and nothing else. */
  lemma KeepAliveParses()
    ensures Parse(KeepAliveFrame()) == Some(Frame('2', None, None, None, None, None))
  {
    var msg := KeepAliveFrame();
    assert msg[2..] == ":";
    assert DigitRun(":") == 0;
  }

  /** An update frame parses back to code 5 and its JSON text. */
  lemma UpdateParses(json: string)
    requires PlainJson(json)
    ensures Parse(UpdateFrame(json)) == Some(Frame('5', None, None, None, None, Some(json)))
  {
    var msg := UpdateFrame(json);
    assert msg[2..] == "::" + json;
    assert DigitRun("::" + json) == 0;
    assert ("::" + json)[1..] == ":" + json;
    assert (":" + json)[1..] == json;
    assert DigitRun(json) == 0;
    LineWhole(json);
  }

  /** A command frame parses back to code 5, its command id with the `+`
      that asks for an answer, and its JSON text; the id reads back as the
      number it was written from. */
  lemma CmdParses(id: nat, json: string)
    requires PlainJson(json)
    ensures Parse(CmdFrame(id, json)) == Some(Frame('5', Some(NatToString(id)), Some("+"), None, None, Some(json)))
    ensures ParseInt(NatToString(id)) == Some(id)
  {
    var digits := NatToString(id);
    var msg := CmdFrame(id, json);
    assert msg[2..] == digits + ("+::" + json);
    CmdIdMark(digits, json);
    PlainAnswer(json);
    assert ("::" + json)[1..] == ":" + json;
    ParseBy(msg, (Some(digits), Some("+"), "::" + json), (None, None, Some(json)));
    ParseIntToString(id);
  }

  /** The command id and its `+` are read off the front of a command frame. */
  lemma CmdIdMark(digits: string, json: string)
    requires |digits| >= 1 && AllDigits(digits)
    ensures IdMark(digits + ("+::" + json)) == (Some(digits), Some("+"), "::" + json)
  {
    var s := digits + ("+::" + json);
    DigitRunPrefix(digits, "+::" + json);
    assert s[..|digits|] == digits;
    assert s[|digits|] == '+';
    assert s[|digits| + 1..] == "::" + json;
  }

  /** Plain JSON after the third colon is the whole payload. */
  lemma PlainAnswer(json: string)
    requires PlainJson(json)
    ensures Answer(":" + json) == (None, None, Some(json))
  {
    assert (":" + json)[1..] == json;
    assert IdMark(json) == (None, None, json);
    LineWhole(json);
  }

  /** A run of digits followed by a non-digit is read up to that point. */
  lemma {:induction false} DigitRunPrefix(digits: string, rest: string)
    requires AllDigits(digits) && rest != [] && !IsDigit(rest[0])
    ensures DigitRun(digits + rest) == |digits|
  {
    if digits != [] {
      assert (digits + rest)[1..] == digits[1..] + rest;
      DigitRunPrefix(digits[1..], rest);
    }
  }

  /** The answer frame the server sends for command `id`: the id and its
      mark land in groups 4 and 5 and the JSON in group 6, whatever it
      starts with. */
  lemma AckParses(id: nat, json: string)
    requires '\n' !in json
    ensures Parse("6:::" + NatToString(id) + "+" + json) ==
      Some(Frame('6', None, None, Some(NatToString(id)), Some("+"), Some(json)))
  {
    var digits := NatToString(id);
    var msg := "6:::" + digits + "+" + json;
    var t := digits + ("+" + json);
    assert msg[2..] == "::" + t;
    assert IdMark("::" + t) == (None, None, "::" + t);
    assert ("::" + t)[1..] == ":" + t;
    assert (":" + t)[1..] == t;
    assert IdMark(t) == (Some(digits), Some("+"), json) by {
      DigitRunPrefix(digits, "+" + json);
      assert t[..|digits|] == digits && t[|digits|] == '+' && t[|digits| + 1..] == json;
    }
    assert Answer(":" + t) == (Some(digits), Some("+"), Some(json)) by {
      LineWhole(json);
    }
  }

  /** JSON text that starts with a digit loses it to the answer-id group:
      `"5:::7]"` parses with answer id `"7"` and payload `"]"`. */
  lemma DigitJsonMisread()
    ensures Parse(UpdateFrame("7]")) == Some(Frame('5', None, None, Some("7"), Some(""), Some("]")))
  {
    var msg := UpdateFrame("7]");
    assert msg[2..] == "::7]";
    assert DigitRun("::7]") == 0;
    assert "::7]"[1..] == ":7]" && ":7]"[1..] == "7]";
    assert DigitRun("7]") == 1 by {
      assert "7]"[1..] == "]";
    }
    assert "7]"[..1] == "7" && "7]"[1..] == "]";
    LineWhole("]");
  }
}
