/** firefox/add-on/background.js: the add-on's background page. Tabs of a
    project register under the project id with a role; once an id has two
    roles a native port is opened, and each comma-separated scroll string
    the port delivers for that id is parsed and sent to the `detacher` tab. */
module Background {
  import opened Base
  import opened PyText
  import opened Protocol

  /** A runtime message: its `type`, `id` and `role` fields; a message
      without an `id` has `None`. */
  datatype Message = Message(kind: string, id: Option<string>, role: string)

  /** The property key `pairs[message.id]` uses: a missing id converts to
      the string "undefined". */
  function Key(id: Option<string>): (key: string)
    ensures id.Some? ==> key == id.value
  {
    if id.Some? then id.value else "undefined"
  }

  /** The value of `x | 0`: a 32-bit integer, or the text of a field whose
      numeric syntax lies outside the model. */
  datatype Num = Known(v: int) | Unparsed(text: string)

  /** The object sent to the detacher tab. A missing comma field is
      `undefined`, written `None`. */
  datatype Scroll = Scroll(changed: Num, file: Option<string>, line: Num, column: Num)

  /** `tabs.sendMessage(paired["detacher"], scroll)`; the tab is `None` when
      the pair has no `detacher` role. */
  datatype Forward = Forward(tab: Option<int>, scroll: Scroll)

  const TwoTo31: int := 0x8000_0000
  const TwoTo32: int := 0x1_0000_0000

  /** ECMAScript ToInt32: the value congruent to `n` modulo 2^32 in the
      signed 32-bit range. */
  function ToInt32(n: int): (r: int)
    ensures -TwoTo31 <= r < TwoTo31
    ensures (r - n) % TwoTo32 == 0
  {
    var m := n % TwoTo32;
    if m >= TwoTo31 then m - TwoTo32 else m
  }

  /** ToInt32 leaves a value already in range alone. */
  lemma ToInt32InRange(n: int)
    requires -TwoTo31 <= n < TwoTo31
    ensures ToInt32(n) == n
  {
  }

  predicate HasDigit(s: string)
  {
    exists k :: 0 <= k < |s| && IsDigit(s[k])
  }

  /** 2^k. */
  function Pow2(k: nat): (p: nat)
    ensures p >= 1
  {
    if k == 0 then 1 else 2 * Pow2(k - 1)
  }

  /** The number of binary digits of `n` (0 for 0). */
  function BitLength(n: nat): nat
  {
    if n == 0 then 0 else 1 + BitLength(n / 2)
  }

  /** The bits of a double's significand. */
  const Precision: nat := 53

  /** 2^53: below it every integer is a double. */
  const TwoTo53: nat := 0x20_0000_0000_0000

  /** 2^1024: the first magnitude a double rounds to infinity. */
  const TwoTo1024: nat := 0x1_0000_0000_0000_0000_0000_0000_0000_0000_0000_0000_0000_0000_0000_0000_0000_0000_0000_0000_0000_0000_0000_0000_0000_0000_0000_0000_0000_0000_0000_0000_0000_0000_0000_0000_0000_0000_0000_0000_0000_0000_0000_0000_0000_0000_0000_0000_0000_0000_0000_0000_0000_0000_0000_0000_0000_0000_0000_0000_0000_0000_0000_0000_0000_0000

  /** The multiple of `unit` nearest to `n`, ties to the even multiple. */
  function RoundMultiple(n: nat, unit: nat): nat
    requires unit >= 1
  {
    var q := n / unit;
    var rem := n % unit;
    if rem > unit / 2 || (rem == unit / 2 && q % 2 == 1) then (q + 1) * unit else q * unit
  }

  /** ECMAScript's conversion of an integer magnitude to a Number: the
      double nearest to `n`, ties to the even significand, or `None` for
      infinity. A value of `k > 53` bits is rounded to a multiple of
      2^(k - 53). */
  function RoundToDouble(n: nat): Option<nat>
  {
    var b := BitLength(n);
    if b <= Precision then Some(n)
    else
      var v := RoundMultiple(n, Pow2(b - Precision));
      if v >= TwoTo1024 then None else Some(v)
  }

  /** ToInt32 of the Number a signed digit string converts to: infinity
      gives 0. */
  function NumberToInt32(negative: bool, magnitude: nat): (r: int)
    ensures -TwoTo31 <= r < TwoTo31
  {
    match RoundToDouble(magnitude)
    case None => 0
    case Some(v) => ToInt32(if negative then 0 - v else v)
  }

  /** `s | 0` for a string: a string without any digit is `NaN`, an
      infinity or blank, all of which give 0; an optionally signed run of
      decimal digits is converted to the nearest double and then wrapped to
      32 bits. */
  function Coerce(s: string): (n: Num)
    ensures !HasDigit(s) ==> n == Known(0)
    ensures n.Known? ==> -TwoTo31 <= n.v < TwoTo31
  {
    if !HasDigit(s) then Known(0)
    else if IsNumeric(s) then Known(NumberToInt32(false, DigitsValue(s)))
    else if s[0] == '+' && IsNumeric(s[1..]) then Known(NumberToInt32(false, DigitsValue(s[1..])))
    else if s[0] == '-' && IsNumeric(s[1..]) then Known(NumberToInt32(true, DigitsValue(s[1..])))
    else Unparsed(s)
  }

  lemma {:induction false} Pow2Add(a: nat, b: nat)
    ensures Pow2(a + b) == Pow2(a) * Pow2(b)
    decreases a
  {
    if a > 0 {
      Pow2Add(a - 1, b);
    }
  }

  lemma {:induction false} Pow2Monotone(a: nat, b: nat)
    requires a <= b
    ensures Pow2(a) <= Pow2(b)
    decreases b
  {
    if a < b {
      Pow2Monotone(a, b - 1);
    }
  }

  /** A number of `k` bits lies in [2^(k-1), 2^k). */
  lemma {:induction false} BitLengthBounds(n: nat)
    ensures n < Pow2(BitLength(n))
    ensures n > 0 ==> BitLength(n) >= 1 && Pow2(BitLength(n) - 1) <= n
    decreases n
  {
    if n > 0 {
      BitLengthBounds(n / 2);
    }
  }

  /** A magnitude below 2^53 converts exactly. */
  lemma DoubleExact(n: nat)
    requires n < Pow2(Precision)
    ensures RoundToDouble(n) == Some(n)
  {
    BitLengthBounds(n);
    if BitLength(n) > Precision {
      Pow2Monotone(Precision, BitLength(n) - 1);
    }
  }

  lemma MultipleMod(q: nat, unit: nat)
    requires unit >= 1
    ensures (q * unit) % unit == 0
  {
    var d := (q * unit) / unit;
    var m := (q * unit) % unit;
    assert (q - d) * unit == m;
    if d < q {
      MulMonotone(1, q - d, unit);
    }
  }

  lemma MulMonotone(x: nat, y: nat, c: nat)
    requires x <= y
    ensures x * c <= y * c
  {
  }

  /** The quotient of a number at least `a` units is at least `a`. */
  lemma DivLower(n: nat, a: nat, unit: nat)
    requires unit >= 1 && n >= a * unit
    ensures n / unit >= a
  {
    var q := n / unit;
    assert n == q * unit + n % unit;
    if a >= 1 {
      MulCancel(q, a - 1, unit);
      assert (a - 1) * unit + unit == a * unit;
    }
  }

  lemma MulCancel(x: int, y: int, c: nat)
    ensures x * c > y * c ==> x > y
  {
    if x <= y {
      assert (y - x) * c >= 0;
    }
  }

  /** The rounded value is a multiple of the unit at most half a unit
      from `n`. */
  lemma RoundMultipleNear(n: nat, unit: nat)
    requires unit >= 2 && unit % 2 == 0
    ensures var v := RoundMultiple(n, unit);
      v % unit == 0 && n - unit / 2 <= v <= n + unit / 2 && v >= (n / unit) * unit
  {
    var q := n / unit;
    var rem := n % unit;
    assert n == q * unit + rem;
    if rem > unit / 2 || (rem == unit / 2 && q % 2 == 1) {
      assert (q + 1) * unit == q * unit + unit;
      MultipleMod(q + 1, unit);
    } else {
      MultipleMod(q, unit);
    }
  }

  /** A wider magnitude converts to a multiple of 2^(k - 53), the spacing of
      the doubles of its binade, at most half a spacing away. */
  lemma DoubleNearest(n: nat)
    requires BitLength(n) > Precision
    ensures var unit := Pow2(BitLength(n) - Precision);
      RoundToDouble(n).Some? ==>
        var v := RoundToDouble(n).value;
        v % unit == 0 && n - unit / 2 <= v <= n + unit / 2
  {
    var unit := Pow2(BitLength(n) - Precision);
    assert unit == 2 * Pow2(BitLength(n) - Precision - 1);
    RoundMultipleNear(n, unit);
  }

  /** A magnitude of 2^1024 or more converts to infinity. */
  lemma DoubleOverflow(n: nat)
    requires n >= TwoTo1024
    ensures RoundToDouble(n).None?
  {
    OverflowBits(n);
    var b := BitLength(n);
    var unit := Pow2(b - Precision);
    assert unit == 2 * Pow2(b - Precision - 1);
    BinadeFloor(n);
    RoundMultipleNear(n, unit);
    Pow2Monotone(1024, b - 1);
    Pow2Values();
  }

  /** Such a magnitude has more than 1024 bits. */
  lemma OverflowBits(n: nat)
    requires n >= TwoTo1024
    ensures BitLength(n) > 1024
  {
    BitLengthBounds(n);
    Pow2Values();
    if BitLength(n) <= 1024 {
      Pow2Monotone(BitLength(n), 1024);
    }
  }

  /** Rounding down to the spacing of the binade stays in the binade. */
  lemma BinadeFloor(n: nat)
    requires BitLength(n) > Precision
    ensures (n / Pow2(BitLength(n) - Precision)) * Pow2(BitLength(n) - Precision) >= Pow2(BitLength(n) - 1)
  {
    var b := BitLength(n);
    var unit := Pow2(b - Precision);
    var top := Pow2(Precision - 1);
    BitLengthBounds(n);
    Pow2Add(Precision - 1, b - Precision);
    assert Pow2(b - 1) == top * unit;
    DivLower(n, top, unit);
    MulMonotone(top, n / unit, unit);
  }

  /** Powers of two multiply by adding exponents, given their values. */
  lemma Pow2Times(a: nat, b: nat, pa: nat, pb: nat)
    requires Pow2(a) == pa && Pow2(b) == pb
    ensures Pow2(a + b) == pa * pb
  {
    Pow2Add(a, b);
  }

  /** The powers of two the conversions name. */
  lemma Pow2Values()
    ensures Pow2(31) == TwoTo31 && Pow2(53) == TwoTo53 && Pow2(1024) == TwoTo1024
  {
    Pow2Times(1, 1, 2, 2);
    Pow2Times(2, 2, 0x4, 0x4);
    Pow2Times(4, 4, 0x10, 0x10);
    Pow2Times(8, 8, 0x100, 0x100);
    Pow2Times(16, 16, 0x1_0000, 0x1_0000);
    Pow2Times(32, 32, 0x1_0000_0000, 0x1_0000_0000);
    Pow2Times(64, 64, 0x1_0000_0000_0000_0000, 0x1_0000_0000_0000_0000);
    Pow2Times(128, 128, 0x1_0000_0000_0000_0000_0000_0000_0000_0000, 0x1_0000_0000_0000_0000_0000_0000_0000_0000);
    Pow2Times(256, 256, 0x1_0000_0000_0000_0000_0000_0000_0000_0000_0000_0000_0000_0000_0000_0000_0000_0000, 0x1_0000_0000_0000_0000_0000_0000_0000_0000_0000_0000_0000_0000_0000_0000_0000_0000);
    Pow2Times(512, 512, 0x1_0000_0000_0000_0000_0000_0000_0000_0000_0000_0000_0000_0000_0000_0000_0000_0000_0000_0000_0000_0000_0000_0000_0000_0000_0000_0000_0000_0000_0000_0000_0000_0000, 0x1_0000_0000_0000_0000_0000_0000_0000_0000_0000_0000_0000_0000_0000_0000_0000_0000_0000_0000_0000_0000_0000_0000_0000_0000_0000_0000_0000_0000_0000_0000_0000_0000);
    Pow2Times(16, 8, 0x1_0000, 0x100);
    Pow2Times(24, 4, 0x100_0000, 0x10);
    Pow2Times(28, 2, 0x1000_0000, 0x4);
    Pow2Times(30, 1, 0x4000_0000, 2);
    Pow2Times(32, 16, 0x1_0000_0000, 0x1_0000);
    Pow2Times(48, 4, 0x1_0000_0000_0000, 0x10);
    Pow2Times(52, 1, 0x10_0000_0000_0000, 2);
  }

  /** `data[k] | 0`, where a field past the end is `undefined`, hence 0. */
  function CoerceField(data: seq<string>, k: nat): (n: Num)
    ensures k >= |data| ==> n == Known(0)
  {
    if k < |data| then Coerce(data[k]) else Known(0)
  }

  /** `data[k]`, `undefined` past the end. */
  function Field(data: seq<string>, k: nat): Option<string>
  {
    if k < |data| then Some(data[k]) else None
  }

  /** The object built from `response.split(",")`. */
  function Parse(response: string): Scroll
  {
    var data := Split(response, ',');
    Scroll(CoerceField(data, 1), Field(data, 2), CoerceField(data, 3), CoerceField(data, 4))
  }

  /** The listener's test: the pair still has exactly two roles and the
      first comma field equals the message's id (`undefined` equals no
      string). */
  predicate Accepts(id: Option<string>, paired: map<string, int>, response: string)
  {
    |paired.Keys| == 2 && id == Some(Split(response, ',')[0])
  }

  /** A missing id, or one holding a comma, is never matched: no comma field
      holds a comma. */
  lemma UnmatchableIds(id: Option<string>, paired: map<string, int>, response: string)
    requires id.None? || ',' in id.value
    ensures !Accepts(id, paired, response)
  {
    SplitShape(response, ',');
  }

  /** `str(i)` holds no comma. */
  lemma NoCommaInInt(i: int)
    ensures ',' !in IntToString(i)
  {
    var s := IntToString(i);
    if i < 0 {
      assert s == "-" + NatToString(-i);
      assert forall k :: 1 <= k < |s| ==> s[k] == NatToString(-i)[k - 1];
    }
  }

  /** The digits of `str(n)` read back as `n`, in the add-on's coercion. */
  lemma CoerceIntToString(n: int)
    requires -TwoTo31 <= n < TwoTo31
    ensures Coerce(IntToString(n)) == Known(n)
  {
    var s := IntToString(n);
    ToInt32InRange(n);
    Pow2Values();
    DoubleExact(if n < 0 then -n else n);
    if n < 0 {
      var t := NatToString(-n);
      assert s == "-" + t && s[1..] == t;
      DigitsOfNat(-n);
      assert IsDigit(s[1]);
      assert !IsNumeric(s) by { assert !IsDigit(s[0]); }
    } else {
      DigitsOfNat(n);
      assert IsDigit(s[0]);
    }
  }

  /** A digit string of 2^53 + 1 rounds, tie to even, to 2^53, whose low
      32 bits are zero: `"9007199254740993" | 0` is 0, not 1. */
  lemma CoerceRoundsFirst()
    ensures RoundToDouble(TwoTo53 + 1) == Some(TwoTo53)
    ensures Coerce(NatToString(TwoTo53 + 1)) == Known(0)
  {
    var n := TwoTo53 + 1;
    var s := NatToString(n);
    DigitsOfNat(n);
    assert IsDigit(s[0]);
    Pow2Values();
    Pow2Times(53, 1, TwoTo53, 2);
    BitLengthIs(n, 54);
    assert Pow2(BitLength(n) - Precision) == 2;
    assert RoundMultiple(n, 2) == TwoTo53;
    assert TwoTo53 < TwoTo1024;
  }

  /** A number has `k` bits when it lies in [2^(k-1), 2^k). */
  lemma BitLengthIs(n: nat, k: nat)
    requires k >= 1 && Pow2(k - 1) <= n < Pow2(k)
    ensures BitLength(n) == k
  {
    BitLengthBounds(n);
    if BitLength(n) < k {
      Pow2Monotone(BitLength(n), k - 1);
    } else if BitLength(n) > k {
      Pow2Monotone(k, BitLength(n) - 1);
    }
  }

  /** Digits worth 2^1024 or more read as infinity, which ToInt32 makes 0. */
  lemma CoerceOverflow(s: string)
    requires IsNumeric(s) && DigitsValue(s) >= TwoTo1024
    ensures Coerce(s) == Known(0)
  {
    assert IsDigit(s[0]);
    DoubleOverflow(DigitsValue(s));
  }

  /** The comma fields of the string `syncPDF` builds. */
  function ScrollFields(id: string, changed: bool, file: string, line: int, column: int): seq<string>
  {
    [id, if changed then "1" else "0", file, IntToString(line - 1), IntToString(column)]
  }

  /** Splitting the scroll string at commas gives its fields back when
      neither the id nor the file name holds a comma. */
  lemma SplitScroll(id: string, changed: bool, file: string, line: int, column: int)
    requires ',' !in id && ',' !in file
    ensures Split(ScrollValue(id, changed, file, line, column), ',') == ScrollFields(id, changed, file, line, column)
  {
    var parts := ScrollFields(id, changed, file, line, column);
    NoCommaInInt(line - 1);
    NoCommaInInt(column);
    assert NoSep(parts, ',') by {
      forall k | 0 <= k < 5 ensures ',' !in parts[k] {
      }
    }
    JoinScroll(id, changed, file, line, column);
    SplitJoin(parts, ',');
  }

  /** The scroll string is its fields joined by commas. */
  lemma JoinScroll(id: string, changed: bool, file: string, line: int, column: int)
    ensures Join(ScrollFields(id, changed, file, line, column), ',') == ScrollValue(id, changed, file, line, column)
  {
    var parts := ScrollFields(id, changed, file, line, column);
    var tail4 := parts[4..];
    assert tail4 == [parts[4]];
    var tail3 := parts[3..];
    assert tail3 == [parts[3]] + tail4 && tail3[1..] == tail4;
    var tail2 := parts[2..];
    assert tail2[1..] == tail3;
    var tail1 := parts[1..];
    assert tail1[1..] == tail2;
    assert Join(tail3, ',') == parts[3] + [','] + parts[4];
    assert Join(tail2, ',') == parts[2] + [','] + Join(tail3, ',');
    assert Join(tail1, ',') == parts[1] + [','] + Join(tail2, ',');
    assert Join(parts, ',') == parts[0] + [','] + Join(tail1, ',');
  }

  /** The string `syncPDF` builds is matched by its project's listener and
      parses back into the changed flag, the file, `line - 1` and the
      column, provided neither the id nor the file name holds a comma and
      the numbers fit in 32 bits. */
  lemma ScrollRoundTrip(id: string, changed: bool, file: string, line: int, column: int)
    requires ',' !in id && ',' !in file
    requires -TwoTo31 <= line - 1 < TwoTo31 && -TwoTo31 <= column < TwoTo31
    ensures Split(ScrollValue(id, changed, file, line, column), ',')[0] == id
    ensures Parse(ScrollValue(id, changed, file, line, column))
         == Scroll(Known(if changed then 1 else 0), Some(file), Known(line - 1), Known(column))
  {
    var flag := if changed then "1" else "0";
    SplitScroll(id, changed, file, line, column);
    CoerceIntToString(line - 1);
    CoerceIntToString(column);
    assert Coerce(flag) == Known(if changed then 1 else 0) by {
      assert IsNumeric(flag);
      assert DigitsValue(flag) == if changed then 1 else 0;
      ToInt32InRange(if changed then 1 else 0);
    }
  }

  /** The background page's state: the `pairs` object, one entry per
      native port opened (the id its listener closed over; the entry of
      `pairs` it holds is never replaced, so the id names it), and the
      messages sent to tabs. */
  class BackgroundPage {
    var pairs: map<string, map<string, int>>
    var ports: seq<Option<string>>
    var sent: seq<Forward>

    /** Every listener's pair exists. */
    predicate Valid()
      reads this
    {
      forall k :: 0 <= k < |ports| ==> Key(ports[k]) in pairs
    }

    /** The script's start: no pairs, no ports. */
    constructor ()
      ensures pairs == map[] && ports == [] && sent == [] && Valid()
    {
      pairs, ports, sent := map[], [], [];
    }

    /** The `onMessage` listener for a message from tab `tab`: a `pair`
        message records the tab under the id and role, creating the entry
        on first use, and opens a port when the entry then has two roles;
        any other message changes nothing. */
    method OnMessage(m: Message, tab: int)
      requires Valid()
      modifies this`pairs, this`ports
      ensures Valid()
      ensures m.kind != "pair" ==> pairs == old(pairs) && ports == old(ports)
      ensures m.kind == "pair" ==>
        var key := Key(m.id);
        var before := if key in old(pairs) then old(pairs)[key] else map[];
        pairs == old(pairs)[key := before[m.role := tab]]
        && ports == old(ports) + (if |pairs[key].Keys| == 2 then [m.id] else [])
    {
      if m.kind == "pair" {
        var key := Key(m.id);
        if key !in pairs {
          pairs := pairs[key := map[]];
        }
        var paired := pairs[key][m.role := tab];
        pairs := pairs[key := paired];
        if |paired.Keys| == 2 {
          ports := ports + [m.id];
        }
      }
    }

    /** Port `k`'s listener receives `response`: when its pair still has
        two roles and the first field is its id, the parsed object goes to
        the pair's detacher tab. */
    method OnResponse(k: nat, response: string)
      requires Valid() && k < |ports|
      modifies this`sent
      ensures
        var id := ports[k];
        var paired := pairs[Key(id)];
        sent == old(sent) + if Accepts(id, paired, response)
          then [Forward(if "detacher" in paired then Some(paired["detacher"]) else None, Parse(response))]
          else []
    {
      var id := ports[k];
      var paired := pairs[Key(id)];
      var data := Split(response, ',');
      if |paired.Keys| == 2 && id == Some(data[0]) {
        var tab := if "detacher" in paired then Some(paired["detacher"]) else None;
        sent := sent + [Forward(tab, Parse(response))];
      }
    }
  }

  /** The pairing as the add-on's pages send it: the detached page's
      `pair` message carries no id, so it is filed under "undefined" and
      the detacher's entry for the project never reaches two roles; no port
      is opened. */
  method DetachedPairingAsWritten(project: string, detached: int, detacher: int) returns (page: BackgroundPage)
    requires project != "undefined"
    ensures page.ports == []
    ensures page.pairs == map["undefined" := map["detached" := detached], project := map["detacher" := detacher]]
  {
    page := new BackgroundPage();
    page.OnMessage(Message("pair", None, "detached"), detached);
    page.OnMessage(Message("pair", Some(project), "detacher"), detacher);
  }

  /** The pairing with the project id on both messages: one port is opened,
      and its listener forwards the string `syncPDF` builds to the detacher
      tab, parsed back into the flag, the file, `line - 1` and the column. */
  method DetachedPairing(project: string, detached: int, detacher: int, changed: bool, file: string, line: int, column: int)
    returns (page: BackgroundPage)
    requires ',' !in project && ',' !in file
    requires -TwoTo31 <= line - 1 < TwoTo31 && -TwoTo31 <= column < TwoTo31
    ensures page.ports == [Some(project)]
    ensures page.sent == [Forward(Some(detacher), Scroll(Known(if changed then 1 else 0), Some(file), Known(line - 1), Known(column)))]
  {
    page := new BackgroundPage();
    page.OnMessage(Message("pair", Some(project), "detached"), detached);
    page.OnMessage(Message("pair", Some(project), "detacher"), detacher);
    assert page.pairs[project].Keys == {"detached", "detacher"};
    ScrollRoundTrip(project, changed, file, line, column);
    page.OnResponse(0, ScrollValue(project, changed, file, line, column));
  }
}
