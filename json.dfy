/** Decoded JSON values as project.py handles them after `json.loads`, with
    the Python operations the protocol code applies to them: truth value,
    subscription, iteration and the `in` test. A failing operation yields
    the name of the exception Python raises. */
module JsonValues {
  import opened Base
  import opened PySeq

  /** A decoded value. An object is a Python `dict`, given by the entries
      inserted into it in order, as `json.loads` inserts the members it
      reads: a later entry for a key replaces the value of an earlier one
      and keeps its place. */
  datatype Json = JNull | JBool(b: bool) | JInt(n: int) | JStr(s: string) | JList(items: seq<Json>)
    | JObj(entries: seq<(string, Json)>)
  {
    /** The dictionary's key-to-value mapping (empty for other values). */
    const fields: map<string, Json> := if JObj? then FieldsOf(entries) else map[]
  }

  /** The mapping that inserting `e` in order builds. */
  function FieldsOf(e: seq<(string, Json)>): map<string, Json>
    decreases |e|
  {
    if e == [] then map[] else FieldsOf(e[..|e| - 1])[e[|e| - 1].0 := e[|e| - 1].1]
  }

  /** The keys of the dictionary built from `e`, in the order iteration
      visits them: each key where it was first inserted. */
  function KeyOrder(e: seq<(string, Json)>): (ks: seq<string>)
    ensures forall k :: k in ks <==> k in FieldsOf(e)
    ensures forall i, j :: 0 <= i < j < |ks| ==> ks[i] != ks[j]
    decreases |e|
  {
    if e == [] then []
    else
      var ks := KeyOrder(e[..|e| - 1]);
      if e[|e| - 1].0 in ks then ks else ks + [e[|e| - 1].0]
  }

  /** `d[k] = v` appends an entry: the value is replaced, and a new key
      goes last. */
  lemma AssignEntry(e: seq<(string, Json)>, k: string, v: Json)
    ensures FieldsOf(e + [(k, v)]) == FieldsOf(e)[k := v]
    ensures KeyOrder(e + [(k, v)]) == if k in FieldsOf(e) then KeyOrder(e) else KeyOrder(e) + [k]
  {
    assert (e + [(k, v)])[..|e|] == e;
  }

  /** `del d[k]`: every entry of the key goes. */
  function Without(e: seq<(string, Json)>, k: string): seq<(string, Json)>
    decreases |e|
  {
    if e == [] then []
    else
      var r := Without(e[..|e| - 1], k);
      if e[|e| - 1].0 == k then r else r + [e[|e| - 1]]
  }

  /** After `del d[k]` the mapping is the old one without `k`. */
  lemma {:induction false} WithoutFields(e: seq<(string, Json)>, k: string)
    ensures FieldsOf(Without(e, k)) == FieldsOf(e) - {k}
    decreases |e|
  {
    if e != [] {
      var e0 := e[..|e| - 1];
      var last := e[|e| - 1];
      var r := Without(e0, k);
      WithoutFields(e0, k);
      assert FieldsOf(e) == FieldsOf(e0)[last.0 := last.1];
      if last.0 == k {
        assert Without(e, k) == r;
        assert FieldsOf(e0)[k := last.1] - {k} == FieldsOf(e0) - {k};
      } else {
        var r1 := r + [last];
        assert Without(e, k) == r1;
        assert r1[..|r1| - 1] == r && r1[|r1| - 1] == last;
        assert FieldsOf(r1) == FieldsOf(r)[last.0 := last.1];
        assert (FieldsOf(e0) - {k})[last.0 := last.1] == FieldsOf(e0)[last.0 := last.1] - {k};
      }
    }
  }

  /** Inserting `a` and then `b` gives `a`'s mapping overridden by `b`'s. */
  lemma {:induction false} FieldsOfConcat(a: seq<(string, Json)>, b: seq<(string, Json)>)
    ensures FieldsOf(a + b) == FieldsOf(a) + FieldsOf(b)
    decreases |b|
  {
    if b == [] {
      assert a + b == a;
    } else {
      var b0 := b[..|b| - 1];
      var last := b[|b| - 1];
      assert (a + b)[..|a + b| - 1] == a + b0;
      assert (a + b)[|a + b| - 1] == last;
      FieldsOfConcat(a, b0);
      assert FieldsOf(a + b) == (FieldsOf(a) + FieldsOf(b0))[last.0 := last.1];
      assert FieldsOf(b) == FieldsOf(b0)[last.0 := last.1];
    }
  }

  /** Python's truth value: `None`, `False`, zero and empty containers are
      false. */
  predicate Truthy(j: Json)
  {
    match j
    case JNull => false
    case JBool(b) => b
    case JInt(n) => n != 0
    case JStr(s) => s != []
    case JList(xs) => xs != []
    case JObj(e) => e != []
  }

  /** `j[key]` with a string key. */
  function Get(j: Json, key: string): (r: Result<Json>)
    ensures r.Ok? <==> j.JObj? && key in j.fields
    ensures r.Ok? ==> r.value == j.fields[key]
    ensures r.Err? ==> r.error == if j.JObj? then "KeyError" else "TypeError"
  {
    if !j.JObj? then Err("TypeError")
    else if key in j.fields then Ok(j.fields[key])
    else Err("KeyError")
  }

  /** `j.get(key, default)`: only a dictionary has `get`. */
  function GetOr(j: Json, key: string, default: Json): (r: Result<Json>)
    ensures r.Ok? <==> j.JObj?
    ensures j.JObj? ==> r.value == if key in j.fields then j.fields[key] else default
  {
    if !j.JObj? then Err("AttributeError")
    else Ok(if key in j.fields then j.fields[key] else default)
  }

  /** `j[i]` with an integer index: lists and strings count from the end
      for a negative index; a decoded object has only string keys. */
  function At(j: Json, i: int): (r: Result<Json>)
    ensures j.JList? && r.Ok? ==> r.value in j.items
    ensures j.JList? && 0 <= i < |j.items| ==> r == Ok(j.items[i])
    ensures j.JList? && (i >= |j.items| || i < -|j.items|) ==> r == Err("IndexError")
  {
    match j
    case JList(xs) => (match PyIndex(|xs|, i) case Some(k) => Ok(xs[k]) case None => Err("IndexError"))
    case JStr(s) => (match PyIndex(|s|, i) case Some(k) => Ok(JStr([s[k]])) case None => Err("IndexError"))
    case JObj(_) => Err("KeyError")
    case _ => Err("TypeError")
  }

  /** What `for x in j` visits: the items of a list, the characters of a
      string, the keys of a dictionary; other values are not iterable. */
  function Elements(j: Json): (r: Result<seq<Json>>)
    ensures r.Ok? <==> j.JList? || j.JStr? || j.JObj?
    ensures r.Err? ==> r.error == "TypeError"
    ensures j.JList? ==> r == Ok(j.items)
    ensures j.JStr? ==> r.Ok? && |r.value| == |j.s| && forall k :: 0 <= k < |j.s| ==> r.value[k] == JStr([j.s[k]])
    ensures j.JObj? ==> r.Ok? && (forall x :: x in r.value <==> x.JStr? && x.s in j.fields)
    ensures j.JObj? ==> r.Ok? && forall a, b :: 0 <= a < b < |r.value| ==> r.value[a] != r.value[b]
  {
    match j
    case JList(xs) => Ok(xs)
    case JStr(s) => Ok(seq(|s|, k requires 0 <= k < |s| => JStr([s[k]])))
    case JObj(e) =>
      var ks := KeyOrder(e);
      var xs := seq(|ks|, k requires 0 <= k < |ks| => JStr(ks[k]));
      assert forall x :: x in xs ==> x.JStr? && x.s in ks;
      assert forall k :: k in ks ==> JStr(k) in xs by {
        forall k | k in ks ensures JStr(k) in xs {
          var i :| 0 <= i < |ks| && ks[i] == k;
          assert xs[i] == JStr(k);
        }
      }
      Ok(xs)
    case _ => Err("TypeError")
  }

  /** Values that can be dictionary keys. */
  predicate Hashable(j: Json)
  {
    !j.JList? && !j.JObj?
  }

  /** `a in b` for strings: `a` occurs in `b` at some position. */
  predicate IsSubstring(a: string, b: string)
    decreases |b|
  {
    (|a| <= |b| && b[..|a|] == a) || (b != [] && IsSubstring(a, b[1..]))
  }

  /** `x in container`. */
  function Contains(container: Json, x: Json): (r: Result<bool>)
    ensures container.JObj? && x.JStr? ==> r == Ok(x.s in container.fields)
    ensures container.JList? ==> r == Ok(x in container.items)
    ensures container.JStr? && x.JStr? ==> r == Ok(IsSubstring(x.s, container.s))
    ensures !container.JObj? && !container.JList? && !container.JStr? ==> r.Err?
  {
    match container
    case JObj(_) => if x.JStr? then Ok(x.s in container.fields) else if Hashable(x) then Ok(false) else Err("TypeError")
    case JList(xs) => Ok(x in xs)
    case JStr(s) => if x.JStr? then Ok(IsSubstring(x.s, s)) else Err("TypeError")
    case _ => Err("TypeError")
  }

  /** One element of the iterable given to `dict.update`: it must iterate
      to exactly two items, and the first, the key, must be hashable. */
  function PairOf(x: Json): (r: Result<(Json, Json)>)
    ensures r.Ok? <==> Elements(x).Ok? && |Elements(x).value| == 2 && Hashable(Elements(x).value[0])
    ensures r.Ok? ==> Elements(x).value == [r.value.0, r.value.1]
    ensures Elements(x).Ok? && |Elements(x).value| != 2 ==> r == Err("ValueError")
  {
    match Elements(x)
    case Err(e) => Err(e)
    case Ok(kv) =>
      if |kv| != 2 then Err("ValueError")
      else if !Hashable(kv[0]) then Err("TypeError")
      else Ok((kv[0], kv[1]))
  }

  /** `d.update(xs)` for an iterable of pairs: the pairs are stored one by
      one, and the first element that is not a pair raises, keeping the
      pairs before it. The mapping holds string keys only; a pair whose
      key is a number, a boolean or `None` is not kept. */
  function UpdatePairs(d: map<string, Json>, xs: seq<Json>): (Outcome, map<string, Json>)
    decreases |xs|
  {
    if xs == [] then (Done, d)
    else match PairOf(xs[0])
      case Err(e) => (Raised(e), d)
      case Ok(p) => UpdatePairs(if p.0.JStr? then d[p.0.s := p.1] else d, xs[1..])
  }

  /** `d.update(src)`: a dictionary's entries are copied over, any other
      iterable is read as pairs, and other values are not iterable. */
  function DictUpdate(d: map<string, Json>, src: Json): (Outcome, map<string, Json>)
  {
    if src.JObj? then (Done, d + src.fields)
    else match Elements(src)
      case Err(e) => (Raised(e), d)
      case Ok(xs) => UpdatePairs(d, xs)
  }

  /** Every element is a pair with a string key. */
  predicate StringPairs(xs: seq<Json>)
  {
    forall i :: 0 <= i < |xs| ==> PairOf(xs[i]).Ok? && PairOf(xs[i]).value.0.JStr?
  }

  /** The entries such pairs insert. */
  function EntriesOf(xs: seq<Json>): (e: seq<(string, Json)>)
    requires StringPairs(xs)
    ensures |e| == |xs|
  {
    seq(|xs|, i requires 0 <= i < |xs| => (PairOf(xs[i]).value.0.s, PairOf(xs[i]).value.1))
  }

  /** Updating from pairs with string keys completes, and gives what
      updating from the dictionary those pairs build gives. */
  lemma UpdateFromPairs(d: map<string, Json>, xs: seq<Json>)
    requires StringPairs(xs)
    ensures DictUpdate(d, JList(xs)) == DictUpdate(d, JObj(EntriesOf(xs)))
  {
    PairsAsDict(d, xs);
  }

  /** Storing string-keyed pairs one by one overrides `d` with the
      mapping the pairs build. */
  lemma {:induction false} PairsAsDict(d: map<string, Json>, xs: seq<Json>)
    requires StringPairs(xs)
    ensures UpdatePairs(d, xs) == (Done, d + FieldsOf(EntriesOf(xs)))
    decreases |xs|
  {
    if xs == [] {
      assert EntriesOf(xs) == [];
      assert d + FieldsOf([]) == d;
    } else {
      var p := PairOf(xs[0]).value;
      var k, v := p.0.s, p.1;
      var rest := xs[1..];
      assert StringPairs(rest) by {
        forall i | 0 <= i < |rest| ensures PairOf(rest[i]).Ok? && PairOf(rest[i]).value.0.JStr? {
          assert rest[i] == xs[i + 1];
        }
      }
      assert UpdatePairs(d, xs) == UpdatePairs(d[k := v], rest);
      PairsAsDict(d[k := v], rest);
      var er := EntriesOf(rest);
      assert EntriesOf(xs) == [(k, v)] + er by {
        forall i | 0 <= i < |xs| ensures EntriesOf(xs)[i] == ([(k, v)] + er)[i] {
          if i > 0 {
            assert xs[i] == rest[i - 1];
          }
        }
      }
      FieldsOfConcat([(k, v)], er);
      assert FieldsOf([(k, v)]) == map[k := v] by {
        assert [(k, v)][..0] == [];
      }
      MapPlusAssoc(d, k, v, FieldsOf(er));
    }
  }

  lemma MapPlusAssoc(d: map<string, Json>, k: string, v: Json, m: map<string, Json>)
    ensures d[k := v] + m == d + (map[k := v] + m)
  {
  }

  /** A string updates with its one-character strings, none of which is a
      pair: only the empty string leaves the mapping as it was. */
  lemma UpdateFromString(d: map<string, Json>, s: string)
    ensures DictUpdate(d, JStr(s)) == if s == [] then (Done, d) else (Raised("ValueError"), d)
  {
    if s != [] {
      var xs := Elements(JStr(s)).value;
      assert xs[0] == JStr([s[0]]);
      assert Elements(xs[0]).value == [JStr([s[0]])];
    }
  }
}
