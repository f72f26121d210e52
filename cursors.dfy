/** The table of remote cursors in project.py (`self.cursors`), keyed by
    client id. Three server messages change it: `clientUpdated` merges new
    fields into cursors it already knows, `clientDisconnected` forgets the
    listed clients, and the answer to `getConnectedUsers` stores every
    connected client with its `cursorData` fields flattened into it. Each
    walks its arguments in order; the first argument that raises stops the
    walk, keeping the changes made before it. */
module Cursors {
  import opened Base
  import opened JsonValues

  /** Client id to cursor fields. */
  type Table = map<Json, map<string, Json>>

  /** One `clientUpdated` argument: `if "id" in cursor and cursor["id"] in
      self.cursors: self.cursors[cursor["id"]].update(cursor)`. */
  function UpdateOne(t: Table, cursor: Json): Result<Table>
  {
    match Contains(cursor, JStr("id"))
    case Err(e) => Err(e)
    case Ok(has) =>
      if !has then Ok(t)
      else match Get(cursor, "id")
        case Err(e) => Err(e)
        case Ok(id) =>
          if !Hashable(id) then Err("TypeError")
          else if id !in t then Ok(t)
          else Ok(t[id := t[id] + cursor.fields])
  }

  /** The `clientUpdated` loop over `data["args"]`. */
  function MergeUpdated(t: Table, args: seq<Json>): (Outcome, Table)
    decreases |args|
  {
    if args == [] then (Done, t)
    else match UpdateOne(t, args[0])
      case Err(e) => (Raised(e), t)
      case Ok(t1) => MergeUpdated(t1, args[1..])
  }

  /** The id an argument names, when it is an object with an `"id"`. */
  function NamedId(cursor: Json): Option<Json>
  {
    if cursor.JObj? && "id" in cursor.fields then Some(cursor.fields["id"]) else None
  }

  /** `clientUpdated` never adds a cursor: only known ids are merged. */
  lemma {:induction false} MergeKeepsKeys(t: Table, args: seq<Json>)
    ensures MergeUpdated(t, args).1.Keys == t.Keys
    decreases |args|
  {
    if args != [] {
      match UpdateOne(t, args[0])
      case Err(_) =>
      case Ok(t1) =>
        assert t1.Keys == t.Keys;
        MergeKeepsKeys(t1, args[1..]);
    }
  }

  /** A cursor that no argument names is left as it was. */
  lemma {:induction false} MergeUntouched(t: Table, args: seq<Json>, id: Json)
    requires id in t
    requires forall k :: 0 <= k < |args| ==> NamedId(args[k]) != Some(id)
    ensures id in MergeUpdated(t, args).1 && MergeUpdated(t, args).1[id] == t[id]
    decreases |args|
  {
    MergeKeepsKeys(t, args);
    if args != [] {
      match UpdateOne(t, args[0])
      case Err(_) =>
      case Ok(t1) =>
        assert t1[id] == t[id] by {
          assert NamedId(args[0]) != Some(id);
        }
        MergeUntouched(t1, args[1..], id);
    }
  }

  /** Merging an object argument into a known cursor gives every field of
      the argument its new value and keeps the cursor's other fields. */
  lemma UpdateOneMerges(t: Table, c: Json)
    requires c.JObj?
    requires var m := c.fields; "id" in m && Hashable(m["id"]) && m["id"] in t
    ensures var r := UpdateOne(t, c); var m := c.fields;
      r.Ok? && r.value.Keys == t.Keys &&
      (forall f :: f in m ==> f in r.value[m["id"]] && r.value[m["id"]][f] == m[f]) &&
      (forall f :: f in t[m["id"]] && f !in m ==> f in r.value[m["id"]] && r.value[m["id"]][f] == t[m["id"]][f])
  {
  }

  /** One `clientDisconnected` argument: `if id in self.cursors: del
      self.cursors[id]`. */
  function DropOne(t: Table, id: Json): Result<Table>
  {
    if !Hashable(id) then Err("TypeError")
    else Ok(if id in t then t - {id} else t)
  }

  /** The `clientDisconnected` loop over `data["args"]`. */
  function DropAll(t: Table, ids: seq<Json>): (Outcome, Table)
    decreases |ids|
  {
    if ids == [] then (Done, t)
    else match DropOne(t, ids[0])
      case Err(e) => (Raised(e), t)
      case Ok(t1) => DropAll(t1, ids[1..])
  }

  /** Hashable ids are all forgotten, and every other cursor kept. */
  lemma {:induction false} DropAllForgets(t: Table, ids: seq<Json>)
    requires forall k :: 0 <= k < |ids| ==> Hashable(ids[k])
    ensures var r := DropAll(t, ids);
      r.0 == Done && (forall c :: c in r.1 <==> c in t && c !in ids) &&
      forall c :: c in r.1 ==> r.1[c] == t[c]
    decreases |ids|
  {
    if ids != [] {
      var t1 := DropOne(t, ids[0]).value;
      DropAllForgets(t1, ids[1..]);
      assert forall c :: c in ids <==> c == ids[0] || c in ids[1..];
    }
  }

  /** A connected user as stored: `cursorData`, when present, is removed
      and the cursor is updated from it as `dict.update` does, so a
      dictionary's fields are merged in, an iterable of pairs stores each
      pair, and anything else raises. A cursor that is not a dictionary
      fails at the `cursor["client_id"]` that follows. */
  function Flattened(cursor: Json): Result<map<string, Json>>
  {
    match Contains(cursor, JStr("cursorData"))
    case Err(e) => Err(e)
    case Ok(has) =>
      if !has then (if cursor.JObj? then Ok(cursor.fields) else Err("TypeError"))
      else match Get(cursor, "cursorData")
        case Err(e) => Err(e)
        case Ok(cd) =>
          match DictUpdate(FieldsOf(Without(cursor.entries, "cursorData")), cd)
          case (Raised(e), _) => Err(e)
          case (Done, m) => Ok(m)
  }

  /** Flattening keeps the cursor's own fields, lets `cursorData`'s fields
      win, and drops the `cursorData` entry unless it names itself. */
  lemma FlattenedMerges(c: Json)
    requires c.JObj? && "cursorData" in c.fields && c.fields["cursorData"].JObj?
    ensures var r := Flattened(c); var m := c.fields; var cd := m["cursorData"].fields;
      r.Ok? &&
      (forall f :: f in cd ==> f in r.value && r.value[f] == cd[f]) &&
      (forall f :: f in m && f != "cursorData" && f !in cd ==> f in r.value && r.value[f] == m[f]) &&
      (forall f :: f in r.value ==> f in cd || (f in m && f != "cursorData"))
  {
    WithoutFields(c.entries, "cursorData");
  }

  /** A `cursorData` that is a list of string-keyed pairs, the empty list
      among them, stores each pair over the cursor's other fields. */
  lemma FlattenedPairs(c: Json)
    requires c.JObj? && "cursorData" in c.fields && c.fields["cursorData"].JList?
    requires StringPairs(c.fields["cursorData"].items)
    ensures var xs := c.fields["cursorData"].items;
      Flattened(c) == Ok((c.fields - {"cursorData"}) + FieldsOf(EntriesOf(xs)))
  {
    WithoutFields(c.entries, "cursorData");
    PairsAsDict(c.fields - {"cursorData"}, c.fields["cursorData"].items);
  }

  /** A `cursorData` that cannot be iterated, or a string of more than one
      character, raises, so the cursor is not stored. */
  lemma FlattenedRejects(c: Json)
    requires c.JObj? && "cursorData" in c.fields
    ensures var cd := c.fields["cursorData"];
      (cd.JNull? || cd.JBool? || cd.JInt? ==> Flattened(c) == Err("TypeError")) &&
      (cd.JStr? ==> Flattened(c) == if cd.s == [] then Ok(c.fields - {"cursorData"}) else Err("ValueError"))
  {
    WithoutFields(c.entries, "cursorData");
    var cd := c.fields["cursorData"];
    if cd.JStr? {
      UpdateFromString(c.fields - {"cursorData"}, cd.s);
    }
  }

  /** One entry of the `getConnectedUsers` answer:
      `self.cursors[cursor["client_id"]] = cursor` after flattening. */
  function AddUser(t: Table, cursor: Json): Result<Table>
  {
    match Flattened(cursor)
    case Err(e) => Err(e)
    case Ok(c) =>
      if "client_id" !in c then Err("KeyError")
      else if Hashable(c["client_id"]) then Ok(t[c["client_id"] := c]) else Err("TypeError")
  }

  /** The loop over `data[1]` of the `getConnectedUsers` answer. */
  function AddUsers(t: Table, users: seq<Json>): (Outcome, Table)
    decreases |users|
  {
    if users == [] then (Done, t)
    else match AddUser(t, users[0])
      case Err(e) => (Raised(e), t)
      case Ok(t1) => AddUsers(t1, users[1..])
  }

  /** The client id a user entry is stored under. */
  function ClientId(cursor: Json): Option<Json>
  {
    match Flattened(cursor)
    case Ok(c) => if "client_id" in c then Some(c["client_id"]) else None
    case Err(_) => None
  }

  /** A completed answer keeps every known cursor id, stores every user
      under its client id, and stores the last user's flattened fields. */
  lemma {:induction false} AddUsersStores(t: Table, users: seq<Json>)
    ensures var r := AddUsers(t, users);
      r.0 == Done ==>
        t.Keys <= r.1.Keys &&
        (forall k :: 0 <= k < |users| ==> ClientId(users[k]).Some? && ClientId(users[k]).value in r.1) &&
        (users != [] ==> r.1[ClientId(users[|users| - 1]).value] == Flattened(users[|users| - 1]).value)
    decreases |users|
  {
    if users != [] {
      match AddUser(t, users[0])
      case Err(_) =>
      case Ok(t1) =>
        AddUsersStores(t1, users[1..]);
        var r := AddUsers(t, users);
        if r.0 == Done {
          assert ClientId(users[0]).Some?;
          forall k | 0 <= k < |users| ensures ClientId(users[k]).Some? && ClientId(users[k]).value in r.1 {
            if k > 0 {
              assert users[k] == users[1..][k - 1];
            }
          }
          if |users| > 1 {
            assert users[|users| - 1] == users[1..][|users[1..]| - 1];
          }
        }
    }
  }

  /** The answer `[null, [{"client_id": "u", "cursorData": []}]]`: an
      empty `cursorData` adds nothing, and the user is stored. */
  lemma EmptyCursorDataStored(t: Table)
    ensures AddUsers(t, [JObj([("client_id", JStr("u")), ("cursorData", JList([]))])])
      == (Done, t[JStr("u") := map["client_id" := JStr("u")]])
  {
    var e := [("client_id", JStr("u")), ("cursorData", JList([]))];
    var c := JObj(e);
    assert e[..1] == [("client_id", JStr("u"))] && e[..1][..0] == [];
    assert FieldsOf(e[..1]) == map["client_id" := JStr("u")];
    assert c.fields == FieldsOf(e[..1])["cursorData" := JList([])];
    assert StringPairs([]);
    assert EntriesOf([]) == [];
    FlattenedPairs(c);
    var m := map["client_id" := JStr("u")];
    assert c.fields - {"cursorData"} == m;
    assert m + FieldsOf([]) == m;
    assert AddUser(t, c) == Ok(t[JStr("u") := m]);
    assert [c][1..] == [];
  }
}
