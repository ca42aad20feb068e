// The task list: its cursor codec, list_task_summaries and AgentAPIService.list_tasks.
module Paging {
  import opened Wrappers
  import opened Text
  import opened Json
  import opened JsonSize
  import opened Base64Url

  datatype Key = Key(created: Text, id: Text)

  // trusted: the stored state decodes.
  datatype Row = Row(key: Key, trusted: bool)

  datatype Error = InvalidCursor | InvalidLimit | StateUntrusted

  datatype Page = Page(rows: seq<Row>, next: Option<Text>)

  // ---- Cursors -------------------------------------------------------------------------------

  const MAX_CURSOR := 512
  const MAX_CREATED := 128
  const MAX_ID := 128
  const CREATED := Ascii("created_at")
  const ID := Ascii("task_id")

  function Payload(k: Key): Json { Obj([Field(CREATED, Str(k.created)), Field(ID, Str(k.id))]) }

  // json.dumps(...).encode("utf-8") of the two texts, and json.loads(bytes.decode("utf-8")),
  // None where it raises.
  datatype JsonCodec = JsonCodec(dumps: Json -> seq<Byte>, loads: seq<Byte> -> Option<Json>)

  ghost predicate Lawful(c: JsonCodec) {
    forall k: Key {:trigger Payload(k)} ::
      c.loads(c.dumps(Payload(k))) == Some(Payload(k)) && |c.dumps(Payload(k))| == Size(Payload(k), 1)
  }

  predicate IdChar(c: Char) {
    65 <= c <= 90 || 97 <= c <= 122 || 48 <= c <= 57 || c == 46 || c == 95 || c == 58 || c == 45
  }

  // _safe_id: the pattern's 128 is tighter than the explicit 256.
  predicate IsId(t: Text) {
    0 < |t| <= MAX_ID && forall i :: 0 <= i < |t| ==> IdChar(t[i])
  }

  function EncodeCursor(c: JsonCodec, k: Key): Text {
    Encode(c.dumps(Payload(k)))
  }

  function LookupName(fs: seq<Field>, name: Text): Option<Json> {
    if fs == [] then None else if fs[0].name == name then Some(fs[0].value) else LookupName(fs[1..], name)
  }

  function KeyOf(payload: Json): Result<Key, Error> {
    if !payload.Obj? || |payload.fields| != 2 then Err(InvalidCursor)
    else
      var created, id := LookupName(payload.fields, CREATED), LookupName(payload.fields, ID);
      if created.None? || id.None? then Err(InvalidCursor)
      else if !created.value.Str? || created.value.s == [] || |created.value.s| > MAX_CREATED then Err(InvalidCursor)
      else if !id.value.Str? || !IsId(id.value.s) then Err(InvalidCursor)
      else Ok(Key(created.value.s, id.value.s))
  }

  function DecodeCursor(c: JsonCodec, cursor: Text): Result<Key, Error> {
    if cursor == [] || |cursor| > MAX_CURSOR || !InAlphabet(cursor) then Err(InvalidCursor)
    else
      var bytes := Decode(cursor);
      if bytes.None? then Err(InvalidCursor)
      else
        var payload := c.loads(bytes.value);
        if payload.None? then Err(InvalidCursor) else KeyOf(payload.value)
  }

  // The keys whose cursor can be followed.
  predicate Addressable(k: Key) {
    0 < |k.created| <= 128 && IsId(k.id) && TextSize(k.created) + |k.id| <= 354
  }

  lemma {:induction false} IdSize(t: Text)
    requires forall i :: 0 <= i < |t| ==> IdChar(t[i])
    ensures TextSize(t) == |t|
  {
    if t != [] {
      IdSize(t[..|t| - 1]);
    }
  }

  lemma NameSizes()
    ensures TextSize(CREATED) == 10 && TextSize(ID) == 7 && CREATED != ID
  {
    IdSize(CREATED);
    IdSize(ID);
  }

  lemma PayloadSize(k: Key)
    ensures Size(Payload(k), 1) == 30 + TextSize(k.created) + TextSize(k.id)
  {
    NameSizes();
    var fs := Payload(k).fields;
    assert fs[..1][..0] == [];
    assert FieldsSize(fs[..1], 1) == 2 + TextSize(CREATED) + 1 + Size(Str(k.created), 1);
    assert FieldsSize(fs, 1) == FieldsSize(fs[..1], 1) + 1 + 2 + TextSize(ID) + 1 + Size(Str(k.id), 1);
  }

  lemma PayloadKey(k: Key)
    ensures KeyOf(Payload(k)) ==
              if 0 < |k.created| <= MAX_CREATED && IsId(k.id) then Ok(k) else Err(InvalidCursor)
  {
    NameSizes();
    var fs := Payload(k).fields;
    assert LookupName(fs, CREATED) == Some(Str(k.created));
    assert LookupName(fs, ID) == LookupName(fs[1..], ID) == Some(Str(k.id));
  }

  // A cursor decodes to the key it was made from exactly when the key is addressable: with at
  // most 384 bytes of JSON, encoded in at most 512 characters. Otherwise it is refused.
  lemma CursorRoundTrip(c: JsonCodec, k: Key)
    requires Lawful(c)
    ensures DecodeCursor(c, EncodeCursor(c, k)) == if Addressable(k) then Ok(k) else Err(InvalidCursor)
  {
    var bytes := c.dumps(Payload(k));
    DecodeEncode(bytes);
    PayloadSize(k);
    PayloadKey(k);
    if IsId(k.id) {
      IdSize(k.id);
    }
    assert |EncodeCursor(c, k)| <= MAX_CURSOR <==> |bytes| <= 384;
  }

  // Timestamps in printable ASCII are always short enough.
  lemma PlainKeysAreAddressable(k: Key)
    requires 0 < |k.created| <= MAX_CREATED && IsId(k.id)
    requires forall i :: 0 <= i < |k.created| ==> IdChar(k.created[i]) || k.created[i] == 0x2B
    ensures Addressable(k)
  {
    PlainSize(k.created);
  }

  lemma {:induction false} PlainSize(t: Text)
    requires forall i :: 0 <= i < |t| ==> IdChar(t[i]) || t[i] == 0x2B
    ensures TextSize(t) == |t|
  {
    if t != [] {
      PlainSize(t[..|t| - 1]);
    }
  }

  // ---- The query -----------------------------------------------------------------------------

  predicate Before(a: Key, b: Key) {
    Less(a.created, b.created) || (a.created == b.created && Less(a.id, b.id))
  }

  // The WHERE clause; None: no cursor.
  predicate Matches(k: Key, cursor: Option<Key>) {
    cursor.None? || Before(k, cursor.value)
  }

  function Filtered(table: seq<Row>, cursor: Option<Key>): seq<Row> {
    if table == [] then []
    else (if Matches(table[0].key, cursor) then [table[0]] else []) + Filtered(table[1..], cursor)
  }

  function Insert(r: Row, rows: seq<Row>): seq<Row> {
    if rows == [] || Before(rows[0].key, r.key) then [r] + rows else [rows[0]] + Insert(r, rows[1..])
  }

  // ORDER BY created_at DESC, task_id DESC
  function Ordered(rows: seq<Row>): seq<Row> {
    if rows == [] then [] else Insert(rows[0], Ordered(rows[1..]))
  }

  function Take<T>(s: seq<T>, n: nat): seq<T> { if |s| <= n then s else s[..n] }

  function ListTaskSummaries(table: seq<Row>, cursor: Option<Key>, limit: nat): seq<Row> {
    Take(Ordered(Filtered(table, cursor)), limit)
  }

  // task_id is the primary key.
  ghost predicate DistinctIds(table: seq<Row>) {
    forall i, j :: 0 <= i < j < |table| ==> table[i].key.id != table[j].key.id
  }

  ghost predicate Descending(rows: seq<Row>) {
    forall i, j :: 0 <= i < j < |rows| ==> Before(rows[j].key, rows[i].key)
  }

  lemma BeforeTransitive(a: Key, b: Key, c: Key)
    requires Before(a, b) && Before(b, c)
    ensures Before(a, c)
  {
    if Less(a.created, b.created) && Less(b.created, c.created) {
      LessTransitive(a.created, b.created, c.created);
    } else if a.created == b.created == c.created {
      LessTransitive(a.id, b.id, c.id);
    }
  }

  lemma BeforeTotal(a: Key, b: Key)
    ensures a == b || Before(a, b) || Before(b, a)
  {
    LessTotal(a.created, b.created);
    LessTotal(a.id, b.id);
  }

  lemma BeforeIrreflexive(a: Key)
    ensures !Before(a, a)
  {
    LessIrreflexive(a.created);
    LessIrreflexive(a.id);
  }

  lemma {:induction false} FilteredIs(table: seq<Row>, cursor: Option<Key>)
    ensures forall r :: r in Filtered(table, cursor) <==> r in table && Matches(r.key, cursor)
    ensures DistinctIds(table) ==> DistinctIds(Filtered(table, cursor))
  {
    if table != [] {
      FilteredIs(table[1..], cursor);
      assert table == [table[0]] + table[1..];
      var rest := Filtered(table[1..], cursor);
      forall i | 0 <= i < |rest| ensures rest[i] in table[1..] {}
    }
  }

  lemma {:induction false} InsertIs(r: Row, rows: seq<Row>)
    ensures |Insert(r, rows)| == |rows| + 1
    ensures forall x :: x in Insert(r, rows) <==> x == r || x in rows
  {
    if rows != [] && !Before(rows[0].key, r.key) {
      InsertIs(r, rows[1..]);
      assert rows == [rows[0]] + rows[1..];
    }
  }

  lemma {:induction false} InsertKeepsOrder(r: Row, rows: seq<Row>)
    requires Descending(rows) && forall i :: 0 <= i < |rows| ==> rows[i].key != r.key
    ensures Descending(Insert(r, rows))
  {
    if rows == [] {
    } else if Before(rows[0].key, r.key) {
      forall i | 1 <= i < |rows| ensures Before(rows[i].key, r.key) {
        BeforeTransitive(rows[i].key, rows[0].key, r.key);
      }
    } else {
      BeforeTotal(r.key, rows[0].key);
      InsertKeepsOrder(r, rows[1..]);
      InsertIs(r, rows[1..]);
      var rest := Insert(r, rows[1..]);
      forall j | 0 <= j < |rest| ensures Before(rest[j].key, rows[0].key) {
        assert rest[j] in rest;
      }
    }
  }

  lemma {:induction false} OrderedIs(rows: seq<Row>)
    requires DistinctIds(rows)
    ensures Descending(Ordered(rows)) && |Ordered(rows)| == |rows|
    ensures forall r :: r in Ordered(rows) <==> r in rows
  {
    if rows != [] {
      OrderedIs(rows[1..]);
      InsertIs(rows[0], Ordered(rows[1..]));
      assert rows == [rows[0]] + rows[1..];
      forall i | 0 <= i < |Ordered(rows[1..])| ensures Ordered(rows[1..])[i].key != rows[0].key {
        assert Ordered(rows[1..])[i] in rows[1..];
      }
      InsertKeepsOrder(rows[0], Ordered(rows[1..]));
    }
  }

  // A query result: matching rows in descending order, and every matching row it leaves out
  // comes after all of them, and is left out only because the limit was reached.
  lemma QueryIs(table: seq<Row>, cursor: Option<Key>, limit: nat)
    requires DistinctIds(table)
    ensures var rows := ListTaskSummaries(table, cursor, limit);
      && Descending(rows) && |rows| <= limit
      && (forall r :: r in rows ==> r in table && Matches(r.key, cursor))
      && (forall r :: r in table && Matches(r.key, cursor) && r !in rows ==>
            |rows| == limit && forall i :: 0 <= i < |rows| ==> Before(r.key, rows[i].key))
  {
    var all := Ordered(Filtered(table, cursor));
    FilteredIs(table, cursor);
    OrderedIs(Filtered(table, cursor));
    var rows := ListTaskSummaries(table, cursor, limit);
    forall r | r in table && Matches(r.key, cursor) && r !in rows
      ensures |rows| == limit && forall i :: 0 <= i < |rows| ==> Before(r.key, rows[i].key)
    {
      assert r in all;
      var j :| 0 <= j < |all| && all[j] == r;
      assert j >= |rows|;
    }
  }
}
