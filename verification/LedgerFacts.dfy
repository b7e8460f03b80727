/** What every statement keeps of the tables, row by row. */
module LedgerFacts {
  import opened Wrappers
  import opened Requests
  import opened Ledger

  lemma {:induction false} FindUnique(rows: seq<Row>, r: Row)
    requires UniqueEvents(rows) && r in rows
    ensures Find(rows, r.eventId) == Some(r)
  {
  }

  lemma {:induction false} DeleteAscends(rows: seq<Row>, ids: seq<nat>)
    requires Ascending(rows)
    ensures Ascending(Delete(rows, ids))
  {
    if rows != [] {
      DeleteAscends(rows[1..], ids);
      var rest := Delete(rows[1..], ids);
      forall i | 0 <= i < |rest|
        ensures rows[0].id < rest[i].id
      {
        assert rest[i] in rows[1..];
      }
    }
  }

  lemma {:induction false} DeleteUnique(rows: seq<Row>, ids: seq<nat>)
    requires UniqueEvents(rows)
    ensures UniqueEvents(Delete(rows, ids))
  {
    if rows != [] {
      DeleteUnique(rows[1..], ids);
      var rest := Delete(rows[1..], ids);
      forall i | 0 <= i < |rest|
        ensures rows[0].eventId != rest[i].eventId
      {
        assert rest[i] in rows[1..];
      }
    }
  }

  /** Rows that only change their status or URI keep ids and event ids, hence the table in order. */
  lemma RelabelledTables(before: Tables, after: Tables)
    requires TablesOk(before) && |after.rows| == |before.rows| && after.nextId == before.nextId
    requires forall i | 0 <= i < |before.rows| ::
               after.rows[i].id == before.rows[i].id && after.rows[i].eventId == before.rows[i].eventId
    ensures TablesOk(after)
  {
  }

  lemma CreateKeepsTables(t: Tables, q: Request)
    requires TablesOk(t)
    ensures TablesOk(Create(t, q))
  {
  }

  lemma RetainKeepsTables(t: Tables, ids: seq<nat>, watermark: nat)
    requires TablesOk(t)
    ensures TablesOk(Retain(t, ids, watermark))
  {
    DeleteAscends(t.rows, ids);
    DeleteUnique(t.rows, ids);
  }

  /** The rows an UPDATE leaves, one by one: each is the relabelled form of one row before it. */
  lemma StoredRowOrigin(t: Tables, eventId: EventId, uri: Uri, r: Row) returns (b: Row)
    requires r in SetStored(t, eventId, uri).rows
    ensures b in t.rows && r == if b.eventId == eventId then StoredRow(b, uri) else b
  {
    var i :| 0 <= i < |t.rows| && SetStored(t, eventId, uri).rows[i] == r;
    b := t.rows[i];
  }

  lemma FailedRowOrigin(t: Tables, eventId: EventId, r: Row) returns (b: Row)
    requires r in SetFailed(t, eventId).rows
    ensures b in t.rows && r == if b.eventId == eventId then b.(status := Failed) else b
  {
    var i :| 0 <= i < |t.rows| && SetFailed(t, eventId).rows[i] == r;
    b := t.rows[i];
  }

  /** And every row before the UPDATE is still there in its relabelled form. */
  lemma UpdatedRow(t: Tables, eventId: EventId, uri: Uri, b: Row)
    requires b in t.rows
    ensures (if b.eventId == eventId then StoredRow(b, uri) else b) in SetStored(t, eventId, uri).rows
    ensures (if b.eventId == eventId then b.(status := Failed) else b) in SetFailed(t, eventId).rows
  {
    var i :| 0 <= i < |t.rows| && t.rows[i] == b;
    assert SetStored(t, eventId, uri).rows[i] in SetStored(t, eventId, uri).rows;
    assert SetFailed(t, eventId).rows[i] in SetFailed(t, eventId).rows;
  }

  lemma UpdatesKeepTables(t: Tables, eventId: EventId, uri: Uri)
    requires TablesOk(t)
    ensures TablesOk(SetStored(t, eventId, uri)) && TablesOk(SetFailed(t, eventId))
  {
    RelabelledTables(t, SetStored(t, eventId, uri));
    RelabelledTables(t, SetFailed(t, eventId));
  }

  /** What an UPDATE changes: the one row of its event id, into this. */
  ghost predicate ChangesOne(before: seq<Row>, after: seq<Row>, eventId: EventId, changed: Row) {
    && changed in after
    && (forall r | r in after && r != changed :: r in before)
    && (forall r | r in before && r.eventId != eventId :: r in after)
  }

  lemma UpdatesChangeOne(t: Tables, b: Row, uri: Uri)
    requires TablesOk(t) && b in t.rows
    ensures TablesOk(SetStored(t, b.eventId, uri)) && TablesOk(SetFailed(t, b.eventId))
    ensures ChangesOne(t.rows, SetStored(t, b.eventId, uri).rows, b.eventId, StoredRow(b, uri))
    ensures ChangesOne(t.rows, SetFailed(t, b.eventId).rows, b.eventId, b.(status := Failed))
  {
    UpdatesKeepTables(t, b.eventId, uri);
    forall r | r in t.rows
      ensures (if r.eventId == b.eventId then StoredRow(r, uri) else r) in SetStored(t, b.eventId, uri).rows
      ensures (if r.eventId == b.eventId then r.(status := Failed) else r) in SetFailed(t, b.eventId).rows
    {
      UpdatedRow(t, b.eventId, uri, r);
    }
    forall r | r in SetStored(t, b.eventId, uri).rows && r != StoredRow(b, uri)
      ensures r in t.rows
    {
      var c := StoredRowOrigin(t, b.eventId, uri, r);
      FindUnique(t.rows, b);
      FindUnique(t.rows, c);
    }
    forall r | r in SetFailed(t, b.eventId).rows && r != b.(status := Failed)
      ensures r in t.rows
    {
      var c := FailedRowOrigin(t, b.eventId, r);
      FindUnique(t.rows, b);
      FindUnique(t.rows, c);
    }
  }

  lemma SameId(rows: seq<Row>, r: Row, s: Row)
    requires Ascending(rows) && r in rows && s in rows && r.id == s.id
    ensures r == s
  {
  }

  lemma AscendingTail(rows: seq<Row>)
    requires rows != [] && Ascending(rows)
    ensures Ascending(rows[1..]) && forall r | r in rows[1..] :: rows[0].id < r.id
  {
  }

  lemma HasMember(rows: seq<Row>)
    ensures rows == [] || exists r :: r in rows
  {
    assert rows != [] ==> rows[0] in rows;
  }

  /** Rows in id order are determined by which rows they are. */
  lemma {:induction false} AscendingSame(a: seq<Row>, b: seq<Row>)
    requires Ascending(a) && Ascending(b) && forall r :: r in a <==> r in b
    ensures a == b
  {
    if a == [] {
      HasMember(b);
    } else {
      assert a[0] in b;
      AscendingTail(a);
      AscendingTail(b);
      assert b[0] in a;
      assert a[0] == b[0];
      forall r
        ensures r in a[1..] <==> r in b[1..]
      {
        assert r in a <==> r == a[0] || r in a[1..];
        assert r in b <==> r == b[0] || r in b[1..];
      }
      AscendingSame(a[1..], b[1..]);
    }
  }

  lemma {:induction false} StoredBetweenIsShorter(rows: seq<Row>, after: Option<nat>, through: nat)
    ensures |StoredBetween(rows, after, through)| <= |rows|
  {
    if rows != [] {
      StoredBetweenIsShorter(rows[1..], after, through);
    }
  }

  lemma {:induction false} StoredBetweenAscends(rows: seq<Row>, after: Option<nat>, through: nat)
    requires Ascending(rows)
    ensures Ascending(StoredBetween(rows, after, through))
  {
    if rows != [] {
      AscendingTail(rows);
      StoredBetweenAscends(rows[1..], after, through);
      var rest := StoredBetween(rows[1..], after, through);
      forall i | 0 <= i < |rest|
        ensures rows[0].id < rest[i].id
      {
        assert rest[i] in rows[1..];
      }
    }
  }

  /** The rows a DELETE takes, in order. */
  function Deleted(rows: seq<Row>, ids: seq<nat>): (gone: seq<Row>)
    ensures forall r :: r in gone <==> r in rows && r.status.Stored? && r.id in ids
    ensures |gone| + |Delete(rows, ids)| == |rows|
  {
    if rows == [] then []
    else if rows[0].status.Stored? && rows[0].id in ids then [rows[0]] + Deleted(rows[1..], ids)
    else Deleted(rows[1..], ids)
  }

  lemma {:induction false} DeletedAscends(rows: seq<Row>, ids: seq<nat>)
    requires Ascending(rows)
    ensures Ascending(Deleted(rows, ids))
  {
    if rows != [] {
      AscendingTail(rows);
      DeletedAscends(rows[1..], ids);
      var rest := Deleted(rows[1..], ids);
      forall i | 0 <= i < |rest|
        ensures rows[0].id < rest[i].id
      {
        assert rest[i] in rows[1..];
      }
    }
  }
}
