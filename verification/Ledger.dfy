/** The ledger tables and what each SQL statement does to them. */
module Ledger {
  import opened Wrappers
  import opened Events
  import opened Requests
  import Cursors

  datatype Status = Received | Failed | Stored

  /** A row of `ingest_event`; `id` is the auto-increment key that serves as replay cursor. */
  datatype Row = Row(
    id: nat,
    eventId: EventId,
    columns: Columns,
    payloadHash: Hash,
    eventHash: Hash,
    status: Status,
    uri: Option<Uri>,
    text: Text)

  datatype AttemptStatus = AttemptStored | AttemptDuplicate | AttemptConflict | AttemptFailed

  /** A row of `ingest_attempt`. */
  datatype Attempt = Attempt(eventId: EventId, status: AttemptStatus)

  /** Rows are kept in id order. */
  datatype Tables = Tables(rows: seq<Row>, nextId: nat, watermark: Option<nat>, attempts: seq<Attempt>)

  const EMPTY_TABLES := Tables([], 1, None, [])

  /** SELECT by the unique event_id. */
  function Find(rows: seq<Row>, eventId: EventId): (found: Option<Row>)
    ensures found.Some? ==> found.value in rows && found.value.eventId == eventId
    ensures found.None? ==> forall r | r in rows :: r.eventId != eventId
  {
    if rows == [] then None
    else if rows[0].eventId == eventId then Some(rows[0])
    else Find(rows[1..], eventId)
  }

  function NewRow(id: nat, q: Request): Row {
    Row(id, q.eventId, q.columns, q.payloadHash, q.eventHash, Received, None, q.text)
  }

  /** INSERT .. ON CONFLICT DO NOTHING. */
  function Create(t: Tables, q: Request): Tables {
    if Find(t.rows, q.eventId).Some? then t
    else t.(rows := t.rows + [NewRow(t.nextId, q)], nextId := t.nextId + 1)
  }

  function StoredRow(r: Row, uri: Uri): Row {
    r.(status := Stored, uri := Some(uri))
  }

  /** UPDATE .. SET status = 'stored', storage_uri = uri WHERE event_id = eventId. */
  function SetStored(t: Tables, eventId: EventId, uri: Uri): Tables {
    t.(rows := seq(|t.rows|, i requires 0 <= i < |t.rows| =>
      if t.rows[i].eventId == eventId then StoredRow(t.rows[i], uri) else t.rows[i]))
  }

  /** UPDATE .. SET status = 'failed' WHERE event_id = eventId. */
  function SetFailed(t: Tables, eventId: EventId): Tables {
    t.(rows := seq(|t.rows|, i requires 0 <= i < |t.rows| =>
      if t.rows[i].eventId == eventId then t.rows[i].(status := Failed) else t.rows[i]))
  }

  function LogAttempt(t: Tables, eventId: EventId, status: AttemptStatus): Tables {
    t.(attempts := t.attempts + [Attempt(eventId, status)])
  }

  /** DELETE .. WHERE status = 'stored' AND id IN ids. */
  function Delete(rows: seq<Row>, ids: seq<nat>): (kept: seq<Row>)
    ensures |kept| <= |rows|
    ensures forall r :: r in kept <==> r in rows && !(r.status.Stored? && r.id in ids)
  {
    if rows == [] then []
    else if rows[0].status.Stored? && rows[0].id in ids then Delete(rows[1..], ids)
    else [rows[0]] + Delete(rows[1..], ids)
  }

  /** The retention transaction: the watermark is overwritten, then the rows go. */
  function Retain(t: Tables, ids: seq<nat>, watermark: nat): Tables {
    t.(rows := Delete(t.rows, ids), watermark := Some(watermark))
  }

  /** Rows the query `status = 'stored' AND id > after AND id <= through` selects, in id order. */
  function StoredBetween(rows: seq<Row>, after: Option<nat>, through: nat): (found: seq<Row>)
    ensures forall r :: r in found <==> r in rows && Retainable(r, after, through)
  {
    if rows == [] then []
    else if Retainable(rows[0], after, through) then [rows[0]] + StoredBetween(rows[1..], after, through)
    else StoredBetween(rows[1..], after, through)
  }

  predicate Retainable(r: Row, after: Option<nat>, through: nat) {
    r.status.Stored? && r.id <= through && (after.Some? ==> r.id > after.value)
  }

  /** A retention limit that is not positive means MAX_REPLAY_LIMIT. */
  function EffectiveLimit(limit: int): nat {
    if limit <= 0 then Cursors.MAX_REPLAY_LIMIT else limit
  }

  function Take<T>(s: seq<T>, n: nat): seq<T> {
    if |s| <= n then s else s[..n]
  }

  /** A count that the limit allows: a limit that is not positive allows 1000. */
  ghost predicate Within(n: int, limit: int) {
    n <= if limit > 0 then limit else 1000
  }

  ghost predicate Reaches(n: int, limit: int) {
    n == if limit > 0 then limit else 1000
  }

  /** The front of a list, all of it unless that is more than the limit allows. */
  ghost predicate FrontWithin(front: seq<Row>, all: seq<Row>, limit: int) {
    && |front| <= |all| && front == all[..|front|]
    && Within(|front|, limit) && (|front| < |all| ==> Reaches(|front|, limit))
  }

  lemma TakeIsFront(all: seq<Row>, limit: int)
    ensures FrontWithin(Take(all, EffectiveLimit(limit)), all, limit)
  {
  }

  /** What the schema guarantees: ids ascend, are never reused, and event ids are unique. */
  ghost predicate TablesOk(t: Tables) {
    && 1 <= t.nextId
    && Ascending(t.rows)
    && (forall r | r in t.rows :: 1 <= r.id < t.nextId)
    && UniqueEvents(t.rows)
  }

  ghost predicate Ascending(rows: seq<Row>) {
    forall i, j | 0 <= i < j < |rows| :: rows[i].id < rows[j].id
  }

  ghost predicate UniqueEvents(rows: seq<Row>) {
    forall i, j | 0 <= i < j < |rows| :: rows[i].eventId != rows[j].eventId
  }
}
