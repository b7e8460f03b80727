/**
 The GORM ledger as an object over its tables. Each SQL statement draws one fault; the methods
 say which statements ran and what they did.
 */
module GormLedger {
  import opened Wrappers
  import opened Faults
  import opened Requests
  import opened Ledger
  import opened Replay
  import Cursors

  datatype DatabaseError = DatabaseError

  lemma TakeAppend<T>(a: seq<T>, b: seq<T>, n: nat)
    requires |a| <= n && (b == [] || |a| == n)
    ensures Take(a + b, n) == a
  {
  }

  lemma FoundFront(all: seq<Row>, found: seq<Row>, rest: seq<Row>, limit: int)
    requires all == found + rest && |found| <= EffectiveLimit(limit)
    requires rest == [] || |found| == EffectiveLimit(limit)
    ensures found == Take(all, EffectiveLimit(limit)) && FrontWithin(found, all, limit)
  {
    TakeAppend(found, rest, EffectiveLimit(limit));
    TakeIsFront(all, limit);
  }

  /** What the SELECT after a statement can come back with; it is made only if the statement worked. */
  ghost predicate Reread(t: Tables, eventId: EventId, faults: seq<Fault>, record: Result<Row, DatabaseError>) {
    && 1 <= |faults| <= 2 && (|faults| == 2 <==> faults[0].Works?)
    && record == if |faults| == 2 && faults[1].Works? && Find(t.rows, eventId).Some?
                 then Ok(Find(t.rows, eventId).value) else Err(DatabaseError)
  }

  class Gorm {
    var rows: seq<Row>
    var nextId: nat
    var watermark: Option<nat>
    var attempts: seq<Attempt>
    const oracle: Oracle

    constructor (oracle: Oracle)
      ensures this.oracle == oracle && State() == EMPTY_TABLES
    {
      this.oracle := oracle;
      rows, nextId, watermark, attempts := [], 1, None, [];
    }

    ghost function State(): Tables
      reads this
    {
      Tables(rows, nextId, watermark, attempts)
    }

    method GetEvent(eventId: EventId) returns (result: Result<Option<Row>, DatabaseError>, ghost fault: Fault)
      modifies oracle
      ensures oracle.log == old(oracle.log) + [fault]
      ensures result == if fault.Works? then Ok(Find(rows, eventId)) else Err(DatabaseError)
    {
      var f := oracle.Draw();
      fault := f;
      if !f.Works? {
        return Err(DatabaseError), fault;
      }
      var i := 0;
      while i < |rows| && rows[i].eventId != eventId
        invariant 0 <= i <= |rows|
        invariant Find(rows, eventId) == Find(rows[i..], eventId)
      {
        i := i + 1;
      }
      return Ok(if i < |rows| then Some(rows[i]) else None), fault;
    }

    /** The SELECT after a statement: the row must be there. */
    method RequireEvent(eventId: EventId) returns (result: Result<Row, DatabaseError>, ghost fault: Fault)
      modifies oracle
      ensures oracle.log == old(oracle.log) + [fault]
      ensures result == if fault.Works? && Find(rows, eventId).Some? then Ok(Find(rows, eventId).value)
                        else Err(DatabaseError)
    {
      var found;
      found, fault := GetEvent(eventId);
      if found.Err? || found.value.None? {
        return Err(DatabaseError), fault;
      }
      return Ok(found.value.value), fault;
    }

    /** INSERT .. ON CONFLICT DO NOTHING, then read back whatever row the event id has. */
    method InsertReceived(q: Request) returns (result: Result<Row, DatabaseError>, ghost faults: seq<Fault>)
      modifies this, oracle
      ensures oracle.log == old(oracle.log) + faults && Reread(State(), q.eventId, faults, result)
      ensures State() == if faults[0].TakesEffect() then Create(old(State()), q) else old(State())
    {
      var insert := oracle.Draw();
      faults := [insert];
      if insert.TakesEffect() && Find(rows, q.eventId).None? {
        rows, nextId := rows + [NewRow(nextId, q)], nextId + 1;
      }
      if !insert.Works? {
        return Err(DatabaseError), faults;
      }
      ghost var select;
      result, select := RequireEvent(q.eventId);
      faults := faults + [select];
    }

    method MarkStored(eventId: EventId, uri: Uri) returns (result: Result<Row, DatabaseError>, ghost faults: seq<Fault>)
      modifies this, oracle
      ensures oracle.log == old(oracle.log) + faults && Reread(State(), eventId, faults, result)
      ensures State() == if faults[0].TakesEffect() then SetStored(old(State()), eventId, uri) else old(State())
    {
      var update := oracle.Draw();
      faults := [update];
      if update.TakesEffect() {
        rows := SetStored(Tables(rows, nextId, watermark, attempts), eventId, uri).rows;
      }
      if !update.Works? {
        return Err(DatabaseError), faults;
      }
      ghost var select;
      result, select := RequireEvent(eventId);
      faults := faults + [select];
    }

    method MarkFailed(eventId: EventId) returns (result: Result<Row, DatabaseError>, ghost faults: seq<Fault>)
      modifies this, oracle
      ensures oracle.log == old(oracle.log) + faults && Reread(State(), eventId, faults, result)
      ensures State() == if faults[0].TakesEffect() then SetFailed(old(State()), eventId) else old(State())
    {
      var update := oracle.Draw();
      faults := [update];
      if update.TakesEffect() {
        rows := SetFailed(Tables(rows, nextId, watermark, attempts), eventId).rows;
      }
      if !update.Works? {
        return Err(DatabaseError), faults;
      }
      ghost var select;
      result, select := RequireEvent(eventId);
      faults := faults + [select];
    }

    method RecordAttempt(eventId: EventId, status: AttemptStatus) returns (ghost fault: Fault)
      modifies this, oracle
      ensures oracle.log == old(oracle.log) + [fault]
      ensures State() == if fault.TakesEffect() then LogAttempt(old(State()), eventId, status) else old(State())
    {
      var f := oracle.Draw();
      fault := f;
      if f.TakesEffect() {
        attempts := attempts + [Attempt(eventId, status)];
      }
    }

    method GetReplayWatermark() returns (result: Result<Option<nat>, DatabaseError>, ghost fault: Fault)
      modifies oracle
      ensures oracle.log == old(oracle.log) + [fault]
      ensures result == if fault.Works? then Ok(watermark) else Err(DatabaseError)
    {
      var f := oracle.Draw();
      return if f.Works? then Ok(watermark) else Err(DatabaseError), f;
    }

    /** Stored rows in (after, through] in id order, at most `limit` of them. */
    method RetentionCandidates(after: Option<nat>, through: nat, limit: int)
      returns (result: Result<seq<Row>, DatabaseError>, ghost fault: Fault)
      modifies oracle
      ensures oracle.log == old(oracle.log) + [fault]
      ensures result == if fault.Works? then Ok(Take(StoredBetween(rows, after, through), EffectiveLimit(limit)))
                        else Err(DatabaseError)
      ensures result.Ok? ==> FrontWithin(result.value, StoredBetween(rows, after, through), limit)
    {
      var f := oracle.Draw();
      fault := f;
      if !f.Works? {
        return Err(DatabaseError), fault;
      }
      var most := EffectiveLimit(limit);
      var records: seq<Row> := [];
      var i := 0;
      while i < |rows| && |records| < most
        invariant 0 <= i <= |rows| && |records| <= most
        invariant StoredBetween(rows, after, through) == records + StoredBetween(rows[i..], after, through)
      {
        assert rows[i..][0] == rows[i] && rows[i..][1..] == rows[i + 1..];
        if Retainable(rows[i], after, through) {
          records := records + [rows[i]];
        }
        i := i + 1;
      }
      FoundFront(StoredBetween(rows, after, through), records, StoredBetween(rows[i..], after, through), limit);
      return Ok(records), fault;
    }

    /** DELETE .. WHERE status = 'stored' AND id IN ids. */
    method DeleteStoredEvents(ids: seq<nat>)
      modifies this`rows
      ensures rows == Delete(old(rows), ids)
    {
      var kept: seq<Row> := [];
      var i := 0;
      while i < |rows|
        invariant 0 <= i <= |rows| && rows == old(rows)
        invariant Delete(rows, ids) == kept + Delete(rows[i..], ids)
      {
        assert rows[i..][0] == rows[i] && rows[i..][1..] == rows[i + 1..];
        if !(rows[i].status.Stored? && rows[i].id in ids) {
          kept := kept + [rows[i]];
        }
        i := i + 1;
      }
      rows := kept;
    }

    /** One transaction: the watermark is set and the stored rows among these ids are deleted. */
    method RetainStoredEvents(ids: seq<nat>, cursor: nat)
      returns (result: Result<nat, DatabaseError>, ghost fault: Fault)
      requires ids != []
      modifies this, oracle
      ensures oracle.log == old(oracle.log) + [fault]
      ensures State() == if fault.TakesEffect() then Retain(old(State()), ids, cursor) else old(State())
      ensures result == if fault.Works? then Ok(|old(rows)| - |Retain(old(State()), ids, cursor).rows|)
                        else Err(DatabaseError)
    {
      var f := oracle.Draw();
      fault := f;
      var before := |rows|;
      if f.TakesEffect() {
        watermark := Some(cursor);
        DeleteStoredEvents(ids);
      }
      if !f.Works? {
        return Err(DatabaseError), fault;
      }
      return Ok(before - |rows|), fault;
    }

    /** Stored rows after the cursor that pass the filters: a page of them, and whether there are more. */
    method ReplayEvents(after: Option<nat>, filter: Filter, limit: int)
      returns (result: Result<Page, ReplayError>, ghost faults: seq<Fault>)
      modifies oracle
      ensures oracle.log == old(oracle.log) + faults
      ensures match Cursors.NormalizeReplayLimit(limit)
              case Err(error) => faults == [] && result == Err(InvalidLimit(error))
              case Ok(size) =>
                && |faults| == 1
                && result == if faults[0].Works? then Ok(PageOf(rows, after, filter, size)) else Err(LedgerUnavailable)
    {
      var normalized := Cursors.NormalizeReplayLimit(limit);
      if normalized.Err? {
        return Err(InvalidLimit(normalized.error)), [];
      }
      var size := normalized.value;
      var query := oracle.Draw();
      faults := [query];
      if !query.Works? {
        return Err(LedgerUnavailable), faults;
      }
      var found := SelectSome(after, filter, size + 1);
      if |found| > size {
        return Ok(Page(found[..size], Some(found[size - 1].id), size)), faults;
      }
      return Ok(Page(found, None, size)), faults;
    }

    /** SELECT .. WHERE .. ORDER BY id LIMIT most. */
    method SelectSome(after: Option<nat>, filter: Filter, most: nat) returns (found: seq<Row>)
      ensures found == Take(Select(rows, after, filter), most)
    {
      found := [];
      var i := 0;
      while i < |rows| && |found| < most
        invariant 0 <= i <= |rows| && |found| <= most
        invariant Select(rows, after, filter) == found + Select(rows[i..], after, filter)
      {
        assert rows[i..][0] == rows[i] && rows[i..][1..] == rows[i + 1..];
        if Replayable(rows[i], after, filter) {
          found := found + [rows[i]];
        }
        i := i + 1;
      }
      TakeAppend(found, Select(rows[i..], after, filter), most);
    }
  }
}
