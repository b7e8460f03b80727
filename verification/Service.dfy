/**
 The ingest service, method by method. Each method moves the machine from its own entry point to
 where it returns, under whatever faults the outside world dealt it; so `Ingest` is exactly a walk
 of the machine, and every theorem about walks is about this code.
 */
module IngestService {
  import opened Wrappers
  import opened Faults
  import opened Events
  import opened Requests
  import opened Storage
  import opened Ledger
  import opened GormLedger
  import opened S3Adapter
  import opened FilesystemAdapter
  import opened Machine
  import opened Replay
  import Answers
  import Cursors
  import Keys
  import Retention

  datatype Adapter = OnS3(s3: S3) | OnDisk(disk: Filesystem)

  class Service {
    const ledger: Gorm
    const storage: Adapter
    const hashing: Keys.Hashing
    const cfg: Config
    const oracle: Oracle

    constructor (ledger: Gorm, storage: Adapter, hashing: Keys.Hashing, reject: bool)
      requires ledger.oracle == if storage.OnS3? then storage.s3.oracle else storage.disk.oracle
      ensures Valid() && Configured()
      ensures this.ledger == ledger && this.storage == storage && this.hashing == hashing && cfg.reject == reject
    {
      this.ledger, this.storage, this.hashing, this.oracle := ledger, storage, hashing, ledger.oracle;
      this.cfg := Keys.ServiceConfig(storage.OnS3?, reject, hashing);
    }

    /** Texts are read the way this service's own hashing says. */
    ghost predicate Configured() {
      cfg == Keys.ServiceConfig(cfg.archiveFirst, cfg.reject, hashing)
    }

    ghost predicate Valid() {
      && cfg.archiveFirst == storage.OnS3?
      && ledger.oracle == oracle
      && oracle == if storage.OnS3? then storage.s3.oracle else storage.disk.oracle
    }

    ghost function Objects(): Objects
      reads if storage.OnS3? then {storage.s3} else {storage.disk}
    {
      if storage.OnS3? then storage.s3.objects else storage.disk.files
    }

    ghost function State(): World
      reads ledger, if storage.OnS3? then {storage.s3} else {storage.disk}
    {
      World(ledger.State(), Objects())
    }

    ghost function Repr(): set<object> {
      {ledger, oracle} + if storage.OnS3? then {storage.s3 as object} else {storage.disk as object}
    }

    /** One statement of the machine, made by the ledger. */
    lemma Advanced(q: Request, w: World, pc: Pc, log: seq<Fault>, v: World, at: Pc, log': seq<Fault>, fault: Fault)
      requires Ran(cfg, w, Ingesting(q, pc), log, v, Ingesting(q, at), log') && !at.Done?
      ensures var (v', next) := IngestStep(cfg, q, v, at, fault);
              Ran(cfg, w, Ingesting(q, pc), log, v', Ingesting(q, next), log' + [fault])
    {
      RanStep(cfg, w, Ingesting(q, pc), log, v, Ingesting(q, at), log', fault);
    }

    /** A ledger method that makes a statement and, if that worked, a SELECT. */
    lemma OneOrTwoCalls(q: Request, w: World, pc: Pc, log: seq<Fault>, faults: seq<Fault>)
      requires 1 <= |faults| <= 2 && !pc.Done?
      ensures var (v, next) := IngestStep(cfg, q, w, pc, faults[0]);
              if |faults| == 1 then Ran(cfg, w, Ingesting(q, pc), log, v, Ingesting(q, next), log + faults)
              else
                var (u, last) := IngestStep(cfg, q, v, next, faults[1]);
                !next.Done? ==> Ran(cfg, w, Ingesting(q, pc), log, u, Ingesting(q, last), log + faults)
    {
      assert log[|log|..] == [];
      var (v, next) := IngestStep(cfg, q, w, pc, faults[0]);
      Advanced(q, w, pc, log, w, pc, log, faults[0]);
      if |faults| == 1 {
        assert log + faults == log + [faults[0]];
      } else if !next.Done? {
        assert log + faults == log + [faults[0]] + [faults[1]];
        Advanced(q, w, pc, log, v, next, log + [faults[0]], faults[1]);
      }
    }

    /** The attempt log is written and its errors are ignored. */
    method RecordAttempt(q: Request, status: AttemptStatus, ghost next: Pc)
      requires Valid()
      modifies Repr()
      ensures Ran(cfg, old(State()), Ingesting(q, Logging(status, next)), old(oracle.log),
                  State(), Ingesting(q, next), oracle.log)
      ensures Objects() == old(Objects())
    {
      ghost var w, log := State(), oracle.log;
      var fault := ledger.RecordAttempt(q.eventId, status);
      assert log[|log|..] == [];
      Advanced(q, w, Logging(status, next), log, w, Logging(status, next), log, fault);
    }

    /** Stores that nobody wrote to are in the same state. */
    twostate lemma Untouched()
      requires ledger.State() == old(ledger.State())
      requires storage.OnS3? ==> storage.s3.objects == old(storage.s3.objects)
      requires storage.OnDisk? ==> storage.disk.files == old(storage.disk.files)
      ensures State() == old(State())
    {
    }

    /** `Ingest`: hashes, canonical text and keys first, then the store calls. */
    method Ingest(e: Envelope) returns (outcome: Outcome)
      requires Valid() && IsUuid(e.eventId)
      modifies Repr()
      ensures var q := Keys.RequestOf(hashing, e);
              && Ran(cfg, old(State()), Ingesting(q, Begin(q)), old(oracle.log),
                     State(), Ingesting(q, Done(outcome)), oracle.log)
              && Answers.Says(cfg, Find(old(State()).tables.rows, e.eventId), old(Objects()), q, outcome)
      ensures outcome == Refused(HashValidationError) <==> !Checked(e)
      ensures !Checked(e) ==> State() == old(State()) && oracle.log == old(oracle.log)
      ensures outcome.Accepted? && outcome.verdict.VerdictConflict? ==>
                var row := Find(old(State()).tables.rows, e.eventId);
                && outcome.eventId == e.eventId
                && outcome.uri == (if row.Some? && (row.value.eventHash != e.eventHash
                                                    || row.value.payloadHash != e.payloadHash)
                                   then row.value.uri else None)
    {
      ghost var w, log := State(), oracle.log;
      var q := FormRequest(e);
      Untouched();
      outcome := IngestRequest(q);
      Answers.WalkSays(cfg, w, q, oracle.log[|log|..], State(), outcome);
      if !q.verified {
        Answers.WalkOfRefused(cfg, w, q, oracle.log[|log|..]);
        assert oracle.log == log + oracle.log[|log|..];
      }
    }

    /** Every hash that has to be right is. */
    ghost predicate Checked(e: Envelope) {
      && (hashing.requirePayloadHash ==> hashing.payloadSha(e.payload) == e.payloadHash)
      && (hashing.requireEventHash ==> hashing.eventSha(CanonicalEvent(e) - {EventHashF}) == e.eventHash)
    }

    /** Hashes, canonical text and key: what the store calls need of an envelope. */
    method FormRequest(e: Envelope) returns (q: Request)
      ensures q == Keys.RequestOf(hashing, e)
      ensures q.verified <==> Checked(e)
      ensures q.columns.producerService == e.producerService && q.columns.eventName == e.eventName
      ensures q.columns.subjectType == e.subjectType && q.columns.subjectId == e.subjectId
      ensures q.columns.aggregateType == e.aggregateType && q.columns.aggregateId == e.aggregateId
      ensures q.columns.correlationId == e.correlationId
    {
      var valid := ValidateHashes(e);
      var rawEnvelope := CanonicalEventMap(e);
      q := Request(e.eventId, Keys.ColumnsOf(e), e.payloadHash, e.eventHash, rawEnvelope, Keys.FinalKeyOf(e), valid);
    }

    /** Whether every hash that is required matches. */
    method ValidateHashes(e: Envelope) returns (valid: bool)
      ensures valid == Keys.HashesMatch(hashing, e)
      ensures valid <==> Checked(e)
    {
      if hashing.requirePayloadHash {
        var actual := hashing.payloadSha(e.payload);
        if actual != e.payloadHash {
          return false;
        }
      }
      if hashing.requireEventHash {
        var data := CanonicalEventWithoutEventHash(e);
        var actual := hashing.eventSha(data);
        if actual != e.eventHash {
          return false;
        }
      }
      return true;
    }

    /** An ingest from the verdict on its hashes on. */
    method IngestRequest(q: Request) returns (outcome: Outcome)
      requires Valid()
      modifies Repr()
      ensures Ran(cfg, old(State()), Ingesting(q, Begin(q)), old(oracle.log),
                  State(), Ingesting(q, Done(outcome)), oracle.log)
    {
      if !q.verified {
        return Refused(HashValidationError);
      }
      ghost var w, p, log := State(), Ingesting(q, Looking), oracle.log;
      var existing, _ := ledger.GetEvent(q.eventId);
      Advanced(q, w, Looking, log, w, Looking, log, oracle.log[|log|]);
      if existing.Err? {
        return Refused(LedgerError);
      }
      ghost var looked, lookedLog := State(), oracle.log;
      if existing.value.Some? {
        outcome := HandleExisting(existing.value.value, q);
        RanTrans(cfg, w, p, log, w, Ingesting(q, Machine.HandleExisting(cfg, q, existing.value.value)), lookedLog,
                 State(), Ingesting(q, Done(outcome)), oracle.log);
        return;
      }
      if cfg.archiveFirst {
        outcome := StoreInsertAndMark(q);
        RanTrans(cfg, w, p, log, w, Ingesting(q, Writing(false, Put(Guard))), lookedLog,
                 State(), Ingesting(q, Done(outcome)), oracle.log);
        return;
      }
      outcome := InsertAndStore(q);
      RanTrans(cfg, w, p, log, w, Ingesting(q, Creating(None)), lookedLog,
               State(), Ingesting(q, Done(outcome)), oracle.log);
    }

    /** Ledger-first, an event id without a row: claim it, then archive and mark. */
    method InsertAndStore(q: Request) returns (outcome: Outcome)
      requires Valid() && !cfg.archiveFirst
      modifies Repr()
      ensures Ran(cfg, old(State()), Ingesting(q, Creating(None)), old(oracle.log),
                  State(), Ingesting(q, Done(outcome)), oracle.log)
    {
      ghost var w, log := State(), oracle.log;
      var inserted := InsertReceived(q, None);
      if inserted.Err? {
        return inserted.error;
      }
      ghost var inserting, insertingLog := State(), oracle.log;
      if inserted.value.eventHash != q.eventHash {
        outcome := HandleExisting(inserted.value, q);
      } else {
        outcome := StoreAndMark(q);
      }
      RanTrans(cfg, w, Ingesting(q, Creating(None)), log,
               inserting, Ingesting(q, AfterInsert(cfg, q, None, inserted.value)), insertingLog,
               State(), Ingesting(q, Done(outcome)), oracle.log);
    }

    ghost function Inserted(q: Request, uri: Option<Uri>, record: Result<Row, DatabaseError>): Pc {
      if record.Ok? then AfterInsert(cfg, q, uri, record.value) else LedgerFailure()
    }

    lemma InsertRuns(q: Request, uri: Option<Uri>, w: World, t: Tables, log: seq<Fault>, faults: seq<Fault>,
                     record: Result<Row, DatabaseError>)
      requires Reread(t, q.eventId, faults, record)
      requires t == if faults[0].TakesEffect() then Create(w.tables, q) else w.tables
      ensures Ran(cfg, w, Ingesting(q, Creating(uri)), log,
                  w.(tables := t), Ingesting(q, Inserted(q, uri, record)), log + faults)
    {
      OneOrTwoCalls(q, w, Creating(uri), log, faults);
    }

    lemma MarkRuns(q: Request, uri: Uri, w: World, t: Tables, log: seq<Fault>, faults: seq<Fault>,
                   stored: Result<Row, DatabaseError>)
      requires Reread(t, q.eventId, faults, stored)
      requires t == if faults[0].TakesEffect() then SetStored(w.tables, q.eventId, uri) else w.tables
      ensures Ran(cfg, w, Ingesting(q, Marking(uri)), log, w.(tables := t), Ingesting(q, Marked(stored)), log + faults)
    {
      OneOrTwoCalls(q, w, Marking(uri), log, faults);
    }

    lemma FailRuns(q: Request, w: World, t: Tables, log: seq<Fault>, faults: seq<Fault>)
      requires 1 <= |faults| <= 2 && (|faults| == 2 <==> faults[0].Works?)
      requires t == if faults[0].TakesEffect() then SetFailed(w.tables, q.eventId) else w.tables
      ensures Ran(cfg, w, Ingesting(q, MarkingFailed), log,
                  w.(tables := t), Ingesting(q, Done(Refused(StorageError))), log + faults)
    {
      OneOrTwoCalls(q, w, MarkingFailed, log, faults);
    }

    /** The ledger's InsertReceived alone. */
    method CallInsertReceived(q: Request, ghost uri: Option<Uri>) returns (record: Result<Row, DatabaseError>)
      requires Valid()
      modifies Repr()
      ensures Ran(cfg, old(State()), Ingesting(q, Creating(uri)), old(oracle.log),
                  State(), Ingesting(q, Inserted(q, uri, record)), oracle.log)
      ensures Objects() == old(Objects())
    {
      ghost var w, log := State(), oracle.log;
      ghost var faults;
      record, faults := ledger.InsertReceived(q);
      InsertRuns(q, uri, w, ledger.State(), log, faults, record);
    }

    /** The ledger's InsertReceived with its error branch: on failure the attempt is logged. */
    method InsertReceived(q: Request, ghost uri: Option<Uri>) returns (result: Result<Row, Outcome>)
      requires Valid()
      modifies Repr()
      ensures Ran(cfg, old(State()), Ingesting(q, Creating(uri)), old(oracle.log),
                  State(), Ingesting(q, AfterInserting(q, uri, result)), oracle.log)
      ensures Objects() == old(Objects())
    {
      ghost var w, log := State(), oracle.log;
      var record := CallInsertReceived(q, uri);
      if record.Err? {
        ghost var failing, failingLog := State(), oracle.log;
        RecordAttempt(q, AttemptFailed, Done(Refused(LedgerError)));
        RanTrans(cfg, w, Ingesting(q, Creating(uri)), log, failing, Ingesting(q, LedgerFailure()), failingLog,
                 State(), Ingesting(q, Done(Refused(LedgerError))), oracle.log);
        return Err(Refused(LedgerError));
      }
      return Ok(record.value);
    }

    ghost function AfterInserting(q: Request, uri: Option<Uri>, result: Result<Row, Outcome>): Pc {
      match result
      case Ok(r) => AfterInsert(cfg, q, uri, r)
      case Err(outcome) => Done(outcome)
    }

    method HandleExisting(existing: Row, q: Request) returns (outcome: Outcome)
      requires Valid()
      modifies Repr()
      ensures Ran(cfg, old(State()), Ingesting(q, Machine.HandleExisting(cfg, q, existing)), old(oracle.log),
                  State(), Ingesting(q, Done(outcome)), oracle.log)
      ensures existing.eventHash != q.eventHash || existing.payloadHash != q.payloadHash ==>
                outcome == if cfg.reject then Refused(HashConflictError)
                           else Accepted(VerdictConflict, q.eventId, existing.uri)
      ensures existing.eventHash == q.eventHash && existing.payloadHash == q.payloadHash
              && existing.status.Stored? && existing.uri.Some? ==>
                outcome == Accepted(VerdictDuplicate, q.eventId, existing.uri)
    {
      if existing.eventHash != q.eventHash || existing.payloadHash != q.payloadHash {
        RecordAttempt(q, AttemptConflict, Machine.Conflict(cfg, q, existing.uri).next);
        if cfg.reject {
          return Refused(HashConflictError);
        }
        return Accepted(VerdictConflict, q.eventId, existing.uri);
      }
      if existing.status.Stored? && existing.uri.Some? {
        outcome := Accepted(VerdictDuplicate, q.eventId, existing.uri);
        RecordAttempt(q, AttemptDuplicate, Done(outcome));
        return;
      }
      outcome := StoreAndMark(q);
    }

    method StoreInsertAndMark(q: Request) returns (outcome: Outcome)
      requires Valid() && cfg.archiveFirst
      modifies Repr()
      ensures Ran(cfg, old(State()), Ingesting(q, Writing(false, Put(Guard))), old(oracle.log),
                  State(), Ingesting(q, Done(outcome)), oracle.log)
    {
      ghost var w, p, log := State(), Ingesting(q, Writing(false, Put(Guard))), oracle.log;
      var written := WriteRawEvent(q, false);
      if written.Err? {
        return written.error;
      }
      ghost var archived, archivedLog := State(), oracle.log;
      var inserted := InsertReceived(q, Some(written.value));
      RanTrans(cfg, w, p, log, archived, Ingesting(q, Creating(Some(written.value))), archivedLog,
               State(), Ingesting(q, AfterInserting(q, Some(written.value), inserted)), oracle.log);
      if inserted.Err? {
        return inserted.error;
      }
      ghost var inserting, insertingLog := State(), oracle.log;
      var record := inserted.value;
      ghost var next := AfterInsert(cfg, q, Some(written.value), record);
      if record.eventHash != q.eventHash || record.payloadHash != q.payloadHash {
        outcome := HandleExisting(record, q);
      } else if record.status.Stored? && record.uri.Some? {
        outcome := Accepted(VerdictDuplicate, q.eventId, record.uri);
        RecordAttempt(q, AttemptDuplicate, Done(outcome));
      } else {
        outcome := MarkStored(q, written.value);
      }
      RanTrans(cfg, w, p, log, inserting, Ingesting(q, next), insertingLog,
               State(), Ingesting(q, Done(outcome)), oracle.log);
    }

    method StoreAndMark(q: Request) returns (outcome: Outcome)
      requires Valid()
      modifies Repr()
      ensures Ran(cfg, old(State()), Ingesting(q, Writing(true, StoreBegin(cfg.archiveFirst))), old(oracle.log),
                  State(), Ingesting(q, Done(outcome)), oracle.log)
    {
      ghost var w, p, log := State(), Ingesting(q, Writing(true, StoreBegin(cfg.archiveFirst))), oracle.log;
      var written := WriteRawEvent(q, true);
      if written.Err? {
        return written.error;
      }
      ghost var archived, archivedLog := State(), oracle.log;
      outcome := MarkStored(q, written.value);
      RanTrans(cfg, w, p, log, archived, Ingesting(q, Marking(written.value)), archivedLog,
               State(), Ingesting(q, Done(outcome)), oracle.log);
    }

    /** The adapter's write alone. */
    method CallStorage(q: Request, ghost markFailed: bool) returns (result: WriteResult)
      requires Valid()
      modifies Repr()
      ensures Ran(cfg, old(State()), Ingesting(q, Writing(markFailed, StoreBegin(cfg.archiveFirst))), old(oracle.log),
                  State(), Ingesting(q, AfterWrite(cfg, q, markFailed, result)), oracle.log)
    {
      ghost var w, log := State(), oracle.log;
      if storage.OnS3? {
        result := storage.s3.WriteRawEvent(q);
      } else {
        result := storage.disk.WriteRawEvent(q);
      }
      WalkStore(cfg, w, q, markFailed, StoreBegin(cfg.archiveFirst), oracle.log[|log|..]);
    }

    method MarkFailed(q: Request)
      requires Valid()
      modifies Repr()
      ensures Ran(cfg, old(State()), Ingesting(q, MarkingFailed), old(oracle.log),
                  State(), Ingesting(q, Done(Refused(StorageError))), oracle.log)
    {
      ghost var w, log := State(), oracle.log;
      var _, faults := ledger.MarkFailed(q.eventId);
      FailRuns(q, w, ledger.State(), log, faults);
    }

    /** The adapter's write with its error branches; an error has already been logged. */
    method WriteRawEvent(q: Request, markFailed: bool) returns (result: Result<Uri, Outcome>)
      requires Valid()
      modifies Repr()
      ensures Ran(cfg, old(State()), Ingesting(q, Writing(markFailed, StoreBegin(cfg.archiveFirst))), old(oracle.log),
                  State(), Ingesting(q, AfterWriting(markFailed, result)), oracle.log)
    {
      ghost var w, log, pc := State(), oracle.log, Writing(markFailed, StoreBegin(cfg.archiveFirst));
      var written := CallStorage(q, markFailed);
      if written.Written? {
        return Ok(written.uri);
      }
      ghost var returned, returnedLog := State(), oracle.log;
      var outcome := ReportWriteError(q, markFailed, written);
      RanTrans(cfg, w, Ingesting(q, pc), log,
               returned, Ingesting(q, AfterWrite(cfg, q, markFailed, written)), returnedLog,
               State(), Ingesting(q, Done(outcome)), oracle.log);
      return Err(outcome);
    }

    method ReportWriteError(q: Request, markFailed: bool, written: WriteResult) returns (outcome: Outcome)
      requires Valid() && !written.Written?
      modifies Repr()
      ensures Ran(cfg, old(State()), Ingesting(q, AfterWrite(cfg, q, markFailed, written)), old(oracle.log),
                  State(), Ingesting(q, Done(outcome)), oracle.log)
    {
      ghost var w, log, pc := State(), oracle.log, AfterWrite(cfg, q, markFailed, written);
      if written.Conflicting? {
        RecordAttempt(q, AttemptConflict, pc.next);
        return if cfg.reject then Refused(HashConflictError) else Accepted(VerdictConflict, q.eventId, None);
      }
      RecordAttempt(q, AttemptFailed, pc.next);
      if markFailed {
        ghost var logged, loggedLog := State(), oracle.log;
        MarkFailed(q);
        RanTrans(cfg, w, Ingesting(q, pc), log, logged, Ingesting(q, MarkingFailed), loggedLog,
                 State(), Ingesting(q, Done(Refused(StorageError))), oracle.log);
      }
      return Refused(StorageError);
    }

    ghost function AfterWriting(markFailed: bool, result: Result<Uri, Outcome>): Pc {
      match result
      case Ok(uri) => if markFailed then Marking(uri) else Creating(Some(uri))
      case Err(outcome) => Done(outcome)
    }

    ghost function Marked(stored: Result<Row, DatabaseError>): Pc {
      if stored.Ok? then LogThen(AttemptStored, Accepted(VerdictStored, stored.value.eventId, stored.value.uri))
      else LedgerFailure()
    }

    /** The ledger's MarkStored alone. */
    method CallMarkStored(q: Request, uri: Uri) returns (stored: Result<Row, DatabaseError>)
      requires Valid()
      modifies Repr()
      ensures Ran(cfg, old(State()), Ingesting(q, Marking(uri)), old(oracle.log),
                  State(), Ingesting(q, Marked(stored)), oracle.log)
    {
      ghost var w, log := State(), oracle.log;
      ghost var faults;
      stored, faults := ledger.MarkStored(q.eventId, uri);
      MarkRuns(q, uri, w, ledger.State(), log, faults, stored);
    }

    method MarkStored(q: Request, uri: Uri) returns (outcome: Outcome)
      requires Valid()
      modifies Repr()
      ensures Ran(cfg, old(State()), Ingesting(q, Marking(uri)), old(oracle.log),
                  State(), Ingesting(q, Done(outcome)), oracle.log)
    {
      ghost var w, log, pc := State(), oracle.log, Marking(uri);
      var stored := CallMarkStored(q, uri);
      ghost var marked, markedLog := State(), oracle.log;
      if stored.Err? {
        outcome := Refused(LedgerError);
        RecordAttempt(q, AttemptFailed, Done(outcome));
      } else {
        outcome := Accepted(VerdictStored, stored.value.eventId, stored.value.uri);
        RecordAttempt(q, AttemptStored, Done(outcome));
      }
      RanTrans(cfg, w, Ingesting(q, pc), log, marked, Ingesting(q, Marked(stored)), markedLog,
               State(), Ingesting(q, Done(outcome)), oracle.log);
    }

    /* ---------- Replay ---------- */

    /** The first of the two reads: a refusal if the watermark is above the cursor asked for. */
    method CheckFloor(after: Option<nat>) returns (refusal: Option<ReplayError>, ghost call: Fault)
      requires Valid()
      modifies oracle
      ensures oracle.log == old(oracle.log) + [call]
      ensures !call.Works? ==> refusal == Some(LedgerUnavailable)
      ensures call.Works? ==>
                var requested := if after.Some? then after.value else 0;
                refusal == if ledger.watermark.Some? && requested < ledger.watermark.value
                           then Some(WindowExpired(requested, ledger.watermark.value)) else None
    {
      var floor;
      floor, call := ledger.GetReplayWatermark();
      if floor.Err? {
        return Some(LedgerUnavailable), call;
      }
      if floor.value.Some? {
        var requested := if after.Some? then after.value else 0;
        if requested < floor.value.value {
          return Some(WindowExpired(requested, floor.value.value)), call;
        }
      }
      return None, call;
    }

    /** The floor check, then the page: what is given out is exact, and so is a refusal for the window. */
    method ReplayEvents(after: Option<nat>, filter: Filter, limit: int)
      returns (result: Result<Page, ReplayError>, ghost calls: seq<Fault>)
      requires Valid()
      modifies oracle
      ensures oracle.log == old(oracle.log) + calls
      ensures result.Err? ==>
                match result.error
                case WindowExpired(requested, floor) =>
                  && requested == (if after.Some? then after.value else 0)
                  && ledger.watermark == Some(floor) && requested < floor
                case InvalidLimit(error) => Cursors.NormalizeReplayLimit(limit) == Err(error)
                case LedgerUnavailable => exists f :: f in calls && !f.Works?
      ensures result.Ok? ==>
                && Cursors.NormalizeReplayLimit(limit).Ok?
                && result
                   == Replay.ReplayEvents(ledger.State(), after, filter, Cursors.NormalizeReplayLimit(limit).value)
    {
      var refusal, call := CheckFloor(after);
      calls := [call];
      assert call in calls;
      if refusal.Some? {
        return Err(refusal.value), calls;
      }
      ghost var query;
      result, query := ledger.ReplayEvents(after, filter, limit);
      calls := calls + query;
      assert query != [] ==> query[0] in calls;
    }

    /* ---------- Retention ---------- */

    lemma AdvancedRun(through: nat, limit: int, w: World, log: seq<Fault>, v: World, at: RetainPc, log': seq<Fault>,
                      fault: Fault)
      requires Ran(cfg, w, Retaining(through, limit, ReadingFloor), log, v, Retaining(through, limit, at), log')
      requires !at.Retained?
      ensures var (v', next) := RetainStep(cfg, through, limit, v, at, fault);
              Ran(cfg, w, Retaining(through, limit, ReadingFloor), log,
                  v', Retaining(through, limit, next), log' + [fault])
    {
      RanStep(cfg, w, Retaining(through, limit, ReadingFloor), log, v, Retaining(through, limit, at), log', fault);
    }

    method ConfirmRawEvent(q: Request, text: Text) returns (confirmed: bool, ghost fault: Fault)
      requires Valid()
      modifies oracle
      ensures oracle.log == old(oracle.log) + [fault]
      ensures confirmed <==> fault.Works? && q.finalKey in Objects() && Objects()[q.finalKey] == text
    {
      var result;
      if storage.OnS3? {
        result := storage.s3.ConfirmRawEventAtKey(q.finalKey, text);
      } else {
        result := storage.disk.ConfirmRawEvent(q.finalKey, text);
      }
      fault := oracle.log[|old(oracle.log)|];
      confirmed := result.Written?;
    }

    method RetainHotEvents(through: nat, limit: int) returns (result: Option<RetentionResult>)
      requires Valid()
      modifies Repr()
      ensures Ran(cfg, old(State()), Retaining(through, limit, ReadingFloor), old(oracle.log),
                  State(), Retaining(through, limit, Retained(result)), oracle.log)
      ensures TablesOk(old(State()).tables) ==>
                && Within(|old(ledger.rows)| - |ledger.rows|, limit)
                && (result.Some? ==> Retention.Reports(old(State()), State(), through, limit, result.value))
    {
      ghost var w, log := State(), oracle.log;
      var floor, fault := ledger.GetReplayWatermark();
      AdvancedRun(through, limit, w, log, w, ReadingFloor, log, fault);
      if floor.Err? {
        return None;
      }
      ghost var read := oracle.log;
      var candidates, fault' := ledger.RetentionCandidates(floor.value, through, limit);
      AdvancedRun(through, limit, w, log, w, ReadingCandidates(floor.value), read, fault');
      if candidates.Err? {
        return None;
      }
      var confirmed, skipped := ConfirmCandidates(candidates.value, through, limit, w, log);
      result := CommitRetention(confirmed, skipped, through, limit, w, log);
      if TablesOk(w.tables) {
        Retention.AtMostLimit(cfg, w, through, limit, oracle.log[|log|..]);
      }
    }

    /** The commit, if anything was confirmed. */
    method CommitRetention(confirmed: seq<nat>, skipped: nat, through: nat, limit: int, ghost w: World,
                           ghost log: seq<Fault>)
      returns (result: Option<RetentionResult>)
      requires Valid() && State() == w
      requires Ran(cfg, w, Retaining(through, limit, ReadingFloor), log,
                   w, Retaining(through, limit, StopConfirming(through, confirmed, skipped)), oracle.log)
      modifies Repr()
      ensures Ran(cfg, w, Retaining(through, limit, ReadingFloor), log,
                  State(), Retaining(through, limit, Retained(result)), oracle.log)
    {
      if confirmed == [] {
        return Some(RetentionResult(through, None, 0, 0, skipped));
      }
      ghost var before := oracle.log;
      var deleted, commit := ledger.RetainStoredEvents(confirmed, Last(confirmed));
      AdvancedRun(through, limit, w, log, w, Committing(confirmed, skipped), before, commit);
      if deleted.Err? {
        return None;
      }
      return Some(RetentionResult(through, Some(Last(confirmed)), |confirmed|, deleted.value, skipped));
    }

    /** One candidate whose text has decoded: the archive is asked for it. */
    method ConfirmNext(rest: seq<Row>, envelope: Request, confirmed: seq<nat>, through: nat, limit: int,
                       ghost w: World, ghost log: seq<Fault>)
      returns (there: bool)
      requires Valid() && State() == w && rest != [] && cfg.read(rest[0].text) == Some(envelope)
      requires Ran(cfg, w, Retaining(through, limit, ReadingFloor), log,
                   w, Retaining(through, limit, ConfirmingRow(rest, confirmed)), oracle.log)
      modifies oracle
      ensures State() == w
      ensures Ran(cfg, w, Retaining(through, limit, ReadingFloor), log,
                  w, Retaining(through, limit,
                               if there then NextCandidate(cfg, through, rest[1..], confirmed + [rest[0].id])
                               else StopConfirming(through, confirmed, 1)), oracle.log)
    {
      ghost var before := oracle.log;
      ghost var call;
      there, call := ConfirmRawEvent(envelope, rest[0].text);
      AdvancedRun(through, limit, w, log, w, ConfirmingRow(rest, confirmed), before, call);
    }

    /** The loop over candidates: it stops at the first one that does not decode or is not archived. */
    method ConfirmCandidates(candidates: seq<Row>, through: nat, limit: int, ghost w: World, ghost log: seq<Fault>)
      returns (confirmed: seq<nat>, skipped: nat)
      requires Valid() && State() == w
      requires Ran(cfg, w, Retaining(through, limit, ReadingFloor), log,
                   w, Retaining(through, limit, NextCandidate(cfg, through, candidates, [])), oracle.log)
      modifies oracle
      ensures Ran(cfg, w, Retaining(through, limit, ReadingFloor), log,
                  w, Retaining(through, limit, StopConfirming(through, confirmed, skipped)), oracle.log)
    {
      confirmed := [];
      var rest := candidates;
      while rest != []
        invariant State() == w
        invariant Ran(cfg, w, Retaining(through, limit, ReadingFloor), log,
                      w, Retaining(through, limit, NextCandidate(cfg, through, rest, confirmed)), oracle.log)
        decreases |rest|
      {
        var record := rest[0];
        var envelope := cfg.read(record.text);
        if envelope.None? {
          return confirmed, 1;
        }
        var there := ConfirmNext(rest, envelope.value, confirmed, through, limit, w, log);
        if !there {
          return confirmed, 1;
        }
        confirmed, rest := confirmed + [record.id], rest[1..];
      }
      return confirmed, 0;
    }
  }
}
