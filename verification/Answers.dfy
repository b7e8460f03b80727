/**
 What an answer says about the stores the request met, and which failure a refusal owns up to: an ingest
 alone, under any faults, from any stores whatever.
 */
module Answers {
  import opened Wrappers
  import opened Faults
  import opened Requests
  import opened Storage
  import opened Ledger
  import opened Machine
  import Repair
  import opened Retention
  import Sequential

  /** The row of the event id carries another event or payload hash than the request. */
  predicate OtherHashes(row: Option<Row>, q: Request) {
    row.Some? && (row.value.eventHash != q.eventHash || row.value.payloadHash != q.payloadHash)
  }

  predicate StoredAlready(row: Option<Row>) {
    row.Some? && row.value.status.Stored? && row.value.uri.Some?
  }

  /** One of the request's two keys holds other content. */
  ghost predicate Foreign(objects: Objects, q: Request) {
    || (GuardKey(q.eventId) in objects && objects[GuardKey(q.eventId)] != q.text)
    || (q.finalKey in objects && objects[q.finalKey] != q.text)
  }

  /** Other content was there first: in the ledger, or in the archive when the ledger let the request write. */
  ghost predicate Beaten(row: Option<Row>, objects: Objects, q: Request) {
    OtherHashes(row, q) || (!StoredAlready(row) && Foreign(objects, q))
  }

  /**
   What an outcome says about the row and the objects that were there before. A conflict that is reported
   names the place of the row that it lost to, and no place if it lost in the archive.
   */
  ghost predicate Says(cfg: Config, row: Option<Row>, objects: Objects, q: Request, outcome: Outcome) {
    match outcome
    case Accepted(VerdictStored, id, uri) =>
      q.verified && id == q.eventId && uri == Some(Uri(q.finalKey)) && !OtherHashes(row, q) && !StoredAlready(row)
    case Accepted(VerdictDuplicate, id, uri) =>
      q.verified && id == q.eventId && !OtherHashes(row, q) && StoredAlready(row) && uri == row.value.uri
    case Accepted(VerdictConflict, id, uri) =>
      && q.verified && !cfg.reject && id == q.eventId && Beaten(row, objects, q)
      && uri == (if OtherHashes(row, q) then row.value.uri else None)
    case Refused(HashConflictError) => q.verified && cfg.reject && Beaten(row, objects, q)
    case Refused(HashValidationError) => !q.verified
    case Refused(_) => q.verified
  }

  /** The attempt that goes with an outcome. */
  predicate Records(outcome: Outcome, status: AttemptStatus) {
    match outcome
    case Accepted(VerdictStored, _, _) => status.AttemptStored?
    case Accepted(VerdictDuplicate, _, _) => status.AttemptDuplicate?
    case Accepted(VerdictConflict, _, _) => status.AttemptConflict?
    case Refused(HashConflictError) => status.AttemptConflict?
    case Refused(HashValidationError) => false
    case Refused(_) => status.AttemptFailed?
  }

  /* ---------- On the way to an answer ---------- */

  /** Whatever has been written since is the request's own text. */
  ghost predicate OwnWrites(q: Request, before: Objects, after: Objects) {
    forall k | k in after :: after[k] == q.text || (k in before && after[k] == before[k])
  }

  ghost predicate StoreWay(objects: Objects, q: Request, store: StorePc) {
    match store
    case RollbackCheck(result) => !result.Written? && (result.Conflicting? ==> Foreign(objects, q))
    case RollbackRemove(result) => !result.Written? && (result.Conflicting? ==> Foreign(objects, q))
    case Returned(Written(uri)) => uri == Uri(q.finalKey)
    case Returned(result) => result.Conflicting? ==> Foreign(objects, q)
    case _ => true
  }

  /** The ledger has nothing against this request's writing. */
  ghost predicate Admitted(row: Option<Row>, q: Request) {
    q.verified && !OtherHashes(row, q) && !StoredAlready(row)
  }

  /** Where an ingest that began in w can be. */
  ghost predicate Way(cfg: Config, w: World, q: Request, v: World, pc: Pc) {
    var row, now := Find(w.tables.rows, q.eventId), Find(v.tables.rows, q.eventId);
    match pc
    case Looking => q.verified && v == w
    case Writing(markFailed, store) =>
      && !store.Returned? && Admitted(row, q)
      && OwnWrites(q, w.objects, v.objects) && StoreWay(w.objects, q, store)
      && (if markFailed then now.Some? else row.None? && now.None?)
    case Creating(uri) =>
      && q.verified && row.None? && now.None? && OwnWrites(q, w.objects, v.objects)
      && (uri.Some? ==> uri.value == Uri(q.finalKey))
    case Rereading(uri) =>
      && q.verified && row.None? && now.Some? && !OtherHashes(now, q) && !StoredAlready(now)
      && OwnWrites(q, w.objects, v.objects) && (uri.Some? ==> uri.value == Uri(q.finalKey))
    case Marking(uri) => Admitted(row, q) && now.Some? && uri == Uri(q.finalKey)
    case Confirming => Admitted(row, q) && now.Some? && now.value.uri == Some(Uri(q.finalKey))
    case Logging(status, Done(outcome)) => Says(cfg, row, w.objects, q, outcome) && Records(outcome, status)
    case Logging(status, next) => q.verified && status.AttemptFailed? && next.MarkingFailed?
    case MarkingFailed => q.verified
    case RereadingFailed => q.verified
    case Done(outcome) => Says(cfg, row, w.objects, q, outcome)
  }

  lemma StoreStepWay(q: Request, before: Objects, objects: Objects, pc: StorePc, fault: Fault)
    requires OwnWrites(q, before, objects) && StoreWay(before, q, pc)
    ensures var (after, next) := StoreStep(q, objects, pc, fault);
            OwnWrites(q, before, after) && StoreWay(before, q, next)
  {
  }

  lemma CreateFinds(t: Tables, q: Request)
    requires Find(t.rows, q.eventId).None?
    ensures Find(Create(t, q).rows, q.eventId) == Some(NewRow(t.nextId, q))
  {
  }

  lemma SetStoredFinds(t: Tables, e: EventId, uri: Uri)
    requires Find(t.rows, e).Some?
    ensures Find(SetStored(t, e, uri).rows, e).Some? && Find(SetStored(t, e, uri).rows, e).value.uri == Some(uri)
  {
    var r := Find(t.rows, e).value;
    var i :| 0 <= i < |t.rows| && t.rows[i] == r;
    assert SetStored(t, e, uri).rows[i] in SetStored(t, e, uri).rows;
  }

  lemma WritingWay(cfg: Config, w: World, q: Request, v: World, markFailed: bool, store: StorePc, fault: Fault)
    requires Way(cfg, w, q, v, Writing(markFailed, store))
    ensures var (u, next) := IngestStep(cfg, q, v, Writing(markFailed, store), fault); Way(cfg, w, q, u, next)
  {
    StoreStepWay(q, w.objects, v.objects, store, fault);
  }

  lemma LookingWay(cfg: Config, w: World, q: Request, fault: Fault)
    requires q.verified
    ensures var (u, next) := IngestStep(cfg, q, w, Looking, fault); Way(cfg, w, q, u, next)
  {
  }

  lemma StepWay(cfg: Config, w: World, q: Request, v: World, pc: Pc, fault: Fault)
    requires Way(cfg, w, q, v, pc)
    ensures var (u, next) := IngestStep(cfg, q, v, pc, fault); Way(cfg, w, q, u, next)
  {
    match pc {
      case Looking => LookingWay(cfg, w, q, fault);
      case Writing(markFailed, store) => WritingWay(cfg, w, q, v, markFailed, store, fault);
      case Creating(_) => CreateFinds(v.tables, q);
      case Marking(uri) => SetStoredFinds(v.tables, q.eventId, uri);
      case _ =>
    }
  }

  /* ---------- Which call failed ---------- */

  /** A statement that the answer needs: GetEvent, InsertReceived or MarkStored. */
  predicate NeededStatement(pc: Pc) {
    pc.Looking? || pc.Creating? || pc.Rereading? || pc.Marking? || pc.Confirming?
  }

  predicate ArchiveCall(pc: Pc) {
    pc.Writing?
  }

  /** The i-th call of the walk was of this kind, and did not work. */
  ghost predicate FailedAt(cfg: Config, w: World, q: Request, faults: seq<Fault>, i: nat, kind: Pc -> bool) {
    && i < |faults| && !faults[i].Works?
    && var before := Walk(cfg, w, Ingesting(q, Begin(q)), faults[..i]);
       before.Some? && before.value.1.Ingesting? && kind(before.value.1.pc)
  }

  ghost predicate Failed(cfg: Config, w: World, q: Request, faults: seq<Fault>, kind: Pc -> bool) {
    exists i :: FailedAt(cfg, w, q, faults, i, kind)
  }

  lemma FailedOnce(cfg: Config, w: World, q: Request, init: seq<Fault>, last: Fault, kind: Pc -> bool)
    requires var before := Walk(cfg, w, Ingesting(q, Begin(q)), init); before.Some? && before.value.1.Ingesting?
    ensures Failed(cfg, w, q, init + [last], kind)
            <==> Failed(cfg, w, q, init, kind)
                 || (!last.Works? && kind(Walk(cfg, w, Ingesting(q, Begin(q)), init).value.1.pc))
  {
    var faults := init + [last];
    assert faults[..|init|] == init;
    forall i: nat | i < |init|
      ensures FailedAt(cfg, w, q, faults, i, kind) <==> FailedAt(cfg, w, q, init, i, kind)
    {
      assert faults[..i] == init[..i];
    }
    if !last.Works? && kind(Walk(cfg, w, Ingesting(q, Begin(q)), init).value.1.pc) {
      assert FailedAt(cfg, w, q, faults, |init|, kind);
    }
    if i: nat :| FailedAt(cfg, w, q, init, i, kind) {
      assert FailedAt(cfg, w, q, faults, i, kind);
    }
  }

  /** The ingest is bound to be refused with this error. */
  predicate Bound(pc: Pc, error: IngestError) {
    match pc
    case Done(outcome) => outcome == Refused(error)
    case Logging(_, Done(outcome)) => outcome == Refused(error)
    case Logging(_, next) => next.MarkingFailed? && error.StorageError?
    case MarkingFailed => error.StorageError?
    case RereadingFailed => error.StorageError?
    case _ => false
  }

  /** The archive call has been told something that is not so, or has failed and is rolling back. */
  ghost predicate Doubtful(objects: Objects, q: Request, store: StorePc) {
    match store
    case Get(target) => TargetKey(q, target) !in objects
    case Recheck(target, _) => TargetKey(q, target) !in objects
    case RollbackCheck(result) => result.Unavailable?
    case RollbackRemove(result) => result.Unavailable?
    case _ => false
  }

  ghost predicate Troubled(objects: Objects, q: Request, pc: Pc) {
    pc.Writing? && Doubtful(objects, q, pc.store)
  }

  /** What the attempt table has gained by now. */
  ghost predicate Logged(before: seq<Attempt>, after: seq<Attempt>, e: EventId, pc: Pc, clean: bool) {
    match pc
    case Done(outcome) =>
      || (after == before && (clean ==> outcome == Refused(HashValidationError) || outcome == Refused(StorageError)))
      || LoggedOnce(before, after, e, outcome)
    case MarkingFailed => after == before || LoggedOnce(before, after, e, Refused(StorageError))
    case RereadingFailed => after == before || LoggedOnce(before, after, e, Refused(StorageError))
    case _ => after == before
  }

  ghost predicate LoggedOnce(before: seq<Attempt>, after: seq<Attempt>, e: EventId, outcome: Outcome) {
    && |after| == |before| + 1 && after[..|before|] == before
    && after[|before|].eventId == e && Records(outcome, after[|before|].status)
  }

  /** Everything about where a walk is. */
  ghost predicate WalkAt(cfg: Config, w: World, q: Request, faults: seq<Fault>, v: World, p: Process) {
    && p.Ingesting? && p.q == q && Way(cfg, w, q, v, p.pc)
    && (Bound(p.pc, LedgerError) <==> Failed(cfg, w, q, faults, NeededStatement))
    && (Bound(p.pc, StorageError) || Troubled(v.objects, q, p.pc) ==> Failed(cfg, w, q, faults, ArchiveCall))
  }

  lemma WritingBinds(cfg: Config, q: Request, v: World, markFailed: bool, store: StorePc, fault: Fault)
    requires !store.Returned?
    ensures var (u, next) := IngestStep(cfg, q, v, Writing(markFailed, store), fault);
            && !Bound(next, LedgerError)
            && (Bound(next, StorageError) || Troubled(u.objects, q, next) ==>
                  Doubtful(v.objects, q, store) || !fault.Works?)
  {
  }

  /** A call that works binds to no failure, and a needed statement that does not work binds to one. */
  lemma StepBinds(cfg: Config, w: World, q: Request, v: World, pc: Pc, fault: Fault)
    requires Way(cfg, w, q, v, pc) && !pc.Done?
    ensures var (u, next) := IngestStep(cfg, q, v, pc, fault);
            && (Bound(next, LedgerError) <==> Bound(pc, LedgerError) || (!fault.Works? && NeededStatement(pc)))
            && (Bound(next, StorageError) || Troubled(u.objects, q, next) ==>
                  Bound(pc, StorageError) || Troubled(v.objects, q, pc) || (!fault.Works? && ArchiveCall(pc)))
  {
    if pc.Writing? {
      WritingBinds(cfg, q, v, pc.markFailed, pc.store, fault);
    }
  }

  lemma {:induction false} WalkIsAt(cfg: Config, w: World, q: Request, faults: seq<Fault>)
    requires Walk(cfg, w, Ingesting(q, Begin(q)), faults).Some?
    ensures var (v, p) := Walk(cfg, w, Ingesting(q, Begin(q)), faults).value; WalkAt(cfg, w, q, faults, v, p)
  {
    if faults != [] {
      var init, last := faults[..|faults| - 1], faults[|faults| - 1];
      assert faults == init + [last];
      WalkIsAt(cfg, w, q, init);
      var (v, p) := Walk(cfg, w, Ingesting(q, Begin(q)), init).value;
      StepWay(cfg, w, q, v, p.pc, last);
      StepBinds(cfg, w, q, v, p.pc, last);
      FailedOnce(cfg, w, q, init, last, NeededStatement);
      FailedOnce(cfg, w, q, init, last, ArchiveCall);
    }
  }

  /**
   An ingest alone, under any faults: its outcome says what it says about the stores as they were; it is a
   ledger error exactly if a statement it needed did not work, and a storage error only if an archive call
   did not.
   */
  lemma WalkSays(cfg: Config, w: World, q: Request, faults: seq<Fault>, v: World, outcome: Outcome)
    requires Walk(cfg, w, Ingesting(q, Begin(q)), faults) == Some((v, Ingesting(q, Done(outcome))))
    ensures Says(cfg, Find(w.tables.rows, q.eventId), w.objects, q, outcome)
    ensures outcome == Refused(LedgerError) <==> Failed(cfg, w, q, faults, NeededStatement)
    ensures outcome == Refused(StorageError) ==> Failed(cfg, w, q, faults, ArchiveCall)
  {
    WalkIsAt(cfg, w, q, faults);
  }

  /** How the last call to the archive went, if there was one. */
  ghost function LastArchiveCall(cfg: Config, w: World, q: Request, faults: seq<Fault>): Option<Fault> {
    if faults == [] then None
    else
      var init := faults[..|faults| - 1];
      var before := Walk(cfg, w, Ingesting(q, Begin(q)), init);
      if before.Some? && before.value.1.Ingesting? && ArchiveCall(before.value.1.pc) then Some(faults[|faults| - 1])
      else LastArchiveCall(cfg, w, q, init)
  }

  /** Past the archive, with the bytes written. */
  ghost predicate PastArchive(pc: Pc) {
    match pc
    case Creating(uri) => uri.Some?
    case Rereading(uri) => uri.Some?
    case Marking(_) => true
    case Confirming => true
    case Logging(_, Done(Accepted(VerdictStored, _, _))) => true
    case Done(Accepted(VerdictStored, _, _)) => true
    case _ => false
  }

  lemma StepPasses(cfg: Config, w: World, q: Request, v: World, pc: Pc, fault: Fault)
    requires Way(cfg, w, q, v, pc) && !pc.Done?
    ensures PastArchive(IngestStep(cfg, q, v, pc, fault).1) ==>
              if ArchiveCall(pc) then fault.Works? else PastArchive(pc)
  {
  }

  lemma {:induction false} WalkPasses(cfg: Config, w: World, q: Request, faults: seq<Fault>)
    requires Walk(cfg, w, Ingesting(q, Begin(q)), faults).Some?
    ensures var p := Walk(cfg, w, Ingesting(q, Begin(q)), faults).value.1;
            p.Ingesting? && (PastArchive(p.pc) ==> LastArchiveCall(cfg, w, q, faults) == Some(Works))
  {
    if faults != [] {
      var init := faults[..|faults| - 1];
      WalkPasses(cfg, w, q, init);
      WalkIsAt(cfg, w, q, init);
      var (v, p) := Walk(cfg, w, Ingesting(q, Begin(q)), init).value;
      StepPasses(cfg, w, q, v, p.pc, faults[|faults| - 1]);
    }
  }

  /** An ingest is only answered `stored` if its last call to the archive worked, naming the file included. */
  lemma StoredIsWritten(cfg: Config, w: World, q: Request, faults: seq<Fault>, v: World, outcome: Outcome)
    requires Walk(cfg, w, Ingesting(q, Begin(q)), faults) == Some((v, Ingesting(q, Done(outcome))))
    requires outcome.Accepted? && outcome.verdict.VerdictStored?
    ensures LastArchiveCall(cfg, w, q, faults) == Some(Works)
  {
    WalkPasses(cfg, w, q, faults);
  }

  lemma FinishLogging(cfg: Config, w: World, q: Request, status: AttemptStatus, outcome: Outcome)
    ensures Repair.Finish(cfg, w, q, Logging(status, Done(outcome))).1 == outcome
  {
  }

  /** What a SELECT that works goes on to. */
  lemma FinishRereading(cfg: Config, w: World, q: Request, uri: Uri)
    requires Find(w.tables.rows, q.eventId).Some?
    ensures var next := IngestStep(cfg, q, w, Rereading(Some(uri)), Works).1;
            Repair.Finish(cfg, w, q, Rereading(Some(uri))) == Repair.Finish(cfg, w, q, next)
  {
  }

  lemma RaceMarks(cfg: Config, w: World, q: Request, uri: Uri)
    requires Find(w.tables.rows, q.eventId).Some?
    ensures Repair.Finish(cfg, w, q, Marking(uri)).1 == Accepted(VerdictStored, q.eventId, Some(uri))
  {
    SetStoredFinds(w.tables, q.eventId, uri);
    var marked := w.(tables := SetStored(w.tables, q.eventId, uri));
    Repair.FinishConfirming(cfg, marked, q, Find(marked.tables.rows, q.eventId).value);
    assert Repair.Finish(cfg, w, q, Marking(uri)) == Repair.Finish(cfg, marked, q, Confirming);
  }

  /**
   The answer when another request has inserted the row meanwhile and this one reads it back, archive-first: by
   the row's hashes a conflict, and else a duplicate exactly if the row is stored already.
   */
  lemma RaceAnswers(cfg: Config, w: World, q: Request, uri: Uri)
    requires Find(w.tables.rows, q.eventId).Some?
    ensures var row := Find(w.tables.rows, q.eventId).value;
            var outcome := Repair.Finish(cfg, w, q, Rereading(Some(uri))).1;
            if row.eventHash != q.eventHash || row.payloadHash != q.payloadHash then
              outcome == if cfg.reject then Refused(HashConflictError)
                         else Accepted(VerdictConflict, q.eventId, row.uri)
            else if row.status.Stored? && row.uri.Some? then outcome == Accepted(VerdictDuplicate, q.eventId, row.uri)
            else outcome == Accepted(VerdictStored, q.eventId, Some(uri))
  {
    var next := IngestStep(cfg, q, w, Rereading(Some(uri)), Works).1;
    FinishRereading(cfg, w, q, uri);
    if next.Logging? {
      FinishLogging(cfg, w, q, next.status, next.next.outcome);
    } else {
      RaceMarks(cfg, w, q, uri);
    }
  }

  /**
   Ledger-first the event hash alone decides, and a row that is stored already is written and marked again: with
   the archive open to it the request is answered `stored`.
   */
  lemma RaceAnswersOnDisk(cfg: Config, w: World, q: Request)
    requires Find(w.tables.rows, q.eventId).Some? && q.finalKey.FinalKey?
    requires Repair.Open(w.objects, q)
    ensures var row := Find(w.tables.rows, q.eventId).value;
            var outcome := Repair.Finish(cfg, w, q, Rereading(None)).1;
            if row.eventHash != q.eventHash then
              outcome == if cfg.reject then Refused(HashConflictError)
                         else Accepted(VerdictConflict, q.eventId, row.uri)
            else outcome == Accepted(VerdictStored, q.eventId, Some(Uri(q.finalKey)))
  {
    var next := IngestStep(cfg, q, w, Rereading(None), Works).1;
    assert Repair.Finish(cfg, w, q, Rereading(None)) == Repair.Finish(cfg, w, q, next);
    if next.Logging? {
      FinishLogging(cfg, w, q, next.status, next.next.outcome);
    } else {
      Repair.FinishWriting(cfg, w, q, true);
      RaceMarks(cfg, w.(objects := Repair.Agreed(q, w.objects)), q, Uri(q.finalKey));
    }
  }

  /** A request whose hashes do not check makes no call. */
  lemma {:induction false} WalkOfRefused(cfg: Config, w: World, q: Request, faults: seq<Fault>)
    requires !q.verified
    ensures Walk(cfg, w, Ingesting(q, Begin(q)), faults)
            == if faults == [] then Some((w, Ingesting(q, Done(Refused(HashValidationError))))) else None
  {
    if faults != [] {
      WalkOfRefused(cfg, w, q, faults[..|faults| - 1]);
    }
  }

  lemma StepLogs(cfg: Config, w: World, q: Request, v: World, pc: Pc, fault: Fault, clean: bool)
    requires Way(cfg, w, q, v, pc) && Logged(w.tables.attempts, v.tables.attempts, q.eventId, pc, clean) && !pc.Done?
    ensures var (u, next) := IngestStep(cfg, q, v, pc, fault);
            Logged(w.tables.attempts, u.tables.attempts, q.eventId, next, clean && fault.Works?)
  {
  }

  lemma {:induction false} WalkLogs(cfg: Config, w: World, q: Request, faults: seq<Fault>)
    requires Walk(cfg, w, Ingesting(q, Begin(q)), faults).Some?
    ensures var (v, p) := Walk(cfg, w, Ingesting(q, Begin(q)), faults).value;
            p.Ingesting? && Logged(w.tables.attempts, v.tables.attempts, q.eventId, p.pc, Clean(faults))
  {
    if faults != [] {
      var init, last := faults[..|faults| - 1], faults[|faults| - 1];
      assert faults == init + [last];
      assert Clean(faults) <==> Clean(init) && last.Works?;
      WalkLogs(cfg, w, q, init);
      WalkIsAt(cfg, w, q, init);
      var (v, p) := Walk(cfg, w, Ingesting(q, Begin(q)), init).value;
      StepLogs(cfg, w, q, v, p.pc, last, Clean(init));
    }
  }

  /** A single call that ends an ingest is a lookup that failed. */
  lemma OneCall(cfg: Config, w: World, q: Request, fault: Fault)
    requires Walk(cfg, w, Ingesting(q, Begin(q)), [fault]).Some?
    requires Walk(cfg, w, Ingesting(q, Begin(q)), [fault]).value.1.Finished()
    ensures Walk(cfg, w, Ingesting(q, Begin(q)), [fault]) == Some((w, Ingesting(q, Done(Refused(LedgerError)))))
  {
  }

  /**
   Nothing but the attempt that goes with the outcome is logged, once, and that surely if every call worked; a
   request that fails its hash checks or its lookup logs nothing.
   */
  lemma OneAttempt(cfg: Config, w: World, q: Request, faults: seq<Fault>, v: World, outcome: Outcome)
    requires Walk(cfg, w, Ingesting(q, Begin(q)), faults) == Some((v, Ingesting(q, Done(outcome))))
    ensures v.tables.attempts == w.tables.attempts
            || LoggedOnce(w.tables.attempts, v.tables.attempts, q.eventId, outcome)
    ensures Clean(faults) && q.verified ==> LoggedOnce(w.tables.attempts, v.tables.attempts, q.eventId, outcome)
    ensures |faults| <= 1 ==> v == w
  {
    if |faults| == 1 {
      assert faults == [faults[0]];
      OneCall(cfg, w, q, faults[0]);
    }
    WalkLogs(cfg, w, q, faults);
    WalkSays(cfg, w, q, faults, v, outcome);
    if Clean(faults) {
      NothingFailed(cfg, w, q, faults);
    }
  }

  lemma NothingFailed(cfg: Config, w: World, q: Request, faults: seq<Fault>)
    requires Clean(faults)
    ensures !Failed(cfg, w, q, faults, NeededStatement) && !Failed(cfg, w, q, faults, ArchiveCall)
  {
  }

  /** The fault-free ingest: no failure is its answer, and the attempt is logged. */
  lemma FinishSays(cfg: Config, w: World, q: Request)
    ensures var (end, outcome) := Repair.Finish(cfg, w, q, Begin(q));
            && Says(cfg, Find(w.tables.rows, q.eventId), w.objects, q, outcome)
            && outcome != Refused(LedgerError) && outcome != Refused(StorageError)
            && (q.verified ==> LoggedOnce(w.tables.attempts, end.tables.attempts, q.eventId, outcome))
  {
    var n := Repair.FinishIsWalk(cfg, w, q, Begin(q));
    var (end, outcome) := Repair.Finish(cfg, w, q, Begin(q));
    WalkSays(cfg, w, q, seq(n, _ => Works), end, outcome);
    OneAttempt(cfg, w, q, seq(n, _ => Works), end, outcome);
    NothingFailed(cfg, w, q, seq(n, _ => Works));
  }

  /**
   After any sequential history of either adapter, an ingest under any faults that is answered: what its answer
   says, and that a URI reported with a conflict holds the bytes of the row that it lost to.
   */
  lemma AnswerAfterHistory(cfg: Config, jobs: seq<Sequential.Job>, q: Request, faults: seq<Fault>, outcome: Outcome)
    requires CollisionFree(cfg) && (forall j | j in jobs :: Sequential.JobOk(cfg, j)) && WellFormed(cfg, q)
    requires var w := Sequential.Play(cfg, EMPTY_WORLD, jobs);
             Sequential.PlayJob(cfg, w, Sequential.IngestJob(q, faults)).1 == Ingesting(q, Done(outcome))
    requires q.verified
    ensures var w := Sequential.Play(cfg, EMPTY_WORLD, jobs);
            var row := Find(w.tables.rows, q.eventId);
            var end := Sequential.PlayJob(cfg, w, Sequential.IngestJob(q, faults)).0;
            && Says(cfg, row, w.objects, q, outcome)
            && (outcome.Accepted? && outcome.verdict.VerdictConflict? && outcome.uri.Some? ==>
                  && row.Some? && row.value.text != q.text && outcome.uri.value.key in end.objects
                  && end.objects[outcome.uri.value.key] == row.value.text)
  {
    var w, job := Sequential.Play(cfg, EMPTY_WORLD, jobs), Sequential.IngestJob(q, faults);
    Sequential.PlayKeeps(cfg, EMPTY_WORLD, jobs);
    Sequential.PlayJobKeeps(cfg, w, job);
    WalkSays(cfg, w, q, faults, Sequential.PlayJob(cfg, w, job).0, outcome);
    var row := Find(w.tables.rows, q.eventId);
    if row.Some? {
      assert Sequential.RowOk(cfg, w.objects, row.value);
    }
  }
}
