/**
 The ingest and retention services as a machine: one program counter per request, one store
 call per step. Between two steps of a request anything may happen: steps of other requests,
 or the death of this one.
 */
module Machine {
  import opened Wrappers
  import opened Faults
  import opened Events
  import opened Requests
  import opened Storage
  import opened Ledger

  /**
   `archiveFirst` is true of the S3 adapter, `reject` is RejectHashConflicts, and `read` decodes a
   text to the request that its envelope makes.
   */
  datatype Config = Config(archiveFirst: bool, reject: bool, read: Text -> Option<Request>)

  /** A request as ingest forms it: its text decodes to itself, and names its event id in its key. */
  ghost predicate WellFormed(cfg: Config, q: Request) {
    && cfg.read(q.text) == Some(q)
    && q.finalKey.FinalKey?
    && q.finalKey.eventId == q.eventId
  }

  /** The row is a copy of the request its text decodes to. */
  ghost predicate RowFaithful(cfg: Config, r: Row) {
    var q := cfg.read(r.text);
    && q.Some? && WellFormed(cfg, q.value) && q.value.verified
    && r == NewRow(r.id, q.value).(status := r.status, uri := r.uri)
    && (r.uri.Some? ==> r.uri.value == Uri(q.value.finalKey))
    && (r.status.Stored? ==> r.uri.Some?)
  }

  /** With event hashes required and free of collisions, a verified hash determines the text. */
  ghost predicate CollisionFree(cfg: Config) {
    forall t, u | Verified(cfg, t) && Verified(cfg, u) ::
      cfg.read(t).value.eventHash == cfg.read(u).value.eventHash ==> t == u
  }

  /** A canonical text whose hashes check. */
  ghost predicate Verified(cfg: Config, t: Text) {
    cfg.read(t).Some? && cfg.read(t).value.verified && cfg.read(t).value.text == t
  }

  /** The same, asked only of these texts: no function into hashes is without collisions on all of them. */
  ghost predicate CollisionFreeAmong(cfg: Config, texts: set<Text>) {
    forall t, u | t in texts && u in texts && Verified(cfg, t) && Verified(cfg, u) ::
      cfg.read(t).value.eventHash == cfg.read(u).value.eventHash ==> t == u
  }

  datatype World = World(tables: Tables, objects: Objects)

  const EMPTY_WORLD := World(EMPTY_TABLES, map[])

  datatype Verdict = VerdictStored | VerdictDuplicate | VerdictConflict

  datatype IngestError = HashValidationError | HashConflictError | StorageError | LedgerError

  datatype Outcome =
    | Accepted(verdict: Verdict, eventId: EventId, uri: Option<Uri>)
    | Refused(error: IngestError)

  /** The next store call of an `Ingest`. `uri` is known once the archive has been written. */
  datatype Pc =
    | Looking                                       // GetEvent
    | Writing(markFailed: bool, store: StorePc)     // WriteRawEvent
    | Creating(uri: Option<Uri>)                    // InsertReceived: the INSERT
    | Rereading(uri: Option<Uri>)                   // InsertReceived: the SELECT
    | Marking(written: Uri)                         // MarkStored: the UPDATE
    | Confirming                                    // MarkStored: the SELECT
    | Logging(status: AttemptStatus, next: Pc)      // RecordAttempt
    | MarkingFailed                                 // MarkFailed: the UPDATE
    | RereadingFailed                               // MarkFailed: the SELECT
    | Done(outcome: Outcome)

  function LogThen(status: AttemptStatus, outcome: Outcome): Pc {
    Logging(status, Done(outcome))
  }

  function Begin(q: Request): Pc {
    if q.verified then Looking else Done(Refused(HashValidationError))
  }

  function Conflict(cfg: Config, q: Request, uri: Option<Uri>): Pc {
    LogThen(AttemptConflict,
            if cfg.reject then Refused(HashConflictError) else Accepted(VerdictConflict, q.eventId, uri))
  }

  function AlreadyStored(q: Request, r: Row): Pc {
    LogThen(AttemptDuplicate, Accepted(VerdictDuplicate, q.eventId, r.uri))
  }

  function LedgerFailure(): Pc {
    LogThen(AttemptFailed, Refused(LedgerError))
  }

  /** `handleExisting` up to its next store call. */
  function HandleExisting(cfg: Config, q: Request, r: Row): Pc {
    if r.eventHash != q.eventHash || r.payloadHash != q.payloadHash then Conflict(cfg, q, r.uri)
    else if r.status.Stored? && r.uri.Some? then AlreadyStored(q, r)
    else Writing(true, StoreBegin(cfg.archiveFirst))
  }

  /** `Ingest` after GetEvent. */
  function AfterLookup(cfg: Config, q: Request, found: Option<Row>): Pc {
    if found.Some? then HandleExisting(cfg, q, found.value)
    else if cfg.archiveFirst then Writing(false, StoreBegin(true))
    else Creating(None)
  }

  /** `writeRawEvent` once the adapter returned. */
  function AfterWrite(cfg: Config, q: Request, markFailed: bool, result: WriteResult): Pc {
    match result
    case Written(uri) => if markFailed then Marking(uri) else Creating(Some(uri))
    case Conflicting => Conflict(cfg, q, None)
    case Unavailable => Logging(AttemptFailed, if markFailed then MarkingFailed else Done(Refused(StorageError)))
  }

  /** A storage call that has returned goes straight on to the next ledger call. */
  function Resume(cfg: Config, q: Request, markFailed: bool, store: StorePc): Pc {
    if store.Returned? then AfterWrite(cfg, q, markFailed, store.result) else Writing(markFailed, store)
  }

  /** After InsertReceived: `storeInsertAndMark` has a URI already, ledger-first `Ingest` has none. */
  function AfterInsert(cfg: Config, q: Request, uri: Option<Uri>, r: Row): Pc {
    match uri
    case None =>
      if r.eventHash != q.eventHash then HandleExisting(cfg, q, r)
      else Writing(true, StoreBegin(cfg.archiveFirst))
    case Some(u) =>
      if r.eventHash != q.eventHash || r.payloadHash != q.payloadHash then HandleExisting(cfg, q, r)
      else if r.status.Stored? && r.uri.Some? then AlreadyStored(q, r)
      else Marking(u)
  }

  /** One store call of an ingest. */
  function IngestStep(cfg: Config, q: Request, w: World, pc: Pc, fault: Fault): (World, Pc) {
    match pc
    case Looking =>
      (w, if fault.Works? then AfterLookup(cfg, q, Find(w.tables.rows, q.eventId)) else Done(Refused(LedgerError)))
    case Writing(markFailed, store) =>
      var (o, next) := StoreStep(q, w.objects, store, fault);
      (w.(objects := o), Resume(cfg, q, markFailed, next))
    case Creating(uri) =>
      (if fault.TakesEffect() then w.(tables := Create(w.tables, q)) else w,
       if fault.Works? then Rereading(uri) else LedgerFailure())
    case Rereading(uri) =>
      var found := Find(w.tables.rows, q.eventId);
      (w, if fault.Works? && found.Some? then AfterInsert(cfg, q, uri, found.value) else LedgerFailure())
    case Marking(uri) =>
      (if fault.TakesEffect() then w.(tables := SetStored(w.tables, q.eventId, uri)) else w,
       if fault.Works? then Confirming else LedgerFailure())
    case Confirming =>
      var found := Find(w.tables.rows, q.eventId);
      (w, if fault.Works? && found.Some?
          then LogThen(AttemptStored, Accepted(VerdictStored, found.value.eventId, found.value.uri))
          else LedgerFailure())
    case Logging(status, next) =>
      (if fault.TakesEffect() then w.(tables := LogAttempt(w.tables, q.eventId, status)) else w, next)
    case MarkingFailed =>
      (if fault.TakesEffect() then w.(tables := SetFailed(w.tables, q.eventId)) else w,
       if fault.Works? then RereadingFailed else Done(Refused(StorageError)))
    case RereadingFailed => (w, Done(Refused(StorageError)))
    case Done(_) => (w, pc)
  }

  /* ---------- Retention ---------- */

  datatype RetentionResult = RetentionResult(
    requestedThrough: nat, retainedThrough: Option<nat>, confirmed: nat, deleted: nat, skipped: nat)

  /** The next store call of a `RetainHotEvents`. */
  datatype RetainPc =
    | ReadingFloor
    | ReadingCandidates(floor: Option<nat>)
    | ConfirmingRow(rest: seq<Row>, confirmed: seq<nat>)
    | Committing(confirmed: seq<nat>, skipped: nat)
    | Retained(result: Option<RetentionResult>)  // None: an error was returned

  function Last(ids: seq<nat>): nat
    requires ids != []
  {
    ids[|ids| - 1]
  }

  function StopConfirming(through: nat, confirmed: seq<nat>, skipped: nat): RetainPc {
    if confirmed == [] then Retained(Some(RetentionResult(through, None, 0, 0, skipped)))
    else Committing(confirmed, skipped)
  }

  /** The head of the loop over candidates: a row whose text does not decode ends it. */
  function NextCandidate(cfg: Config, through: nat, rest: seq<Row>, confirmed: seq<nat>): RetainPc {
    if rest == [] then StopConfirming(through, confirmed, 0)
    else if cfg.read(rest[0].text).None? then StopConfirming(through, confirmed, 1)
    else ConfirmingRow(rest, confirmed)
  }

  /** `ConfirmRawEvent`: the object of the row's own envelope holds the row's text. */
  predicate Confirmed(cfg: Config, objects: Objects, r: Row) {
    var q := cfg.read(r.text);
    q.Some? && q.value.finalKey in objects && objects[q.value.finalKey] == r.text
  }

  /** One store call of a retention run. */
  function RetainStep(cfg: Config, through: nat, limit: int, w: World, pc: RetainPc, fault: Fault): (World, RetainPc) {
    match pc
    case ReadingFloor =>
      (w, if fault.Works? then ReadingCandidates(w.tables.watermark) else Retained(None))
    case ReadingCandidates(floor) =>
      (w, if fault.Works?
          then
            NextCandidate(cfg, through, Take(StoredBetween(w.tables.rows, floor, through), EffectiveLimit(limit)), [])
          else Retained(None))
    case ConfirmingRow(rest, confirmed) =>
      (w, if rest != [] && fault.Works? && Confirmed(cfg, w.objects, rest[0])
          then NextCandidate(cfg, through, rest[1..], confirmed + [rest[0].id])
          else StopConfirming(through, confirmed, 1))
    case Committing(confirmed, skipped) =>
      if confirmed == [] then (w, Retained(None))
      else
        var after := Retain(w.tables, confirmed, Last(confirmed));
        (if fault.TakesEffect() then w.(tables := after) else w,
         if fault.Works?
         then
           var deleted := |w.tables.rows| - |after.rows|;
           Retained(Some(RetentionResult(through, Some(Last(confirmed)), |confirmed|, deleted, skipped)))
         else Retained(None))
    case Retained(_) => (w, pc)
  }

  /* ---------- A process, and a process running alone ---------- */

  datatype Process =
    | Ingesting(q: Request, pc: Pc)
    | Retaining(through: nat, limit: int, rpc: RetainPc)
  {
    predicate Finished() {
      match this
      case Ingesting(_, pc) => pc.Done?
      case Retaining(_, _, rpc) => rpc.Retained?
    }
  }

  function Step(cfg: Config, w: World, p: Process, fault: Fault): (World, Process) {
    match p
    case Ingesting(q, pc) => var (w', pc') := IngestStep(cfg, q, w, pc, fault); (w', Ingesting(q, pc'))
    case Retaining(t, l, rpc) => var (w', rpc') := RetainStep(cfg, t, l, w, rpc, fault); (w', Retaining(t, l, rpc'))
  }

  /** A process running alone under exactly these faults; a list that stops early is a crash. */
  function Walk(cfg: Config, w: World, p: Process, faults: seq<Fault>): Option<(World, Process)> {
    if faults == [] then Some((w, p))
    else
      match Walk(cfg, w, p, faults[..|faults| - 1])
      case None => None
      case Some((w', p')) => if p'.Finished() then None else Some(Step(cfg, w', p', faults[|faults| - 1]))
  }

  lemma {:induction false} WalkAppend(cfg: Config, w: World, p: Process, a: seq<Fault>, b: seq<Fault>)
    requires Walk(cfg, w, p, a).Some?
    ensures var (v, r) := Walk(cfg, w, p, a).value; Walk(cfg, w, p, a + b) == Walk(cfg, v, r, b)
  {
    if b == [] {
      assert a + b == a;
    } else {
      WalkAppend(cfg, w, p, a, b[..|b| - 1]);
      assert (a + b)[..|a + b| - 1] == a + b[..|b| - 1];
    }
  }

  /* ---------- An ingest makes a bounded number of store calls ---------- */

  function StoreRank(pc: StorePc): nat {
    match pc
    case Put(t) => if t.Guard? then 4 else 2
    case Get(t) => if t.Guard? then 3 else 1
    case Check(t, _) => if t.Guard? then 10 else 7
    case Link(t, _) => if t.Guard? then 9 else 6
    case Recheck(t, _) => if t.Guard? then 8 else 5
    case RollbackCheck(_) => 3
    case RollbackRemove(_) => 2
    case Naming => 1
    case Returned(_) => 0
  }

  function Rank(pc: Pc): nat {
    match pc
    case Looking => 30
    case Creating(uri) => if uri.None? then 29 else 12
    case Rereading(uri) => if uri.None? then 28 else 11
    case Writing(_, store) => 13 + StoreRank(store)
    case Marking(_) => 10
    case Confirming => 9
    case Logging(_, next) => 1 + Rank(next)
    case MarkingFailed => 2
    case RereadingFailed => 1
    case Done(_) => 0
  }

  lemma StoreStepDescends(q: Request, objects: Objects, pc: StorePc, fault: Fault)
    requires !pc.Returned?
    ensures StoreRank(StoreStep(q, objects, pc, fault).1) < StoreRank(pc) <= 10
  {
  }

  lemma StepDescends(cfg: Config, q: Request, w: World, pc: Pc, fault: Fault)
    requires !pc.Done?
    ensures Rank(IngestStep(cfg, q, w, pc, fault).1) < Rank(pc)
  {
    match pc {
      case Writing(markFailed, store) =>
        var next := StoreStep(q, w.objects, store, fault).1;
        if !store.Returned? {
          StoreStepDescends(q, w.objects, store, fault);
        }
        ResumeRank(cfg, q, markFailed, next);
      case _ =>
    }
  }

  lemma ResumeRank(cfg: Config, q: Request, markFailed: bool, store: StorePc)
    ensures Rank(Resume(cfg, q, markFailed, store)) <= if store.Returned? then 12 else 13 + StoreRank(store)
  {
  }

  /* ---------- Fault logs ---------- */

  /** Between two moments of a fault log, a process moved from one program point to another. */
  ghost predicate Ran(cfg: Config, w: World, p: Process, log: seq<Fault>, w': World, p': Process, log': seq<Fault>) {
    log <= log' && Walk(cfg, w, p, log'[|log|..]) == Some((w', p'))
  }

  lemma RanStep(cfg: Config, w: World, p: Process, log: seq<Fault>, w': World, p': Process, log': seq<Fault>,
                fault: Fault)
    requires Ran(cfg, w, p, log, w', p', log') && !p'.Finished()
    ensures var (w'', p'') := Step(cfg, w', p', fault); Ran(cfg, w, p, log, w'', p'', log' + [fault])
  {
    var faults := (log' + [fault])[|log|..];
    assert faults[..|faults| - 1] == log'[|log|..];
  }

  lemma RanTrans(cfg: Config, w: World, p: Process, log: seq<Fault>, w': World, p': Process, log': seq<Fault>,
                 w'': World, p'': Process, log'': seq<Fault>)
    requires Ran(cfg, w, p, log, w', p', log') && Ran(cfg, w', p', log', w'', p'', log'')
    ensures Ran(cfg, w, p, log, w'', p'', log'')
  {
    WalkAppend(cfg, w, p, log'[|log|..], log''[|log'|..]);
    assert log'[|log|..] + log''[|log'|..] == log''[|log|..];
  }

  /** A storage call inside an ingest is the storage call alone, ending where the ingest resumes. */
  lemma {:induction false} WalkStore(cfg: Config, w: World, q: Request, markFailed: bool, store: StorePc,
                                     faults: seq<Fault>)
    requires StoreWalk(q, w.objects, store, faults).Some? && !store.Returned?
    ensures var (o, s) := StoreWalk(q, w.objects, store, faults).value;
            Walk(cfg, w, Ingesting(q, Writing(markFailed, store)), faults)
            == Some((w.(objects := o), Ingesting(q, Resume(cfg, q, markFailed, s))))
  {
    if faults != [] {
      WalkStore(cfg, w, q, markFailed, store, faults[..|faults| - 1]);
    }
  }
}
