/**
 Whole sequential runs of either adapter: ingests and retention runs one after another, each under
 any faults and each possibly cut short by a crash. What holds after every store call of such a
 run, and what an acknowledged event may rely on for ever after.
 */
module Sequential {
  import opened Wrappers
  import opened Faults
  import opened Requests
  import opened Storage
  import opened Ledger
  import opened LedgerFacts
  import opened Machine
  import AF = ArchiveFirst

  /** A stored or once-stored row has its text archived under guard and final. */
  ghost predicate RowOk(cfg: Config, objects: Objects, r: Row) {
    RowFaithful(cfg, r) && (r.uri.Some? ==> AF.Archived(objects, cfg.read(r.text).value))
  }

  ghost predicate WorldOk(cfg: Config, w: World) {
    && TablesOk(w.tables)
    && ObjectsOk(cfg, w.objects)
    && (forall r | r in w.tables.rows :: RowOk(cfg, w.objects, r))
  }

  ghost predicate NoFinal(objects: Objects, e: EventId) {
    forall k | k in objects && k.eventId == e :: k.GuardKey?
  }

  /** A guard that this call created has no final behind it, so taking it back orphans nothing. */
  ghost predicate LoneWriterOk(objects: Objects, q: Request, pc: StorePc) {
    match pc
    case Check(Final, created) => AF.GuardHolds(objects, q) && (created ==> NoFinal(objects, q.eventId))
    case Link(Final, created) => AF.GuardHolds(objects, q) && (created ==> NoFinal(objects, q.eventId))
    case Recheck(Final, created) => AF.GuardHolds(objects, q) && (created ==> NoFinal(objects, q.eventId))
    case Check(Guard, created) => !created
    case Link(Guard, created) => !created
    case Recheck(Guard, created) => !created
    case RollbackCheck(result) => !result.Written? && AF.GuardHolds(objects, q) && NoFinal(objects, q.eventId)
    case RollbackRemove(result) => !result.Written? && AF.GuardHolds(objects, q) && NoFinal(objects, q.eventId)
    case Naming => AF.Archived(objects, q)
    case _ => AF.StoreOk(objects, q, pc)
  }

  /** The row of the request's event id, if any, has its text and is not stored. */
  ghost predicate Pending(t: Tables, q: Request) {
    var row := Find(t.rows, q.eventId);
    row.Some? && row.value.text == q.text && !row.value.status.Stored?
  }

  ghost predicate StoredFor(w: World, q: Request) {
    var row := Find(w.tables.rows, q.eventId);
    && row.Some? && row.value.text == q.text && row.value.status.Stored?
    && row.value.uri == Some(Uri(q.finalKey)) && AF.Archived(w.objects, q)
  }

  ghost predicate UriOk(cfg: Config, objects: Objects, q: Request, uri: Option<Uri>) {
    if cfg.archiveFirst then uri == Some(Uri(q.finalKey)) && AF.Archived(objects, q) else uri.None?
  }

  ghost predicate OutcomeOk(w: World, q: Request, outcome: Outcome) {
    outcome.Accepted? && !outcome.verdict.VerdictConflict? ==>
      outcome.eventId == q.eventId && outcome.uri == Some(Uri(q.finalKey)) && StoredFor(w, q)
  }

  ghost predicate PcOk(cfg: Config, w: World, q: Request, pc: Pc) {
    match pc
    case Writing(markFailed, store) =>
      && LoneWriterOk(w.objects, q, store)
      && (if markFailed then Pending(w.tables, q) else cfg.archiveFirst && Find(w.tables.rows, q.eventId).None?)
    case Creating(uri) => Find(w.tables.rows, q.eventId).None? && UriOk(cfg, w.objects, q, uri)
    case Rereading(uri) => Pending(w.tables, q) && UriOk(cfg, w.objects, q, uri)
    case Marking(uri) => uri == Uri(q.finalKey) && AF.Archived(w.objects, q) && Pending(w.tables, q)
    case Confirming => StoredFor(w, q)
    case Logging(_, Done(outcome)) => OutcomeOk(w, q, outcome)
    case Logging(_, next) => next.MarkingFailed? && Pending(w.tables, q)
    case MarkingFailed => Pending(w.tables, q)
    case Done(outcome) => OutcomeOk(w, q, outcome)
    case _ => true
  }

  ghost predicate AboveFloor(floor: Option<nat>, id: nat) {
    floor.Some? ==> floor.value < id
  }

  ghost predicate RetainOk(w: World, pc: RetainPc) {
    match pc
    case ReadingCandidates(floor) => floor == w.tables.watermark
    case ConfirmingRow(rest, confirmed) =>
      && (forall r | r in rest :: AboveFloor(w.tables.watermark, r.id))
      && (forall id | id in confirmed :: AboveFloor(w.tables.watermark, id))
      && Ascending(rest)
      && (forall id, r | id in confirmed && r in rest :: id < r.id)
      && (forall id | id in confirmed :: id <= Last(confirmed))
    case Committing(confirmed, _) =>
      && confirmed != []
      && (forall id | id in confirmed :: AboveFloor(w.tables.watermark, id) && id <= Last(confirmed))
    case _ => true
  }

  ghost predicate ProcessOk(cfg: Config, w: World, p: Process) {
    match p
    case Ingesting(q, pc) => WellFormed(cfg, q) && (q.verified || pc.Done?) && PcOk(cfg, w, q, pc)
    case Retaining(_, _, rpc) => RetainOk(w, rpc)
  }

  ghost predicate HasId(rows: seq<Row>, id: nat) {
    exists r :: r in rows && r.id == id
  }

  ghost predicate FinalsStay(before: Objects, after: Objects) {
    forall k | k in before && k.FinalKey? ::
      && k in after && after[k] == before[k]
      && (GuardKey(k.eventId) in before ==>
            GuardKey(k.eventId) in after && after[GuardKey(k.eventId)] == before[GuardKey(k.eventId)])
  }

  /**
   How the stores change along a run: a stored row stays as it is unless retention took it; no row of
   any status goes before the watermark has reached it; the watermark never falls; ids are never reused;
   finals, and guards with a final behind them, stay.
   */
  ghost predicate Evolves(before: World, after: World) {
    && (forall r | r in before.tables.rows && r.status.Stored? ::
          r in after.tables.rows || (!HasId(after.tables.rows, r.id) && !AboveFloor(after.tables.watermark, r.id)))
    && (forall r | r in before.tables.rows ::
          HasId(after.tables.rows, r.id) || !AboveFloor(after.tables.watermark, r.id))
    && (before.tables.watermark.Some? ==>
          after.tables.watermark.Some? && before.tables.watermark.value <= after.tables.watermark.value)
    && before.tables.nextId <= after.tables.nextId
    && (forall r | r in after.tables.rows && r.id < before.tables.nextId :: HasId(before.tables.rows, r.id))
    && FinalsStay(before.objects, after.objects)
  }

  lemma EvolvesTransitive(a: World, b: World, c: World)
    requires TablesOk(a.tables) && TablesOk(b.tables)
    requires Evolves(a, b) && Evolves(b, c)
    ensures Evolves(a, c)
  {
  }

  ghost predicate ObjectsOk(cfg: Config, objects: Objects) {
    forall k | k in objects :: AF.ObjectOk(cfg, objects, k)
  }

  /** A PUT or link that met an absent key, or the step left the archive alone. */
  lemma WriteKeeps(cfg: Config, q: Request, objects: Objects, target: Target)
    requires WellFormed(cfg, q) && ObjectsOk(cfg, objects) && (target.Final? ==> AF.GuardHolds(objects, q))
    requires TargetKey(q, target) !in objects
    ensures var after := objects[TargetKey(q, target) := q.text];
            ObjectsOk(cfg, after) && FinalsStay(objects, after) && AF.GuardHolds(after, q)
  {
  }

  /** Under an absent guard there is no final. */
  lemma NoGuardNoFinal(cfg: Config, objects: Objects, e: EventId)
    requires ObjectsOk(cfg, objects) && GuardKey(e) !in objects
    ensures NoFinal(objects, e)
  {
  }

  /**
   This one removal of a guard leaves the archive consistent exactly if there is no final of its event id
   at the time. Whether a guard stays through a run is another matter: see Guards.GuardStaysExactly.
   */
  lemma RollbackExactly(cfg: Config, objects: Objects, e: EventId)
    requires ObjectsOk(cfg, objects)
    ensures ObjectsOk(cfg, objects - {GuardKey(e)}) <==> NoFinal(objects, e)
    ensures NoFinal(objects, e) ==> FinalsStay(objects, objects - {GuardKey(e)})
  {
    var after := objects - {GuardKey(e)};
    if NoFinal(objects, e) {
      forall k | k in after
        ensures AF.ObjectOk(cfg, after, k)
      {
        assert AF.ObjectOk(cfg, objects, k);
      }
    } else {
      var k :| k in objects && k.eventId == e && !k.GuardKey?;
      assert AF.ObjectOk(cfg, objects, k) && k in after;
      assert !AF.ObjectOk(cfg, after, k);
    }
  }

  lemma NextStoreOk(q: Request, objects: Objects, pc: StorePc, fault: Fault)
    requires q.finalKey.FinalKey? && q.finalKey.eventId == q.eventId && LoneWriterOk(objects, q, pc) && !pc.Put?
    requires !pc.Get?
    requires GuardKey(q.eventId) !in objects ==> NoFinal(objects, q.eventId)
    ensures LoneWriterOk(StoreStep(q, objects, pc, fault).0, q, StoreStep(q, objects, pc, fault).1)
  {
  }

  /** Every disk or S3 call keeps finals under their guards, the rollback branch included. */
  lemma StoreStepKeeps(cfg: Config, q: Request, objects: Objects, pc: StorePc, fault: Fault)
    requires WellFormed(cfg, q) && ObjectsOk(cfg, objects) && LoneWriterOk(objects, q, pc)
    ensures var (after, next) := StoreStep(q, objects, pc, fault);
            ObjectsOk(cfg, after) && FinalsStay(objects, after) && LoneWriterOk(after, q, next)
  {
    if pc.Put? || pc.Get? {
      AF.StoreStepKeeps(cfg, q, objects, pc, fault);
    } else {
      if GuardKey(q.eventId) !in objects {
        NoGuardNoFinal(cfg, objects, q.eventId);
      }
      NextStoreOk(q, objects, pc, fault);
      if pc.Link? && TargetKey(q, pc.target) !in objects {
        WriteKeeps(cfg, q, objects, pc.target);
      }
      if pc.RollbackRemove? {
        RollbackExactly(cfg, objects, q.eventId);
      }
    }
  }

  lemma ObjectsChangeKeeps(cfg: Config, w: World, after: Objects)
    requires WorldOk(cfg, w) && ObjectsOk(cfg, after) && FinalsStay(w.objects, after)
    ensures WorldOk(cfg, w.(objects := after)) && Evolves(w, w.(objects := after))
  {
  }

  lemma WritingStepKeeps(cfg: Config, q: Request, w: World, pc: Pc, fault: Fault)
    requires pc.Writing? && WorldOk(cfg, w) && ProcessOk(cfg, w, Ingesting(q, pc))
    ensures var (w', pc') := IngestStep(cfg, q, w, pc, fault);
            WorldOk(cfg, w') && ProcessOk(cfg, w', Ingesting(q, pc')) && Evolves(w, w')
  {
    var (after, next) := StoreStep(q, w.objects, pc.store, fault);
    StoreStepKeeps(cfg, q, w.objects, pc.store, fault);
    ObjectsChangeKeeps(cfg, w, after);
    ResumeOk(cfg, q, w.(objects := after), pc.markFailed, next);
  }

  /** Where an ingest goes on when the storage call has moved on or returned. */
  lemma ResumeOk(cfg: Config, q: Request, w: World, markFailed: bool, store: StorePc)
    requires LoneWriterOk(w.objects, q, store)
    requires if markFailed then Pending(w.tables, q) else cfg.archiveFirst && Find(w.tables.rows, q.eventId).None?
    ensures PcOk(cfg, w, q, Resume(cfg, q, markFailed, store))
  {
  }

  /** The row that GetEvent or the re-read found, under the hash comparison the code makes. */
  lemma FoundRow(cfg: Config, q: Request, w: World, r: Row)
    requires CollisionFree(cfg) && WorldOk(cfg, w) && WellFormed(cfg, q) && q.verified
    requires Find(w.tables.rows, q.eventId) == Some(r) && r.eventHash == q.eventHash
    ensures r.text == q.text && r.payloadHash == q.payloadHash
    ensures if r.status.Stored? then StoredFor(w, q) else Pending(w.tables, q)
  {
  }

  lemma NextPcOk(cfg: Config, q: Request, w: World, pc: Pc, fault: Fault)
    requires CollisionFree(cfg) && WorldOk(cfg, w) && ProcessOk(cfg, w, Ingesting(q, pc))
    requires pc.Looking? || pc.Rereading? || pc.Confirming? || pc.RereadingFailed? || pc.Done?
    ensures ProcessOk(cfg, w, Ingesting(q, IngestStep(cfg, q, w, pc, fault).1))
  {
    var found := Find(w.tables.rows, q.eventId);
    if found.Some? && found.value.eventHash == q.eventHash && q.verified {
      FoundRow(cfg, q, w, found.value);
    }
  }

  lemma CreateKeeps(cfg: Config, q: Request, w: World)
    requires WorldOk(cfg, w) && WellFormed(cfg, q) && q.verified && Find(w.tables.rows, q.eventId).None?
    ensures var w' := w.(tables := Create(w.tables, q)); WorldOk(cfg, w') && Pending(w'.tables, q)
  {
    var row := NewRow(w.tables.nextId, q);
    CreateKeepsTables(w.tables, q);
    assert row in Create(w.tables, q).rows && RowOk(cfg, w.objects, row);
    FindUnique(Create(w.tables, q).rows, row);
  }

  lemma CreateEvolves(q: Request, w: World)
    requires Find(w.tables.rows, q.eventId).None?
    ensures Evolves(w, w.(tables := Create(w.tables, q)))
  {
  }

  lemma CreatingStepKeeps(cfg: Config, q: Request, w: World, pc: Pc, fault: Fault)
    requires pc.Creating? && WorldOk(cfg, w) && ProcessOk(cfg, w, Ingesting(q, pc))
    ensures var (w', pc') := IngestStep(cfg, q, w, pc, fault);
            WorldOk(cfg, w') && ProcessOk(cfg, w', Ingesting(q, pc')) && Evolves(w, w')
  {
    if fault.TakesEffect() {
      CreateKeeps(cfg, q, w);
      CreateEvolves(q, w);
    } else {
      SameRowsKeep(cfg, w, w);
    }
  }

  /** UPDATE of a pending row: no stored row is touched. */
  lemma UpdateEvolves(cfg: Config, q: Request, w: World, after: Tables, changed: Row)
    requires WorldOk(cfg, w) && Pending(w.tables, q)
    requires after.nextId == w.tables.nextId && after.watermark == w.tables.watermark && TablesOk(after)
    requires changed.eventId == q.eventId && RowOk(cfg, w.objects, changed)
    requires changed.id == Find(w.tables.rows, q.eventId).value.id
    requires ChangesOne(w.tables.rows, after.rows, q.eventId, changed)
    ensures WorldOk(cfg, w.(tables := after)) && Evolves(w, w.(tables := after))
    ensures Find(after.rows, q.eventId) == Some(changed)
  {
    FindUnique(after.rows, changed);
    forall r | r in w.tables.rows && r.status.Stored?
      ensures r in after.rows
    {
      FindUnique(w.tables.rows, r);
    }
    forall r | r in after.rows
      ensures RowOk(cfg, w.objects, r) && HasId(w.tables.rows, r.id)
    {
      if r == changed {
        assert Find(w.tables.rows, q.eventId).value in w.tables.rows;
      }
    }
    forall r | r in w.tables.rows
      ensures HasId(after.rows, r.id)
    {
      if r.eventId == q.eventId {
        FindUnique(w.tables.rows, r);
      }
    }
  }

  lemma MarkStoredKeeps(cfg: Config, q: Request, w: World)
    requires WorldOk(cfg, w) && WellFormed(cfg, q) && Pending(w.tables, q) && AF.Archived(w.objects, q)
    ensures var w' := w.(tables := SetStored(w.tables, q.eventId, Uri(q.finalKey)));
            WorldOk(cfg, w') && Evolves(w, w') && StoredFor(w', q)
  {
    var pending, uri := Find(w.tables.rows, q.eventId).value, Uri(q.finalKey);
    assert RowOk(cfg, w.objects, pending);
    UpdatesChangeOne(w.tables, pending, uri);
    UpdateEvolves(cfg, q, w, SetStored(w.tables, q.eventId, uri), StoredRow(pending, uri));
  }

  lemma MarkFailedKeeps(cfg: Config, q: Request, w: World)
    requires WorldOk(cfg, w) && Pending(w.tables, q)
    ensures var w' := w.(tables := SetFailed(w.tables, q.eventId)); WorldOk(cfg, w') && Evolves(w, w')
  {
    var pending := Find(w.tables.rows, q.eventId).value;
    assert RowOk(cfg, w.objects, pending);
    UpdatesChangeOne(w.tables, pending, Uri(q.finalKey));
    UpdateEvolves(cfg, q, w, SetFailed(w.tables, q.eventId), pending.(status := Failed));
  }

  lemma MarkingStepKeeps(cfg: Config, q: Request, w: World, pc: Pc, fault: Fault)
    requires pc.Marking? || pc.MarkingFailed?
    requires WorldOk(cfg, w) && ProcessOk(cfg, w, Ingesting(q, pc))
    ensures var (w', pc') := IngestStep(cfg, q, w, pc, fault);
            WorldOk(cfg, w') && ProcessOk(cfg, w', Ingesting(q, pc')) && Evolves(w, w')
  {
    if !fault.TakesEffect() {
      SameRowsKeep(cfg, w, w);
    } else if pc.Marking? {
      MarkStoredKeeps(cfg, q, w);
    } else {
      MarkFailedKeeps(cfg, q, w);
    }
  }

  lemma IngestStepKeeps(cfg: Config, q: Request, w: World, pc: Pc, fault: Fault)
    requires CollisionFree(cfg) && WorldOk(cfg, w) && ProcessOk(cfg, w, Ingesting(q, pc))
    ensures var (w', pc') := IngestStep(cfg, q, w, pc, fault);
            WorldOk(cfg, w') && ProcessOk(cfg, w', Ingesting(q, pc')) && Evolves(w, w')
  {
    match pc {
      case Writing(_, _) => WritingStepKeeps(cfg, q, w, pc, fault);
      case Creating(_) => CreatingStepKeeps(cfg, q, w, pc, fault);
      case Marking(_) => MarkingStepKeeps(cfg, q, w, pc, fault);
      case MarkingFailed => MarkingStepKeeps(cfg, q, w, pc, fault);
      case Logging(_, _) => SameRowsKeep(cfg, w, IngestStep(cfg, q, w, pc, fault).0);
      case _ => NextPcOk(cfg, q, w, pc, fault); SameRowsKeep(cfg, w, w);
    }
  }

  lemma SameRowsKeep(cfg: Config, w: World, w': World)
    requires WorldOk(cfg, w) && w'.objects == w.objects && w'.tables.rows == w.tables.rows
    requires w'.tables.nextId == w.tables.nextId && w'.tables.watermark == w.tables.watermark
    ensures WorldOk(cfg, w') && Evolves(w, w')
  {
  }

  lemma NextCandidateOk(cfg: Config, w: World, through: nat, rest: seq<Row>, confirmed: seq<nat>)
    requires forall r | r in rest :: AboveFloor(w.tables.watermark, r.id)
    requires Ascending(rest)
    requires forall id | id in confirmed :: AboveFloor(w.tables.watermark, id) && id <= Last(confirmed)
    requires forall id, r | id in confirmed && r in rest :: id < r.id
    ensures RetainOk(w, NextCandidate(cfg, through, rest, confirmed))
  {
  }

  lemma ConfirmedOneMore(w: World, rest: seq<Row>, confirmed: seq<nat>)
    requires rest != [] && RetainOk(w, ConfirmingRow(rest, confirmed))
    ensures RetainOk(w, ConfirmingRow(rest[1..], confirmed + [rest[0].id]))
  {
  }

  lemma NextRetainOk(cfg: Config, through: nat, limit: int, w: World, pc: RetainPc, fault: Fault)
    requires TablesOk(w.tables) && RetainOk(w, pc) && !pc.Committing?
    ensures RetainOk(w, RetainStep(cfg, through, limit, w, pc, fault).1)
  {
    match pc {
      case ReadingCandidates(floor) =>
        var found := StoredBetween(w.tables.rows, floor, through);
        StoredBetweenAscends(w.tables.rows, floor, through);
        assert forall r | r in Take(found, EffectiveLimit(limit)) :: r in found;
        NextCandidateOk(cfg, w, through, Take(found, EffectiveLimit(limit)), []);
      case ConfirmingRow(rest, confirmed) =>
        if rest != [] {
          ConfirmedOneMore(w, rest, confirmed);
          NextCandidateOk(cfg, w, through, rest[1..], confirmed + [rest[0].id]);
        }
      case _ =>
    }
  }

  lemma RetainStepKeeps(cfg: Config, through: nat, limit: int, w: World, pc: RetainPc, fault: Fault)
    requires WorldOk(cfg, w) && RetainOk(w, pc)
    ensures var (w', pc') := RetainStep(cfg, through, limit, w, pc, fault);
            WorldOk(cfg, w') && RetainOk(w', pc') && Evolves(w, w')
  {
    SameRowsKeep(cfg, w, w);
    if pc.Committing? {
      CommitKeeps(cfg, w, pc.confirmed);
    } else {
      NextRetainOk(cfg, through, limit, w, pc, fault);
    }
  }

  lemma CommitKeeps(cfg: Config, w: World, confirmed: seq<nat>)
    requires WorldOk(cfg, w) && RetainOk(w, Committing(confirmed, 0))
    ensures var w' := w.(tables := Retain(w.tables, confirmed, Last(confirmed))); WorldOk(cfg, w') && Evolves(w, w')
  {
    var after := Retain(w.tables, confirmed, Last(confirmed));
    assert confirmed[|confirmed| - 1] in confirmed;
    RetainKeepsTables(w.tables, confirmed, Last(confirmed));
    forall r | r in w.tables.rows
      ensures HasId(w.tables.rows, r.id)
    {
    }
    forall r | r in after.rows
      ensures HasId(after.rows, r.id)
    {
    }
    forall r | r in w.tables.rows && r.status.Stored? && r !in after.rows
      ensures !HasId(after.rows, r.id) && r.id <= Last(confirmed)
    {
      if s :| s in after.rows && s.id == r.id {
        SameId(w.tables.rows, r, s);
      }
    }
  }

  lemma StepKeeps(cfg: Config, w: World, p: Process, fault: Fault)
    requires CollisionFree(cfg) && WorldOk(cfg, w) && ProcessOk(cfg, w, p)
    ensures var (w', p') := Step(cfg, w, p, fault); WorldOk(cfg, w') && ProcessOk(cfg, w', p') && Evolves(w, w')
  {
    match p {
      case Ingesting(q, pc) => IngestStepKeeps(cfg, q, w, pc, fault);
      case Retaining(t, l, rpc) => RetainStepKeeps(cfg, t, l, w, rpc, fault);
    }
  }

  lemma {:induction false} WalkKeeps(cfg: Config, w: World, p: Process, faults: seq<Fault>)
    requires CollisionFree(cfg) && WorldOk(cfg, w) && ProcessOk(cfg, w, p) && Walk(cfg, w, p, faults).Some?
    ensures var (w', p') := Walk(cfg, w, p, faults).value; WorldOk(cfg, w') && ProcessOk(cfg, w', p') && Evolves(w, w')
  {
    if faults == [] {
      SameRowsKeep(cfg, w, w);
    } else {
      var init := faults[..|faults| - 1];
      WalkKeeps(cfg, w, p, init);
      var (v, r) := Walk(cfg, w, p, init).value;
      StepKeeps(cfg, v, r, faults[|faults| - 1]);
      EvolvesTransitive(w, v, Step(cfg, v, r, faults[|faults| - 1]).0);
    }
  }

  /** One ingest or retention run, and what happens to its store calls. */
  datatype Job = Job(start: Process, faults: seq<Fault>)

  ghost predicate JobOk(cfg: Config, j: Job) {
    match j.start
    case Ingesting(q, pc) => WellFormed(cfg, q) && pc == Begin(q)
    case Retaining(_, _, rpc) => rpc.ReadingFloor?
  }

  /** A job runs until its faults are used up: to its end, or to the crash. */
  function PlayJob(cfg: Config, w: World, j: Job): (World, Process) {
    var end := Walk(cfg, w, j.start, j.faults);
    if end.Some? then end.value else (w, j.start)
  }

  function Play(cfg: Config, w: World, jobs: seq<Job>): World {
    if jobs == [] then w
    else PlayJob(cfg, Play(cfg, w, jobs[..|jobs| - 1]), jobs[|jobs| - 1]).0
  }

  lemma {:induction false} PlayAppend(cfg: Config, w: World, a: seq<Job>, b: seq<Job>)
    ensures Play(cfg, w, a + b) == Play(cfg, Play(cfg, w, a), b)
  {
    if b == [] {
      assert a + b == a;
    } else {
      PlayAppend(cfg, w, a, b[..|b| - 1]);
      assert (a + b)[..|a + b| - 1] == a + b[..|b| - 1];
    }
  }

  lemma PlayJobKeeps(cfg: Config, w: World, j: Job)
    requires CollisionFree(cfg) && WorldOk(cfg, w) && JobOk(cfg, j)
    ensures var (w', p') := PlayJob(cfg, w, j); WorldOk(cfg, w') && ProcessOk(cfg, w', p') && Evolves(w, w')
  {
    SameRowsKeep(cfg, w, w);
    if Walk(cfg, w, j.start, j.faults).Some? {
      WalkKeeps(cfg, w, j.start, j.faults);
    }
  }

  lemma {:induction false} PlayKeeps(cfg: Config, w: World, jobs: seq<Job>)
    requires CollisionFree(cfg) && WorldOk(cfg, w) && forall j | j in jobs :: JobOk(cfg, j)
    ensures WorldOk(cfg, Play(cfg, w, jobs)) && Evolves(w, Play(cfg, w, jobs))
  {
    if jobs == [] {
      SameRowsKeep(cfg, w, w);
    } else {
      var init := jobs[..|jobs| - 1];
      PlayKeeps(cfg, w, init);
      PlayJobKeeps(cfg, Play(cfg, w, init), jobs[|jobs| - 1]);
      EvolvesTransitive(w, Play(cfg, w, init), Play(cfg, w, jobs));
    }
  }

  /**
   After any jobs with any faults and crashes, rolled back writes included: a final object has its
   guard with equal content beside it, and conflicting content never makes a second final path.
   */
  lemma OneFinal(cfg: Config, jobs: seq<Job>, k: Key, l: Key)
    requires CollisionFree(cfg) && forall j | j in jobs :: JobOk(cfg, j)
    ensures var objects := Play(cfg, EMPTY_WORLD, jobs).objects;
            && (k in objects && k.FinalKey? ==>
                  GuardKey(k.eventId) in objects && objects[GuardKey(k.eventId)] == objects[k])
            && (k in objects && l in objects && k.FinalKey? && l.FinalKey? && k.eventId == l.eventId ==> k == l)
  {
    PlayKeeps(cfg, EMPTY_WORLD, jobs);
    var objects := Play(cfg, EMPTY_WORLD, jobs).objects;
    if k in objects {
      assert AF.ObjectOk(cfg, objects, k);
    }
    if k in objects && l in objects && k.eventId == l.eventId {
      assert AF.ObjectOk(cfg, objects, l);
      AF.OneContent(cfg, objects, k, l);
    }
  }

  ghost predicate Acknowledges(p: Process) {
    p.Ingesting? && p.pc.Done? && p.pc.outcome.Accepted? && !p.pc.outcome.verdict.VerdictConflict?
  }

  function IngestJob(q: Request, faults: seq<Fault>): Job {
    Job(Ingesting(q, Begin(q)), faults)
  }

  /** What an acknowledged event keeps through any evolution of the stores. */
  lemma StoredForLasts(ack: World, end: World, q: Request)
    requires StoredFor(ack, q) && q.finalKey.FinalKey? && q.finalKey.eventId == q.eventId && Evolves(ack, end)
    ensures AF.Archived(end.objects, q)
    ensures var row := Find(ack.tables.rows, q.eventId).value;
            row in end.tables.rows || (!HasId(end.tables.rows, row.id) && !AboveFloor(end.tables.watermark, row.id))
  {
  }

  lemma AcknowledgedAt(cfg: Config, w: World, p: Process)
    requires ProcessOk(cfg, w, p) && Acknowledges(p)
    ensures StoredFor(w, p.q)
  {
  }

  lemma JobKeepsRequest(cfg: Config, w: World, q: Request, faults: seq<Fault>)
    ensures PlayJob(cfg, w, IngestJob(q, faults)).1.Ingesting? && PlayJob(cfg, w, IngestJob(q, faults)).1.q == q
  {
    if Walk(cfg, w, Ingesting(q, Begin(q)), faults).Some? {
      WalkKeepsRequest(cfg, w, Ingesting(q, Begin(q)), faults);
    }
  }

  /** An acknowledged job leaves its row stored and its bytes archived. */
  lemma AcknowledgedIsStored(cfg: Config, w: World, q: Request, faults: seq<Fault>)
    requires CollisionFree(cfg) && WorldOk(cfg, w) && WellFormed(cfg, q)
    requires Acknowledges(PlayJob(cfg, w, IngestJob(q, faults)).1)
    ensures StoredFor(PlayJob(cfg, w, IngestJob(q, faults)).0, q)
  {
    var (v, p) := PlayJob(cfg, w, IngestJob(q, faults));
    PlayJobKeeps(cfg, w, IngestJob(q, faults));
    JobKeepsRequest(cfg, w, q, faults);
    AcknowledgedAt(cfg, v, p);
  }

  /**
   Durability. Once an ingest is acknowledged as stored or duplicate, then after any later jobs with
   any faults and crashes its bytes are still under guard and final, and the row it was acknowledged
   for is either untouched or deleted with the watermark at or above its cursor.
   */
  lemma Durability(cfg: Config, before: seq<Job>, q: Request, faults: seq<Fault>, after: seq<Job>)
    requires CollisionFree(cfg) && WellFormed(cfg, q)
    requires (forall j | j in before :: JobOk(cfg, j)) && (forall j | j in after :: JobOk(cfg, j))
    requires Acknowledges(PlayJob(cfg, Play(cfg, EMPTY_WORLD, before), IngestJob(q, faults)).1)
    ensures var ack := PlayJob(cfg, Play(cfg, EMPTY_WORLD, before), IngestJob(q, faults)).0;
            var end := Play(cfg, ack, after);
            && StoredFor(ack, q)
            && AF.Archived(end.objects, q)
            && var row := Find(ack.tables.rows, q.eventId).value;
               row in end.tables.rows || (!HasId(end.tables.rows, row.id) && !AboveFloor(end.tables.watermark, row.id))
  {
    var start := Play(cfg, EMPTY_WORLD, before);
    PlayKeeps(cfg, EMPTY_WORLD, before);
    AcknowledgedIsStored(cfg, start, q, faults);
    var j := IngestJob(q, faults);
    assert JobOk(cfg, j);
    PlayJobKeeps(cfg, start, j);
    var ack := PlayJob(cfg, start, j).0;
    PlayKeeps(cfg, ack, after);
    StoredForLasts(ack, Play(cfg, ack, after), q);
  }

  lemma {:induction false} WalkKeepsRequest(cfg: Config, w: World, p: Process, faults: seq<Fault>)
    requires p.Ingesting? && Walk(cfg, w, p, faults).Some?
    ensures Walk(cfg, w, p, faults).value.1.Ingesting? && Walk(cfg, w, p, faults).value.1.q == p.q
  {
    if faults != [] {
      WalkKeepsRequest(cfg, w, p, faults[..|faults| - 1]);
    }
  }
}
