/**
 Ledger and archive agree: every stored row names its own key, and the archive holds its exact text
 there. Archive-first this holds under any interleaving. Ledger-first it holds as long as no
 retention run is under way while an ingest is, whatever fails, dies or races otherwise.
 */
module Agreement {
  import opened Wrappers
  import opened Faults
  import opened Requests
  import opened Storage
  import opened Ledger
  import opened LedgerFacts
  import opened Machine
  import opened System
  import opened Replay
  import AF = ArchiveFirst
  import LF = LedgerFirst
  import Sequential

  ghost predicate Live(s: System, id: nat) {
    id in s.procs && !s.procs[id].Finished()
  }

  ghost predicate Apart(s: System) {
    forall i, j | Live(s, i) && Live(s, j) :: s.procs[i].Ingesting? == s.procs[j].Ingesting?
  }

  ghost predicate NeverOverlap(cfg: Config, s: System, events: seq<Event>) {
    forall n | 0 <= n <= |events| :: Apart(Run(cfg, s, events[..n]))
  }

  /** Guards may have gone and other content may be met, but what was written is known. */
  ghost predicate RacerOk(objects: Objects, q: Request, pc: StorePc) {
    match pc
    case Put(_) => false
    case Get(_) => false
    case Naming => LF.FinalHolds(objects, q)
    case RollbackCheck(result) => !result.Written?
    case RollbackRemove(result) => !result.Written?
    case Returned(Written(uri)) => uri == Uri(q.finalKey) && LF.FinalHolds(objects, q)
    case _ => true
  }

  ghost predicate PcOk(w: World, q: Request, pc: Pc) {
    if pc.Writing? then pc.markFailed && LF.Claimed(w.tables, q) && RacerOk(w.objects, q, pc.store)
    else LF.LedgerPcOk(w, q, pc)
  }

  ghost predicate ProcessOk(cfg: Config, w: World, p: Process) {
    p.Ingesting? ==> WellFormed(cfg, p.q) && (p.q.verified || p.pc.Done?) && PcOk(w, p.q, p.pc)
  }

  ghost predicate SystemOk(cfg: Config, s: System) {
    && LF.RowsOk(cfg, s.world)
    && (forall id | id in s.procs :: ProcessOk(cfg, s.world, s.procs[id]))
  }

  lemma StoreStepKeeps(q: Request, objects: Objects, pc: StorePc, fault: Fault)
    requires RacerOk(objects, q, pc) && q.finalKey.FinalKey?
    ensures var (after, next) := StoreStep(q, objects, pc, fault);
            RacerOk(after, q, next) && forall k | k in objects && k.FinalKey? :: k in after && after[k] == objects[k]
  {
  }

  lemma WritingStepKeeps(cfg: Config, q: Request, w: World, pc: Pc, fault: Fault)
    requires pc.Writing? && LF.RowsOk(cfg, w) && ProcessOk(cfg, w, Ingesting(q, pc))
    ensures var (w', pc') := IngestStep(cfg, q, w, pc, fault);
            LF.RowsOk(cfg, w') && ProcessOk(cfg, w', Ingesting(q, pc')) && LF.Preserves(w, w')
  {
    StoreStepKeeps(q, w.objects, pc.store, fault);
    var w' := IngestStep(cfg, q, w, pc, fault).0;
    forall r | r in w'.tables.rows
      ensures LF.RowOk(cfg, w'.objects, r)
    {
      assert LF.RowOk(cfg, w.objects, r);
    }
  }

  lemma NextPcOk(cfg: Config, q: Request, w: World, pc: Pc, fault: Fault)
    requires !cfg.archiveFirst && CollisionFree(cfg) && !pc.Writing?
    requires LF.RowsOk(cfg, w) && ProcessOk(cfg, w, Ingesting(q, pc))
    ensures ProcessOk(cfg, w, Ingesting(q, IngestStep(cfg, q, w, pc, fault).1))
  {
  }

  lemma SettledKeepsProcess(cfg: Config, before: World, after: World, p: Process)
    requires LF.Preserves(before, after) && ProcessOk(cfg, before, p)
    ensures ProcessOk(cfg, after, p)
  {
  }

  lemma IngestStepKeeps(cfg: Config, q: Request, w: World, pc: Pc, fault: Fault)
    requires !cfg.archiveFirst && CollisionFree(cfg) && LF.RowsOk(cfg, w) && ProcessOk(cfg, w, Ingesting(q, pc))
    ensures var (w', pc') := IngestStep(cfg, q, w, pc, fault);
            LF.RowsOk(cfg, w') && ProcessOk(cfg, w', Ingesting(q, pc')) && LF.Preserves(w, w')
  {
    if pc.Writing? {
      WritingStepKeeps(cfg, q, w, pc, fault);
    } else {
      var (w', pc') := IngestStep(cfg, q, w, pc, fault);
      NextPcOk(cfg, q, w, pc, fault);
      LF.LedgerStepKeeps(cfg, q, w, pc, fault);
      SettledKeepsProcess(cfg, w, w', Ingesting(q, pc'));
    }
  }

  lemma IngestAdvances(cfg: Config, s: System, id: nat, fault: Fault)
    requires !cfg.archiveFirst && CollisionFree(cfg) && SystemOk(cfg, s) && id in s.procs && s.procs[id].Ingesting?
    ensures SystemOk(cfg, Apply(cfg, s, Advance(id, fault)))
  {
    var s' := Apply(cfg, s, Advance(id, fault));
    IngestStepKeeps(cfg, s.procs[id].q, s.world, s.procs[id].pc, fault);
    forall other | other in s'.procs && other != id
      ensures ProcessOk(cfg, s'.world, s'.procs[other])
    {
      SettledKeepsProcess(cfg, s.world, s'.world, s.procs[other]);
    }
  }

  /** While retention deletes rows no ingest is relying on one. */
  lemma RetentionAdvances(cfg: Config, s: System, id: nat, fault: Fault)
    requires SystemOk(cfg, s) && Apart(s) && id in s.procs && s.procs[id].Retaining?
    ensures SystemOk(cfg, Apply(cfg, s, Advance(id, fault)))
  {
    var s' := Apply(cfg, s, Advance(id, fault));
    var pc := s.procs[id].rpc;
    if pc.Committing? && pc.confirmed != [] {
      RetainKeepsTables(s.world.tables, pc.confirmed, Last(pc.confirmed));
      assert Live(s, id);
      forall other | other in s'.procs && s'.procs[other].Ingesting?
        ensures s'.procs[other].pc.Done?
      {
        assert !Live(s, other);
      }
    }
  }

  lemma ApplyKeeps(cfg: Config, s: System, e: Event)
    requires !cfg.archiveFirst && CollisionFree(cfg) && SystemOk(cfg, s) && Apart(s) && WellFormedEvents(cfg, [e])
    ensures SystemOk(cfg, Apply(cfg, s, e))
  {
    match e {
      case Arrive(id, q) => assert e in [e];
      case Advance(id, fault) =>
        if id in s.procs {
          if s.procs[id].Ingesting? {
            IngestAdvances(cfg, s, id, fault);
          } else {
            RetentionAdvances(cfg, s, id, fault);
          }
        }
      case _ =>
    }
  }

  lemma {:induction false} RunKeeps(cfg: Config, s: System, events: seq<Event>)
    requires !cfg.archiveFirst && CollisionFree(cfg) && SystemOk(cfg, s)
    requires WellFormedEvents(cfg, events) && NeverOverlap(cfg, s, events)
    ensures SystemOk(cfg, Run(cfg, s, events))
  {
    if events != [] {
      var init, last := events[..|events| - 1], events[|events| - 1];
      assert forall e | e in init :: e in events;
      assert forall n | 0 <= n <= |init| :: init[..n] == events[..n];
      RunKeeps(cfg, s, init);
      assert Apart(Run(cfg, s, events[..|events| - 1]));
      assert last in events;
      ApplyKeeps(cfg, Run(cfg, s, init), last);
    }
  }

  /* ---------- Rows, and what replay gives out ---------- */

  /** The row's URI is that of its own key, and the object there is its text. */
  ghost predicate Agrees(cfg: Config, objects: Objects, r: Row) {
    && cfg.read(r.text).Some? && r.uri == Some(Uri(cfg.read(r.text).value.finalKey))
    && r.uri.value.key in objects && objects[r.uri.value.key] == r.text
  }

  ghost predicate AllAgree(cfg: Config, w: World) {
    forall r | r in w.tables.rows && r.status.Stored? :: Agrees(cfg, w.objects, r)
  }

  lemma ArchiveFirstAgrees(cfg: Config, events: seq<Event>)
    requires cfg.archiveFirst && WellFormedEvents(cfg, events)
    ensures AllAgree(cfg, Run(cfg, EMPTY_SYSTEM, events).world)
  {
    AF.RunKeeps(cfg, EMPTY_SYSTEM, events);
    var w := Run(cfg, EMPTY_SYSTEM, events).world;
    forall r | r in w.tables.rows && r.status.Stored?
      ensures Agrees(cfg, w.objects, r)
    {
      assert AF.RowOk(cfg, w.objects, r);
    }
  }

  lemma LedgerFirstAgrees(cfg: Config, events: seq<Event>)
    requires !cfg.archiveFirst && CollisionFree(cfg) && WellFormedEvents(cfg, events)
    requires NeverOverlap(cfg, EMPTY_SYSTEM, events)
    ensures AllAgree(cfg, Run(cfg, EMPTY_SYSTEM, events).world)
  {
    RunKeeps(cfg, EMPTY_SYSTEM, events);
    var w := Run(cfg, EMPTY_SYSTEM, events).world;
    forall r | r in w.tables.rows && r.status.Stored?
      ensures Agrees(cfg, w.objects, r)
    {
      assert LF.RowOk(cfg, w.objects, r);
    }
  }

  /** One request after another, of either adapter, with retention in between. */
  lemma SequentialAgrees(cfg: Config, jobs: seq<Sequential.Job>)
    requires CollisionFree(cfg) && forall j | j in jobs :: Sequential.JobOk(cfg, j)
    ensures AllAgree(cfg, Sequential.Play(cfg, EMPTY_WORLD, jobs))
  {
    Sequential.PlayKeeps(cfg, EMPTY_WORLD, jobs);
    var w := Sequential.Play(cfg, EMPTY_WORLD, jobs);
    forall r | r in w.tables.rows && r.status.Stored?
      ensures Agrees(cfg, w.objects, r)
    {
      assert Sequential.RowOk(cfg, w.objects, r);
    }
  }

  /** Whatever the floor check saw, every event replay gives out is an archived text under its URI. */
  lemma ReplayedIsArchived(cfg: Config, checked: Tables, w: World, after: Option<nat>, filter: Filter, limit: nat)
    requires AllAgree(cfg, w) && limit > 0
    ensures var reply := TwoReads(checked, w.tables, after, filter, limit);
            reply.Ok? ==> forall r | r in reply.value.events :: Agrees(cfg, w.objects, r)
  {
    var found := Select(w.tables.rows, after, filter);
    forall r | r in PageOf(w.tables.rows, after, filter, limit).events
      ensures r in found
    {
    }
  }

  /* ---------- Ledger-first, exactly when ---------- */

  /** What a request knows of the archive alone; the ledger may have changed under it. */
  ghost predicate LoosePcOk(objects: Objects, q: Request, pc: Pc) {
    match pc
    case Writing(markFailed, store) => markFailed && RacerOk(objects, q, store)
    case Creating(uri) => uri.None?
    case Rereading(uri) => uri.None?
    case Marking(uri) => uri == Uri(q.finalKey) && LF.FinalHolds(objects, q)
    case Logging(_, next) => next.Done? || next.MarkingFailed?
    case _ => true
  }

  ghost predicate LooseOk(cfg: Config, objects: Objects, p: Process) {
    p.Ingesting? ==> WellFormed(cfg, p.q) && (p.q.verified || p.pc.Done?) && LoosePcOk(objects, p.q, p.pc)
  }

  ghost predicate SystemLoose(cfg: Config, s: System) {
    && LF.RowsOk(cfg, s.world)
    && (forall id | id in s.procs :: LooseOk(cfg, s.world.objects, s.procs[id]))
  }

  /** The event does not mark a row that carries other content than the request that marks it. */
  ghost predicate MarkMeets(s: System, e: Event) {
    && e.Advance? && e.id in s.procs && s.procs[e.id].Ingesting? && s.procs[e.id].pc.Marking? && e.fault.TakesEffect()
    && Find(s.world.tables.rows, s.procs[e.id].q.eventId).Some?
    ==> Find(s.world.tables.rows, s.procs[e.id].q.eventId).value.text == s.procs[e.id].q.text
  }

  /** Marking keeps the agreement exactly if the event id has no row or its row has the request's text. */
  lemma MarkAgreesExactly(cfg: Config, q: Request, w: World)
    requires LF.RowsOk(cfg, w) && WellFormed(cfg, q) && LF.FinalHolds(w.objects, q)
    ensures var v := w.(tables := SetStored(w.tables, q.eventId, Uri(q.finalKey)));
            var row := Find(w.tables.rows, q.eventId);
            && (AllAgree(cfg, v) <==> (row.Some? ==> row.value.text == q.text))
            && ((row.Some? ==> row.value.text == q.text) ==> LF.RowsOk(cfg, v))
  {
    var uri, row := Uri(q.finalKey), Find(w.tables.rows, q.eventId);
    var v := w.(tables := SetStored(w.tables, q.eventId, uri));
    if row.Some? && row.value.text != q.text {
      UpdatedRow(w.tables, q.eventId, uri, row.value);
      assert !Agrees(cfg, v.objects, StoredRow(row.value, uri));
    } else {
      MarkKeepsRows(cfg, q, w);
      RowsAgree(cfg, v);
    }
  }

  lemma MarkKeepsRows(cfg: Config, q: Request, w: World)
    requires LF.RowsOk(cfg, w) && WellFormed(cfg, q) && LF.FinalHolds(w.objects, q)
    requires var row := Find(w.tables.rows, q.eventId); row.Some? ==> row.value.text == q.text
    ensures LF.RowsOk(cfg, w.(tables := SetStored(w.tables, q.eventId, Uri(q.finalKey))))
  {
    var uri := Uri(q.finalKey);
    UpdatesKeepTables(w.tables, q.eventId, uri);
    forall r | r in SetStored(w.tables, q.eventId, uri).rows
      ensures LF.RowOk(cfg, w.objects, r)
    {
      var b := StoredRowOrigin(w.tables, q.eventId, uri, r);
      FindUnique(w.tables.rows, b);
      assert LF.RowOk(cfg, w.objects, b);
    }
  }

  lemma RowsAgree(cfg: Config, w: World)
    requires LF.RowsOk(cfg, w)
    ensures AllAgree(cfg, w)
  {
  }

  ghost predicate FinalsKept(before: Objects, after: Objects) {
    forall k | k in before && k.FinalKey? :: k in after && after[k] == before[k]
  }

  lemma FinalsKeepRows(cfg: Config, w: World, after: Objects)
    requires LF.RowsOk(cfg, w) && FinalsKept(w.objects, after)
    ensures LF.RowsOk(cfg, w.(objects := after))
  {
  }

  /** Every store call of a ledger-first ingest but an effective mark. */
  lemma LooseStepKeeps(cfg: Config, q: Request, w: World, pc: Pc, fault: Fault)
    requires !cfg.archiveFirst && LF.RowsOk(cfg, w) && LooseOk(cfg, w.objects, Ingesting(q, pc))
    requires pc.Marking? ==> !fault.TakesEffect()
    ensures var (v, next) := IngestStep(cfg, q, w, pc, fault);
            LF.RowsOk(cfg, v) && LooseOk(cfg, v.objects, Ingesting(q, next)) && FinalsKept(w.objects, v.objects)
  {
    match pc {
      case Writing(_, store) =>
        StoreStepKeeps(q, w.objects, store, fault);
        FinalsKeepRows(cfg, w, StoreStep(q, w.objects, store, fault).0);
      case Creating(_) => LF.CreateKeeps(cfg, q, w);
      case MarkingFailed => LF.SetFailedKeeps(cfg, q, w);
      case _ =>
    }
  }

  lemma LooseIngestAdvances(cfg: Config, s: System, id: nat, fault: Fault)
    requires !cfg.archiveFirst && SystemLoose(cfg, s) && id in s.procs && s.procs[id].Ingesting?
    requires MarkMeets(s, Advance(id, fault))
    ensures SystemLoose(cfg, Apply(cfg, s, Advance(id, fault)))
  {
    var q, pc := s.procs[id].q, s.procs[id].pc;
    if pc.Marking? && fault.TakesEffect() {
      MarkKeepsRows(cfg, q, s.world);
    } else {
      LooseStepKeeps(cfg, q, s.world, pc, fault);
    }
  }

  /** Any event of any run: the agreement survives it exactly if it is no mark of other content. */
  lemma EventAgreesExactly(cfg: Config, s: System, e: Event)
    requires !cfg.archiveFirst && SystemLoose(cfg, s) && WellFormedEvents(cfg, [e])
    ensures AllAgree(cfg, Apply(cfg, s, e).world) <==> MarkMeets(s, e)
    ensures MarkMeets(s, e) ==> SystemLoose(cfg, Apply(cfg, s, e))
  {
    if MarkMeets(s, e) {
      match e {
        case Arrive(id, q) => assert e in [e];
        case Advance(id, fault) =>
          if id in s.procs {
            match s.procs[id] {
              case Ingesting(_, _) => LooseIngestAdvances(cfg, s, id, fault);
              case Retaining(_, _, pc) =>
                if pc.Committing? && pc.confirmed != [] {
                  RetainKeepsTables(s.world.tables, pc.confirmed, Last(pc.confirmed));
                }
            }
          }
        case _ =>
      }
      RowsAgree(cfg, Apply(cfg, s, e).world);
    } else {
      MarkAgreesExactly(cfg, s.procs[e.id].q, s.world);
    }
  }

  function At(cfg: Config, events: seq<Event>, n: nat): System
    requires n <= |events|
  {
    Run(cfg, EMPTY_SYSTEM, events[..n])
  }

  ghost predicate AgreesAt(cfg: Config, events: seq<Event>, n: nat)
    requires n <= |events|
  {
    AllAgree(cfg, At(cfg, events, n).world)
  }

  ghost predicate MeetsAt(cfg: Config, events: seq<Event>, n: nat)
    requires n < |events|
  {
    MarkMeets(At(cfg, events, n), events[n])
  }

  lemma AgreesNext(cfg: Config, events: seq<Event>, n: nat)
    requires !cfg.archiveFirst && WellFormedEvents(cfg, events) && n < |events| && SystemLoose(cfg, At(cfg, events, n))
    ensures AgreesAt(cfg, events, n + 1) <==> MeetsAt(cfg, events, n)
    ensures MeetsAt(cfg, events, n) ==> SystemLoose(cfg, At(cfg, events, n + 1))
  {
    assert events[..n + 1] == events[..n] + [events[n]];
    RunThen(cfg, EMPTY_SYSTEM, events[..n], events[n]);
    assert events[n] in events;
    EventAgreesExactly(cfg, At(cfg, events, n), events[n]);
  }

  lemma {:induction false} AgreesUpTo(cfg: Config, events: seq<Event>, n: nat)
    requires !cfg.archiveFirst && WellFormedEvents(cfg, events) && n <= |events|
    requires (forall k | 0 <= k <= n :: AgreesAt(cfg, events, k)) || (forall k | 0 <= k < n :: MeetsAt(cfg, events, k))
    ensures SystemLoose(cfg, At(cfg, events, n)) && AgreesAt(cfg, events, n)
    ensures n > 0 ==> MeetsAt(cfg, events, n - 1)
  {
    if n == 0 {
      assert events[..0] == [];
    } else {
      AgreesUpTo(cfg, events, n - 1);
      AgreesNext(cfg, events, n - 1);
    }
  }

  /**
   Any ledger-first run, retention and ingests overlapping as they please: ledger and archive agree at
   every moment exactly if no mark ever hits a row with other content than the request that marks it.
   */
  lemma LedgerFirstAgreesExactly(cfg: Config, events: seq<Event>)
    requires !cfg.archiveFirst && WellFormedEvents(cfg, events)
    ensures (forall n | 0 <= n <= |events| :: AgreesAt(cfg, events, n))
            <==> (forall n | 0 <= n < |events| :: MeetsAt(cfg, events, n))
  {
    if forall n | 0 <= n <= |events| :: AgreesAt(cfg, events, n) {
      forall n | 0 <= n < |events|
        ensures MeetsAt(cfg, events, n)
      {
        AgreesUpTo(cfg, events, n + 1);
      }
    }
    if forall n | 0 <= n < |events| :: MeetsAt(cfg, events, n) {
      forall n | 0 <= n <= |events|
        ensures AgreesAt(cfg, events, n)
      {
        AgreesUpTo(cfg, events, n);
      }
    }
  }
}
