/**
 What an answer is worth archive-first, whatever goes on at the same time: an acknowledged event is
 archived for good, and a stored row stays as it is until retention takes it exactly if no other
 request of its event id was already on its way to marking it failed.
 */
module Acknowledged {
  import opened Faults
  import opened Requests
  import opened Storage
  import opened Ledger
  import opened LedgerFacts
  import opened Machine
  import opened System
  import AF = ArchiveFirst
  import Sequential
  import Window

  /* ---------- Acknowledged means archived ---------- */

  ghost predicate Positive(outcome: Outcome) {
    outcome.Accepted? && !outcome.verdict.VerdictConflict?
  }

  /** A place that is given with a reported conflict holds other content of the event id. */
  ghost predicate NamesOther(objects: Objects, q: Request, outcome: Outcome) {
    outcome.Accepted? && outcome.verdict.VerdictConflict? ==>
      && outcome.eventId == q.eventId
      && (outcome.uri.Some? ==>
            var key := outcome.uri.value.key;
            key.FinalKey? && key.eventId == q.eventId && key in objects && objects[key] != q.text)
  }

  /** A place that is given with an acceptance is the request's own, and its bytes are there. */
  ghost predicate OutcomeBacked(objects: Objects, q: Request, outcome: Outcome) {
    && NamesOther(objects, q, outcome)
    && (Positive(outcome) ==>
          && outcome.eventId == q.eventId && AF.Archived(objects, q)
          && (outcome.uri.Some? ==> outcome.uri.value == Uri(q.finalKey)))
  }

  ghost predicate Backed(objects: Objects, p: Process) {
    p.Ingesting? ==>
      match p.pc
      case Confirming => AF.Archived(objects, p.q)
      case Logging(_, Done(outcome)) => OutcomeBacked(objects, p.q, outcome)
      case Done(outcome) => OutcomeBacked(objects, p.q, outcome)
      case _ => true
  }

  ghost predicate SystemBacked(cfg: Config, s: System) {
    && AF.SystemOk(cfg, s)
    && (forall id | id in s.procs :: Backed(s.world.objects, s.procs[id]))
  }

  /** What a row of the request's event id says about the archive, whichever request it came from. */
  ghost predicate RowNames(objects: Objects, q: Request, r: Row) {
    && r.eventId == q.eventId && (r.eventHash == q.eventHash ==> r.text == q.text)
    && (r.text == q.text ==> r.eventHash == q.eventHash && r.payloadHash == q.payloadHash)
    && (r.uri.Some? ==> RowHeld(objects, q, r, r.uri.value.key))
  }

  ghost predicate RowHeld(objects: Objects, q: Request, r: Row, key: Key) {
    && key.FinalKey? && key.eventId == q.eventId && key in objects && objects[key] == r.text
    && (r.text == q.text ==> key == q.finalKey && AF.Archived(objects, q))
    && (AF.GuardHolds(objects, q) ==> r.text == q.text)
  }

  lemma FoundRow(cfg: Config, w: World, q: Request, r: Row)
    requires CollisionFree(cfg) && AF.WorldOk(cfg, w) && WellFormed(cfg, q) && q.verified
    requires r in w.tables.rows && r.eventId == q.eventId
    ensures RowNames(w.objects, q, r)
  {
  }

  /** The three points where an answer rests on the row that a SELECT found. */
  lemma SelectBacks(cfg: Config, w: World, q: Request, pc: Pc, fault: Fault)
    requires cfg.archiveFirst && (pc.Looking? || ((pc.Rereading? || pc.Confirming?) && AF.Archived(w.objects, q)))
    requires var row := Find(w.tables.rows, q.eventId); row.Some? ==> RowNames(w.objects, q, row.value)
    ensures Backed(w.objects, Ingesting(q, IngestStep(cfg, q, w, pc, fault).1))
  {
  }

  lemma StepBacks(cfg: Config, w: World, q: Request, pc: Pc, fault: Fault)
    requires cfg.archiveFirst && CollisionFree(cfg) && AF.WorldOk(cfg, w)
    requires AF.ProcessOk(cfg, w.objects, Ingesting(q, pc)) && Backed(w.objects, Ingesting(q, pc))
    ensures var (v, next) := IngestStep(cfg, q, w, pc, fault);
            AF.Grown(w.objects, v.objects) && Backed(v.objects, Ingesting(q, next))
  {
    AF.IngestStepKeeps(cfg, q, w, pc, fault);
    if pc.Looking? || pc.Rereading? || pc.Confirming? {
      var row := Find(w.tables.rows, q.eventId);
      if row.Some? {
        FoundRow(cfg, w, q, row.value);
      }
      SelectBacks(cfg, w, q, pc, fault);
    } else {
      OtherCallsBack(cfg, w, q, pc, fault);
    }
  }

  lemma OtherCallsBack(cfg: Config, w: World, q: Request, pc: Pc, fault: Fault)
    requires cfg.archiveFirst && !pc.Looking? && !pc.Rereading? && !pc.Confirming?
    requires AF.ProcessOk(cfg, w.objects, Ingesting(q, pc)) && Backed(w.objects, Ingesting(q, pc))
    ensures var (v, next) := IngestStep(cfg, q, w, pc, fault);
            AF.Grown(w.objects, v.objects) ==> Backed(v.objects, Ingesting(q, next))
  {
  }

  lemma GrownBacks(before: Objects, after: Objects, p: Process)
    requires AF.Grown(before, after) && Backed(before, p)
    ensures Backed(after, p)
  {
  }

  lemma ApplyBacks(cfg: Config, s: System, e: Event)
    requires cfg.archiveFirst && CollisionFree(cfg) && SystemBacked(cfg, s) && WellFormedEvents(cfg, [e])
    ensures SystemBacked(cfg, Apply(cfg, s, e))
  {
    var s' := Apply(cfg, s, e);
    AF.ApplyKeeps(cfg, s, e);
    if e.Advance? && e.id in s.procs {
      if s.procs[e.id].Ingesting? {
        StepBacks(cfg, s.world, s.procs[e.id].q, s.procs[e.id].pc, e.fault);
      }
      forall other | other in s'.procs && other != e.id
        ensures Backed(s'.world.objects, s'.procs[other])
      {
        GrownBacks(s.world.objects, s'.world.objects, s.procs[other]);
      }
    }
  }

  lemma {:induction false} RunBacks(cfg: Config, events: seq<Event>)
    requires cfg.archiveFirst && CollisionFree(cfg) && WellFormedEvents(cfg, events)
    ensures SystemBacked(cfg, Run(cfg, EMPTY_SYSTEM, events))
  {
    if events != [] {
      var init, last := events[..|events| - 1], events[|events| - 1];
      assert forall e | e in init :: e in events;
      RunBacks(cfg, init);
      assert last in events;
      ApplyBacks(cfg, Run(cfg, EMPTY_SYSTEM, init), last);
    }
  }

  /**
   Durability under any interleaving: once a request has been answered `stored` or `duplicate`, its
   bytes are under guard and final then and at every later moment, whatever runs, fails or dies.
   */
  lemma AcknowledgedIsArchived(cfg: Config, first: seq<Event>, later: seq<Event>, id: nat)
    requires cfg.archiveFirst && CollisionFree(cfg) && WellFormedEvents(cfg, first + later)
    requires id in Run(cfg, EMPTY_SYSTEM, first).procs
    requires Sequential.Acknowledges(Run(cfg, EMPTY_SYSTEM, first).procs[id])
    ensures AF.Archived(Run(cfg, EMPTY_SYSTEM, first + later).world.objects, Run(cfg, EMPTY_SYSTEM, first).procs[id].q)
  {
    assert forall e | e in first :: e in first + later;
    assert forall e | e in later :: e in first + later;
    RunBacks(cfg, first);
    var s := Run(cfg, EMPTY_SYSTEM, first);
    assert Backed(s.world.objects, s.procs[id]);
    AF.RunKeeps(cfg, s, later);
    RunAppend(cfg, EMPTY_SYSTEM, first, later);
  }

  /**
   And what is answered holds, then and at every later moment: the event id is the request's; a URI that
   comes with `stored` or `duplicate` is its own; one that comes with a conflict holds other content of that
   event id.
   */
  lemma AnswersHold(cfg: Config, first: seq<Event>, later: seq<Event>, id: nat)
    requires cfg.archiveFirst && CollisionFree(cfg) && WellFormedEvents(cfg, first + later)
    requires id in Run(cfg, EMPTY_SYSTEM, first).procs
    requires Run(cfg, EMPTY_SYSTEM, first).procs[id].Ingesting? && Run(cfg, EMPTY_SYSTEM, first).procs[id].pc.Done?
    ensures var p := Run(cfg, EMPTY_SYSTEM, first).procs[id];
            OutcomeBacked(Run(cfg, EMPTY_SYSTEM, first + later).world.objects, p.q, p.pc.outcome)
  {
    assert forall e | e in first :: e in first + later;
    assert forall e | e in later :: e in first + later;
    RunBacks(cfg, first);
    var s := Run(cfg, EMPTY_SYSTEM, first);
    assert Backed(s.world.objects, s.procs[id]);
    AF.RunKeeps(cfg, s, later);
    RunAppend(cfg, EMPTY_SYSTEM, first, later);
    GrownBacks(s.world.objects, Run(cfg, EMPTY_SYSTEM, first + later).world.objects, s.procs[id]);
  }

  /* ---------- A stored row, exactly when it stays ---------- */

  /** On the way to `MarkFailed` for this event id, should its next write fail. */
  ghost predicate Threatens(p: Process, e: EventId) {
    p.Ingesting? && p.q.eventId == e &&
    match p.pc
    case Writing(markFailed, store) => markFailed && (store.Returned? ==> store.result.Unavailable?)
    case MarkingFailed => true
    case Logging(_, next) => next.MarkingFailed?
    case _ => false
  }

  ghost predicate Calm(s: System, e: EventId) {
    forall id | id in s.procs :: !Threatens(s.procs[id], e)
  }

  /** Taken by retention, and its id is not given out again. */
  ghost predicate Gone(t: Tables, r: Row) {
    r.id < t.nextId && !Sequential.HasId(t.rows, r.id)
  }

  /** The guard makes a marking request's text the row's own, so the mark changes nothing. */
  lemma MarkIsIdle(cfg: Config, objects: Objects, q: Request, r: Row)
    requires AF.RowOk(cfg, objects, r) && r.status.Stored? && WellFormed(cfg, q) && AF.Archived(objects, q)
    requires r.eventId == q.eventId
    ensures StoredRow(r, Uri(q.finalKey)) == r
  {
  }

  lemma IngestSpares(cfg: Config, w: World, q: Request, pc: Pc, fault: Fault, r: Row)
    requires cfg.archiveFirst && AF.WorldOk(cfg, w) && AF.ProcessOk(cfg, w.objects, Ingesting(q, pc))
    requires r in w.tables.rows && r.status.Stored? && !Threatens(Ingesting(q, pc), r.eventId)
    ensures r in IngestStep(cfg, q, w, pc, fault).0.tables.rows
  {
    match pc {
      case Marking(uri) =>
        UpdatedRow(w.tables, q.eventId, uri, r);
        if r.eventId == q.eventId {
          assert AF.RowOk(cfg, w.objects, r);
          MarkIsIdle(cfg, w.objects, q, r);
        }
      case MarkingFailed => UpdatedRow(w.tables, q.eventId, Uri(q.finalKey), r);
      case _ =>
    }
  }

  /** A request that meets the stored row ends as a duplicate or a conflict, never in another write. */
  lemma IngestStaysCalm(cfg: Config, w: World, q: Request, pc: Pc, fault: Fault, r: Row)
    requires cfg.archiveFirst && AF.WorldOk(cfg, w) && AF.ProcessOk(cfg, w.objects, Ingesting(q, pc))
    requires r in w.tables.rows && r.status.Stored? && !Threatens(Ingesting(q, pc), r.eventId)
    ensures !Threatens(Ingesting(q, IngestStep(cfg, q, w, pc, fault).1), r.eventId)
  {
    FindUnique(w.tables.rows, r);
    assert AF.RowOk(cfg, w.objects, r);
  }

  lemma CommitTakes(t: Tables, ids: seq<nat>, watermark: nat, r: Row)
    requires TablesOk(t) && r in t.rows
    ensures r in Retain(t, ids, watermark).rows || Gone(Retain(t, ids, watermark), r)
  {
  }

  lemma EventSpares(cfg: Config, s: System, e: Event, r: Row)
    requires cfg.archiveFirst && AF.SystemOk(cfg, s) && WellFormedEvents(cfg, [e])
    requires r in s.world.tables.rows && r.status.Stored? && Calm(s, r.eventId)
    ensures var s' := Apply(cfg, s, e); (r in s'.world.tables.rows && Calm(s', r.eventId)) || Gone(s'.world.tables, r)
  {
    if e.Advance? && e.id in s.procs {
      match s.procs[e.id] {
        case Ingesting(q, pc) =>
          IngestSpares(cfg, s.world, q, pc, e.fault, r);
          IngestStaysCalm(cfg, s.world, q, pc, e.fault, r);
        case Retaining(through, limit, pc) =>
          if pc.Committing? && pc.confirmed != [] {
            CommitTakes(s.world.tables, pc.confirmed, Last(pc.confirmed), r);
          }
      }
    }
  }

  lemma EventLeavesGone(cfg: Config, s: System, e: Event, r: Row)
    requires TablesOk(s.world.tables) && Gone(s.world.tables, r)
    ensures Gone(Apply(cfg, s, e).world.tables, r)
  {
    if e.Advance? && e.id in s.procs {
      match s.procs[e.id] {
        case Ingesting(q, pc) => Window.IngestSlides(cfg, q, s.world, pc, e.fault);
        case Retaining(through, limit, pc) =>
      }
    }
  }

  lemma {:induction false} CalmRun(cfg: Config, s: System, events: seq<Event>, r: Row)
    requires cfg.archiveFirst && AF.SystemOk(cfg, s) && WellFormedEvents(cfg, events)
    requires r in s.world.tables.rows && r.status.Stored? && Calm(s, r.eventId)
    ensures var t := Run(cfg, s, events); (r in t.world.tables.rows && Calm(t, r.eventId)) || Gone(t.world.tables, r)
  {
    if events != [] {
      var init, last := events[..|events| - 1], events[|events| - 1];
      assert forall e | e in init :: e in events;
      assert last in events;
      CalmRun(cfg, s, init, r);
      AF.RunKeeps(cfg, s, init);
      var t := Run(cfg, s, init);
      if Gone(t.world.tables, r) {
        EventLeavesGone(cfg, t, last, r);
      } else {
        EventSpares(cfg, t, last, r);
      }
    }
  }

  /** A failing write leads to the log, and the log to `MarkFailed`, with the rows untouched. */
  lemma ThreatNears(cfg: Config, s: System, id: nat, e: EventId)
    requires cfg.archiveFirst && AF.SystemOk(cfg, s) && id in s.procs && Threatens(s.procs[id], e)
    requires !s.procs[id].pc.MarkingFailed?
    ensures var t := Apply(cfg, s, Advance(id, Fails));
            && AF.SystemOk(cfg, t) && t.world.tables == s.world.tables && id in t.procs && Threatens(t.procs[id], e)
            && (s.procs[id].pc.Logging? ==> t.procs[id].pc.MarkingFailed?)
            && (s.procs[id].pc.Writing? ==> t.procs[id].pc.Logging?)
  {
    AF.ApplyKeeps(cfg, s, Advance(id, Fails));
  }

  /** So the row can still be marked failed, by events of this one request. */
  lemma {:induction false} ThreatStrikes(cfg: Config, s: System, id: nat, r: Row) returns (events: seq<Event>)
    requires cfg.archiveFirst && AF.SystemOk(cfg, s) && id in s.procs && Threatens(s.procs[id], r.eventId)
    requires r in s.world.tables.rows && r.status.Stored?
    ensures forall e | e in events :: e.Advance?
    ensures var t := Run(cfg, s, events).world.tables; r !in t.rows && Sequential.HasId(t.rows, r.id)
    decreases if s.procs[id].pc.Writing? then 2 else if s.procs[id].pc.Logging? then 1 else 0
  {
    var rest: seq<Event> := [];
    var e := Advance(id, Works);
    if s.procs[id].pc.MarkingFailed? {
      assert Run(cfg, Apply(cfg, s, e), []) == Apply(cfg, s, e);
      FailedRow(s.world.tables, r);
    } else {
      e := Advance(id, Fails);
      ThreatNears(cfg, s, id, r.eventId);
      rest := ThreatStrikes(cfg, Apply(cfg, s, e), id, r);
    }
    events := [e] + rest;
    RunFirst(cfg, s, e, rest);
  }

  lemma FailedRow(t: Tables, r: Row)
    requires r in t.rows && r.status.Stored?
    ensures r !in SetFailed(t, r.eventId).rows && Sequential.HasId(SetFailed(t, r.eventId).rows, r.id)
  {
    UpdatedRow(t, r.eventId, Uri(GuardKey(r.eventId)), r);
    assert r.(status := Failed) in SetFailed(t, r.eventId).rows;
    if r in SetFailed(t, r.eventId).rows {
      var b := FailedRowOrigin(t, r.eventId, r);
    }
  }

  /** The row is as it was, or retention has taken it. */
  ghost predicate StaysThrough(cfg: Config, first: seq<Event>, later: seq<Event>, r: Row) {
    var t := Run(cfg, EMPTY_SYSTEM, first + later).world.tables;
    r in t.rows || !Sequential.HasId(t.rows, r.id)
  }

  /**
   After any run, a stored row stays as it is until retention takes it, through whatever may follow,
   exactly if no request of its event id is on its way to `MarkFailed` now.
   */
  lemma StoredStaysExactly(cfg: Config, first: seq<Event>, r: Row)
    requires cfg.archiveFirst && WellFormedEvents(cfg, first)
    requires r in Run(cfg, EMPTY_SYSTEM, first).world.tables.rows && r.status.Stored?
    ensures (forall later | WellFormedEvents(cfg, later) :: StaysThrough(cfg, first, later, r))
            <==> Calm(Run(cfg, EMPTY_SYSTEM, first), r.eventId)
  {
    var s := Run(cfg, EMPTY_SYSTEM, first);
    AF.RunKeeps(cfg, EMPTY_SYSTEM, first);
    if Calm(s, r.eventId) {
      forall later | WellFormedEvents(cfg, later)
        ensures StaysThrough(cfg, first, later, r)
      {
        CalmRun(cfg, s, later, r);
        RunAppend(cfg, EMPTY_SYSTEM, first, later);
      }
    } else {
      var id :| id in s.procs && Threatens(s.procs[id], r.eventId);
      var later := ThreatStrikes(cfg, s, id, r);
      RunAppend(cfg, EMPTY_SYSTEM, first, later);
      assert !StaysThrough(cfg, first, later, r);
    }
  }
}
