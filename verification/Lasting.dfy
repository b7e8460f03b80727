/**
 What an answer is worth ledger-first, whatever goes on at the same time: an acknowledged event has its
 final for good as long as no mark has hit other content before, and a stored row stays as it is until
 retention takes it exactly if no other request of its event id was already on a way to change it.
 */
module Lasting {
  import opened Wrappers
  import opened Faults
  import opened Requests
  import opened Storage
  import opened Ledger
  import opened LedgerFacts
  import opened Machine
  import opened System
  import opened Agreement
  import Acknowledged
  import LF = LedgerFirst
  import Repair
  import Sequential
  import Window

  /* ---------- Acknowledged means archived ---------- */

  /** The bytes of what was accepted are there, and a place given with a reported conflict holds other content. */
  ghost predicate OutcomeBacked(objects: Objects, q: Request, outcome: Outcome) {
    && Acknowledged.NamesOther(objects, q, outcome)
    && (Acknowledged.Positive(outcome) ==> outcome.eventId == q.eventId && LF.FinalHolds(objects, q))
  }

  ghost predicate Backed(objects: Objects, p: Process) {
    p.Ingesting? ==>
      match p.pc
      case Confirming => LF.FinalHolds(objects, p.q)
      case Logging(_, Done(outcome)) => OutcomeBacked(objects, p.q, outcome)
      case Done(outcome) => OutcomeBacked(objects, p.q, outcome)
      case _ => true
  }

  ghost predicate AllBacked(s: System) {
    forall id | id in s.procs :: Backed(s.world.objects, s.procs[id])
  }

  /** No event removes or replaces a final. */
  lemma EventKeepsFinals(cfg: Config, s: System, e: Event)
    ensures FinalsKept(s.world.objects, Apply(cfg, s, e).world.objects)
  {
  }

  lemma {:induction false} RunKeepsFinals(cfg: Config, s: System, events: seq<Event>)
    ensures FinalsKept(s.world.objects, Run(cfg, s, events).world.objects)
  {
    if events != [] {
      RunKeepsFinals(cfg, s, events[..|events| - 1]);
      EventKeepsFinals(cfg, Run(cfg, s, events[..|events| - 1]), events[|events| - 1]);
    }
  }

  /** What a row of the request's event id says about the archive. */
  lemma FoundRow(cfg: Config, w: World, q: Request, r: Row)
    requires CollisionFree(cfg) && LF.RowsOk(cfg, w) && WellFormed(cfg, q) && q.verified
    requires r in w.tables.rows && r.eventId == q.eventId
    ensures r.eventHash == q.eventHash ==> r.text == q.text
    ensures r.text == q.text ==> r.eventHash == q.eventHash && r.payloadHash == q.payloadHash
    ensures r.uri.Some? ==>
              var key := r.uri.value.key;
              && key.FinalKey? && key.eventId == q.eventId && key in w.objects && w.objects[key] == r.text
              && (r.text == q.text ==> key == q.finalKey)
  {
    assert LF.RowOk(cfg, w.objects, r);
  }

  lemma StepBacks(cfg: Config, w: World, q: Request, pc: Pc, fault: Fault)
    requires CollisionFree(cfg) && !cfg.archiveFirst && LF.RowsOk(cfg, w)
    requires LooseOk(cfg, w.objects, Ingesting(q, pc)) && Backed(w.objects, Ingesting(q, pc))
    ensures var (v, next) := IngestStep(cfg, q, w, pc, fault); Backed(v.objects, Ingesting(q, next))
  {
    var row := Find(w.tables.rows, q.eventId);
    if row.Some? && q.verified {
      FoundRow(cfg, w, q, row.value);
    }
  }

  lemma EventBacks(cfg: Config, s: System, e: Event)
    requires CollisionFree(cfg) && !cfg.archiveFirst && SystemLoose(cfg, s) && AllBacked(s)
    ensures AllBacked(Apply(cfg, s, e))
  {
    EventKeepsFinals(cfg, s, e);
    if e.Advance? && e.id in s.procs && s.procs[e.id].Ingesting? {
      StepBacks(cfg, s.world, s.procs[e.id].q, s.procs[e.id].pc, e.fault);
    }
  }

  ghost predicate MarksMeet(cfg: Config, events: seq<Event>) {
    forall n | 0 <= n < |events| :: MeetsAt(cfg, events, n)
  }

  lemma {:induction false} MomentsBacked(cfg: Config, events: seq<Event>, n: nat)
    requires CollisionFree(cfg) && !cfg.archiveFirst && WellFormedEvents(cfg, events) && MarksMeet(cfg, events)
    requires n <= |events|
    ensures AllBacked(At(cfg, events, n))
  {
    if n > 0 {
      MomentsBacked(cfg, events, n - 1);
      AgreesUpTo(cfg, events, n - 1);
      Window.RunSnoc(cfg, EMPTY_SYSTEM, events, n - 1);
      EventBacks(cfg, At(cfg, events, n - 1), events[n - 1]);
    }
  }

  /**
   Ledger-first, under any interleaving in which no mark has hit other content: once a request has been
   answered `stored` or `duplicate`, its final holds its bytes then and at every later moment, whatever
   comes after.
   */
  lemma AcknowledgedIsArchived(cfg: Config, first: seq<Event>, later: seq<Event>, id: nat)
    requires !cfg.archiveFirst && CollisionFree(cfg) && WellFormedEvents(cfg, first) && MarksMeet(cfg, first)
    requires id in Run(cfg, EMPTY_SYSTEM, first).procs
    requires Sequential.Acknowledges(Run(cfg, EMPTY_SYSTEM, first).procs[id])
    ensures Run(cfg, EMPTY_SYSTEM, first).procs[id].q.finalKey.FinalKey?
    ensures LF.FinalHolds(Run(cfg, EMPTY_SYSTEM, first + later).world.objects,
                          Run(cfg, EMPTY_SYSTEM, first).procs[id].q)
  {
    var s := Run(cfg, EMPTY_SYSTEM, first);
    MomentsBacked(cfg, first, |first|);
    assert first[..|first|] == first;
    AgreesUpTo(cfg, first, |first|);
    assert Backed(s.world.objects, s.procs[id]) && LooseOk(cfg, s.world.objects, s.procs[id]);
    RunKeepsFinals(cfg, s, later);
    RunAppend(cfg, EMPTY_SYSTEM, first, later);
  }

  /**
   And what is answered holds then and at every later moment: the event id is the request's, and a URI that
   comes with a conflict holds other content of that event id.
   */
  lemma AnswersHold(cfg: Config, first: seq<Event>, later: seq<Event>, id: nat)
    requires !cfg.archiveFirst && CollisionFree(cfg) && WellFormedEvents(cfg, first) && MarksMeet(cfg, first)
    requires id in Run(cfg, EMPTY_SYSTEM, first).procs
    requires Run(cfg, EMPTY_SYSTEM, first).procs[id].Ingesting? && Run(cfg, EMPTY_SYSTEM, first).procs[id].pc.Done?
    ensures var p := Run(cfg, EMPTY_SYSTEM, first).procs[id];
            OutcomeBacked(Run(cfg, EMPTY_SYSTEM, first + later).world.objects, p.q, p.pc.outcome)
  {
    var s := Run(cfg, EMPTY_SYSTEM, first);
    MomentsBacked(cfg, first, |first|);
    assert first[..|first|] == first;
    AgreesUpTo(cfg, first, |first|);
    assert Backed(s.world.objects, s.procs[id]) && LooseOk(cfg, s.world.objects, s.procs[id]);
    RunKeepsFinals(cfg, s, later);
    RunAppend(cfg, EMPTY_SYSTEM, first, later);
  }

  /** A request that still has its claim marks its own row. */
  lemma ClaimMeets(cfg: Config, s: System, e: Event)
    requires LF.SystemOk(cfg, s) || Agreement.SystemOk(cfg, s)
    ensures MarkMeets(s, e)
  {
  }

  /** Without retention every mark meets the row its request claimed. */
  lemma MarksMeetWithoutRetention(cfg: Config, events: seq<Event>)
    requires !cfg.archiveFirst && CollisionFree(cfg) && WellFormedEvents(cfg, events) && LF.NoRetention(events)
    ensures MarksMeet(cfg, events)
  {
    forall n | 0 <= n < |events|
      ensures MeetsAt(cfg, events, n)
    {
      assert forall e | e in events[..n] :: e in events;
      LF.RunKeeps(cfg, EMPTY_SYSTEM, events[..n]);
      ClaimMeets(cfg, At(cfg, events, n), events[n]);
    }
  }

  lemma MeetsApart(cfg: Config, events: seq<Event>, n: nat)
    requires !cfg.archiveFirst && CollisionFree(cfg) && WellFormedEvents(cfg, events)
    requires NeverOverlap(cfg, EMPTY_SYSTEM, events) && n < |events|
    ensures MeetsAt(cfg, events, n)
  {
    var init := events[..n];
    forall k | 0 <= k <= |init|
      ensures Apart(Run(cfg, EMPTY_SYSTEM, init[..k]))
    {
      assert init[..k] == events[..k];
    }
    assert forall e | e in init :: e in events;
    Agreement.RunKeeps(cfg, EMPTY_SYSTEM, init);
    ClaimMeets(cfg, At(cfg, events, n), events[n]);
  }

  /** And so it does as long as retention and ingest do not overlap. */
  lemma MarksMeetApart(cfg: Config, events: seq<Event>)
    requires !cfg.archiveFirst && CollisionFree(cfg) && WellFormedEvents(cfg, events)
    requires NeverOverlap(cfg, EMPTY_SYSTEM, events)
    ensures MarksMeet(cfg, events)
  {
    forall n | 0 <= n < |events|
      ensures MeetsAt(cfg, events, n)
    {
      MeetsApart(cfg, events, n);
    }
  }

  /* ---------- Exactly when answers are right ---------- */

  /** A fault-free request made in these stores that is answered `stored` or `duplicate` is told where its bytes are. */
  ghost predicate AnsweredRight(cfg: Config, w: World, q: Request) {
    var (end, outcome) := Repair.Finish(cfg, w, q, Looking);
    Acknowledged.Positive(outcome) ==>
      && outcome.uri.Some? && outcome.uri.value.key in end.objects
      && end.objects[outcome.uri.value.key] == q.text
  }

  ghost predicate RightAt(cfg: Config, events: seq<Event>, n: nat)
    requires n <= |events|
  {
    forall q | WellFormed(cfg, q) && q.verified :: AnsweredRight(cfg, At(cfg, events, n).world, q)
  }

  ghost predicate OutcomeRight(objects: Objects, q: Request, outcome: Outcome) {
    Acknowledged.Positive(outcome) ==> outcome.uri == Some(Uri(q.finalKey)) && LF.FinalHolds(objects, q)
  }

  /** On the way to a right answer. */
  ghost predicate PcRight(w: World, q: Request, pc: Pc) {
    match pc
    case Confirming =>
      && LF.FinalHolds(w.objects, q)
      && forall r | r in w.tables.rows && r.eventId == q.eventId :: r.uri == Some(Uri(q.finalKey))
    case Logging(_, Done(outcome)) => OutcomeRight(w.objects, q, outcome)
    case Done(outcome) => OutcomeRight(w.objects, q, outcome)
    case _ => true
  }

  lemma LookupRight(cfg: Config, w: World, q: Request)
    requires !cfg.archiveFirst && CollisionFree(cfg) && LF.RowsOk(cfg, w) && WellFormed(cfg, q) && q.verified
    ensures PcRight(w, q, IngestStep(cfg, q, w, Looking, Works).1)
  {
  }

  lemma MarkRight(cfg: Config, w: World, q: Request, uri: Uri)
    requires LF.LedgerPcOk(w, q, Marking(uri))
    ensures var (v, next) := IngestStep(cfg, q, w, Marking(uri), Works); PcRight(v, q, next)
  {
  }

  lemma StepRight(cfg: Config, w: World, q: Request, pc: Pc)
    requires !cfg.archiveFirst && CollisionFree(cfg) && LF.RowsOk(cfg, w)
    requires Agreement.ProcessOk(cfg, w, Ingesting(q, pc)) && PcRight(w, q, pc)
    ensures var (v, next) := IngestStep(cfg, q, w, pc, Works); PcRight(v, q, next)
  {
    match pc {
      case Looking => LookupRight(cfg, w, q);
      case Marking(uri) => MarkRight(cfg, w, q, uri);
      case _ =>
    }
  }

  lemma {:induction false} FinishRight(cfg: Config, w: World, q: Request, pc: Pc)
    requires !cfg.archiveFirst && CollisionFree(cfg) && LF.RowsOk(cfg, w)
    requires Agreement.ProcessOk(cfg, w, Ingesting(q, pc)) && PcRight(w, q, pc)
    ensures var (end, outcome) := Repair.Finish(cfg, w, q, pc); OutcomeRight(end.objects, q, outcome)
    decreases Rank(pc)
  {
    if !pc.Done? {
      StepDescends(cfg, q, w, pc, Works);
      Agreement.IngestStepKeeps(cfg, q, w, pc, Works);
      StepRight(cfg, w, q, pc);
      var (v, next) := IngestStep(cfg, q, w, pc, Works);
      FinishRight(cfg, v, q, next);
    }
  }

  /** Where a mark has hit other content, that content is acknowledged with a URI that holds something else. */
  lemma WrongAnswer(cfg: Config, w: World, x: Request)
    requires !cfg.archiveFirst && LF.RowsOk(cfg, w) && WellFormed(cfg, x) && LF.FinalHolds(w.objects, x)
    requires var row := Find(w.tables.rows, x.eventId); row.Some? && row.value.text != x.text
    ensures var q := cfg.read(Find(w.tables.rows, x.eventId).value.text);
            && q.Some? && WellFormed(cfg, q.value) && q.value.verified
            && !AnsweredRight(cfg, w.(tables := SetStored(w.tables, x.eventId, Uri(x.finalKey))), q.value)
  {
    var row := Find(w.tables.rows, x.eventId).value;
    assert LF.RowOk(cfg, w.objects, row);
    var t := SetStored(w.tables, x.eventId, Uri(x.finalKey));
    UpdatesKeepTables(w.tables, x.eventId, Uri(x.finalKey));
    UpdatedRow(w.tables, x.eventId, Uri(x.finalKey), row);
    FindUnique(t.rows, StoredRow(row, Uri(x.finalKey)));
    Repair.StoredRowAnswers(cfg, w.(tables := t), cfg.read(row.text).value, StoredRow(row, Uri(x.finalKey)));
  }

  lemma MeetsNext(cfg: Config, events: seq<Event>, n: nat)
    requires !cfg.archiveFirst && WellFormedEvents(cfg, events) && n < |events| && RightAt(cfg, events, n + 1)
    requires SystemLoose(cfg, At(cfg, events, n))
    ensures MeetsAt(cfg, events, n)
  {
    var s, e := At(cfg, events, n), events[n];
    if !MarkMeets(s, e) {
      Window.RunSnoc(cfg, EMPTY_SYSTEM, events, n);
      WrongAnswer(cfg, s.world, s.procs[e.id].q);
    }
  }

  lemma {:induction false} MeetsUpTo(cfg: Config, events: seq<Event>, n: nat)
    requires !cfg.archiveFirst && WellFormedEvents(cfg, events) && n <= |events|
    requires forall k | 0 <= k <= |events| :: RightAt(cfg, events, k)
    ensures forall k | 0 <= k < n :: MeetsAt(cfg, events, k)
  {
    if n > 0 {
      MeetsUpTo(cfg, events, n - 1);
      AgreesUpTo(cfg, events, n - 1);
      MeetsNext(cfg, events, n - 1);
    }
  }

  /**
   Any ledger-first run, retention and ingests overlapping as they please: at every moment whoever sends an
   event without a fault and is answered `stored` or `duplicate` is told a URI where its bytes are, exactly if
   no mark in the run hits other content.
   */
  lemma AnswersAreRightExactly(cfg: Config, events: seq<Event>)
    requires !cfg.archiveFirst && CollisionFree(cfg) && WellFormedEvents(cfg, events)
    ensures (forall n | 0 <= n <= |events| :: RightAt(cfg, events, n)) <==> MarksMeet(cfg, events)
  {
    if forall n | 0 <= n <= |events| :: RightAt(cfg, events, n) {
      MeetsUpTo(cfg, events, |events|);
    }
    if MarksMeet(cfg, events) {
      forall n | 0 <= n <= |events|
        ensures RightAt(cfg, events, n)
      {
        AgreesUpTo(cfg, events, n);
        forall q | WellFormed(cfg, q) && q.verified
          ensures AnsweredRight(cfg, At(cfg, events, n).world, q)
        {
          FinishRight(cfg, At(cfg, events, n).world, q, Looking);
        }
      }
    }
  }

  /* ---------- A stored row, exactly when it stays ---------- */

  /** A storage call that will return, and not with other content in its way. */
  ghost predicate StoreShape(pc: StorePc) {
    match pc
    case Check(_, _) => true
    case Link(_, _) => true
    case Recheck(_, _) => true
    case RollbackCheck(result) => !result.Written?
    case RollbackRemove(result) => !result.Written?
    case Naming => true
    case _ => false
  }

  /** The shape of a ledger-first request. */
  ghost predicate Shape(p: Process) {
    p.Ingesting? ==>
      match p.pc
      case Writing(markFailed, store) => markFailed && StoreShape(store)
      case Creating(uri) => uri.None?
      case Rereading(uri) => uri.None?
      case Logging(_, next) => next.Done? || next.MarkingFailed?
      case _ => true
  }

  ghost predicate Sound(t: Tables) {
    TablesOk(t) && forall r | r in t.rows && r.status.Stored? :: r.uri.Some?
  }

  ghost predicate SystemShape(s: System) {
    Sound(s.world.tables) && forall id | id in s.procs :: Shape(s.procs[id])
  }

  /** Its end is settled: the write meets other content, whatever becomes of the rollback. */
  predicate Conflicted(store: StorePc) {
    (store.RollbackCheck? || store.RollbackRemove?) && store.result.Conflicting?
  }

  /**
   On a way to change the row: to `MarkFailed` should its next call fail, or to a mark with another URI.
   After its own INSERT a request writes without a look at the status of the row, if the event hash is its own.
   */
  ghost predicate Threatens(p: Process, r: Row) {
    p.Ingesting? && p.q.eventId == r.eventId &&
    match p.pc
    case Creating(_) => p.q.eventHash == r.eventHash
    case Rereading(_) => p.q.eventHash == r.eventHash
    case Writing(_, store) => !Conflicted(store)
    case Marking(uri) => r.uri != Some(uri)
    case MarkingFailed => true
    case Logging(_, next) => next.MarkingFailed?
    case _ => false
  }

  ghost predicate Calm(s: System, r: Row) {
    forall id | id in s.procs :: !Threatens(s.procs[id], r)
  }

  lemma StepShapes(cfg: Config, q: Request, w: World, pc: Pc, fault: Fault)
    requires !cfg.archiveFirst && Shape(Ingesting(q, pc))
    ensures Shape(Ingesting(q, IngestStep(cfg, q, w, pc, fault).1))
  {
  }

  lemma UpdatesSound(t: Tables, e: EventId, uri: Uri)
    requires Sound(t)
    ensures Sound(SetStored(t, e, uri)) && Sound(SetFailed(t, e))
  {
  }

  lemma StepSound(cfg: Config, q: Request, w: World, pc: Pc, fault: Fault)
    requires Sound(w.tables)
    ensures Sound(IngestStep(cfg, q, w, pc, fault).0.tables)
  {
    match pc {
      case Creating(_) => CreateKeepsTables(w.tables, q);
      case Marking(uri) => UpdatesSound(w.tables, q.eventId, uri);
      case MarkingFailed => UpdatesSound(w.tables, q.eventId, Uri(q.finalKey));
      case _ =>
    }
  }

  lemma EventShapes(cfg: Config, s: System, e: Event)
    requires !cfg.archiveFirst && SystemShape(s)
    ensures SystemShape(Apply(cfg, s, e))
  {
    if e.Advance? && e.id in s.procs {
      match s.procs[e.id] {
        case Ingesting(q, pc) =>
          StepShapes(cfg, q, s.world, pc, e.fault);
          StepSound(cfg, q, s.world, pc, e.fault);
        case Retaining(through, limit, pc) =>
          if pc.Committing? && pc.confirmed != [] {
            RetainKeepsTables(s.world.tables, pc.confirmed, Last(pc.confirmed));
          }
      }
    }
  }

  lemma {:induction false} RunShapes(cfg: Config, s: System, events: seq<Event>)
    requires !cfg.archiveFirst && SystemShape(s)
    ensures SystemShape(Run(cfg, s, events))
  {
    if events != [] {
      RunShapes(cfg, s, events[..|events| - 1]);
      EventShapes(cfg, Run(cfg, s, events[..|events| - 1]), events[|events| - 1]);
    }
  }

  lemma IngestSpares(cfg: Config, w: World, q: Request, pc: Pc, fault: Fault, r: Row)
    requires r in w.tables.rows && r.status.Stored? && !Threatens(Ingesting(q, pc), r)
    ensures r in IngestStep(cfg, q, w, pc, fault).0.tables.rows
  {
    match pc {
      case Marking(uri) => UpdatedRow(w.tables, q.eventId, uri, r);
      case MarkingFailed => UpdatedRow(w.tables, q.eventId, Uri(q.finalKey), r);
      case _ =>
    }
  }

  /** A request that meets the stored row ends as a duplicate or a conflict, never in another write. */
  lemma IngestStaysCalm(cfg: Config, w: World, q: Request, pc: Pc, fault: Fault, r: Row)
    requires !cfg.archiveFirst && Sound(w.tables) && Shape(Ingesting(q, pc))
    requires r in w.tables.rows && r.status.Stored? && !Threatens(Ingesting(q, pc), r)
    ensures !Threatens(Ingesting(q, IngestStep(cfg, q, w, pc, fault).1), r)
  {
  }

  lemma EventSpares(cfg: Config, s: System, e: Event, r: Row)
    requires !cfg.archiveFirst && SystemShape(s) && r in s.world.tables.rows && r.status.Stored? && Calm(s, r)
    ensures var s' := Apply(cfg, s, e);
            (r in s'.world.tables.rows && Calm(s', r)) || Acknowledged.Gone(s'.world.tables, r)
  {
    if e.Advance? && e.id in s.procs {
      match s.procs[e.id] {
        case Ingesting(q, pc) =>
          IngestSpares(cfg, s.world, q, pc, e.fault, r);
          IngestStaysCalm(cfg, s.world, q, pc, e.fault, r);
        case Retaining(through, limit, pc) =>
          if pc.Committing? && pc.confirmed != [] {
            Acknowledged.CommitTakes(s.world.tables, pc.confirmed, Last(pc.confirmed), r);
          }
      }
    }
  }

  lemma {:induction false} CalmRun(cfg: Config, s: System, events: seq<Event>, r: Row)
    requires !cfg.archiveFirst && SystemShape(s) && r in s.world.tables.rows && r.status.Stored? && Calm(s, r)
    ensures var t := Run(cfg, s, events);
            (r in t.world.tables.rows && Calm(t, r)) || Acknowledged.Gone(t.world.tables, r)
  {
    if events != [] {
      var init, last := events[..|events| - 1], events[|events| - 1];
      CalmRun(cfg, s, init, r);
      RunShapes(cfg, s, init);
      var t := Run(cfg, s, init);
      if Acknowledged.Gone(t.world.tables, r) {
        Acknowledged.EventLeavesGone(cfg, t, last, r);
      } else {
        EventSpares(cfg, t, last, r);
      }
    }
  }

  /** What the request's next call needs to bring it closer to changing the row. */
  function Push(pc: Pc): Fault {
    if pc.Writing? || pc.Logging? then Fails else Works
  }

  ghost predicate Strikes(pc: Pc) {
    pc.Marking? || pc.MarkingFailed?
  }

  lemma ThreatNears(cfg: Config, w: World, q: Request, pc: Pc, r: Row)
    requires !cfg.archiveFirst && Sound(w.tables) && Shape(Ingesting(q, pc))
    requires r in w.tables.rows && r.status.Stored? && Threatens(Ingesting(q, pc), r) && !Strikes(pc)
    ensures var (v, next) := IngestStep(cfg, q, w, pc, Push(pc));
            v.tables.rows == w.tables.rows && Threatens(Ingesting(q, next), r) && Rank(next) < Rank(pc)
  {
  }

  lemma Changed(t: Tables, e: EventId, uri: Uri, r: Row)
    requires r in t.rows && r.status.Stored? && r.eventId == e
    ensures r.uri != Some(uri) ==> r !in SetStored(t, e, uri).rows && Sequential.HasId(SetStored(t, e, uri).rows, r.id)
    ensures r !in SetFailed(t, e).rows && Sequential.HasId(SetFailed(t, e).rows, r.id)
  {
    UpdatedRow(t, e, uri, r);
    if r in SetStored(t, e, uri).rows {
      var b := StoredRowOrigin(t, e, uri, r);
    }
    Acknowledged.FailedRow(t, r);
    assert StoredRow(r, uri) in SetStored(t, e, uri).rows;
  }

  /** So the row can still be changed, by events of this one request. */
  lemma {:induction false} ThreatStrikes(cfg: Config, s: System, id: nat, r: Row) returns (events: seq<Event>)
    requires !cfg.archiveFirst && SystemShape(s) && id in s.procs && Threatens(s.procs[id], r)
    requires r in s.world.tables.rows && r.status.Stored?
    ensures forall e | e in events :: e.Advance?
    ensures var t := Run(cfg, s, events).world.tables; r !in t.rows && Sequential.HasId(t.rows, r.id)
    decreases Rank(s.procs[id].pc)
  {
    var q, pc := s.procs[id].q, s.procs[id].pc;
    var e := Advance(id, Push(pc));
    var rest: seq<Event> := [];
    if Strikes(pc) {
      assert Run(cfg, Apply(cfg, s, e), []) == Apply(cfg, s, e);
      Changed(s.world.tables, q.eventId, if pc.Marking? then pc.written else Uri(q.finalKey), r);
    } else {
      ThreatNears(cfg, s.world, q, pc, r);
      EventShapes(cfg, s, e);
      rest := ThreatStrikes(cfg, Apply(cfg, s, e), id, r);
    }
    events := [e] + rest;
    RunFirst(cfg, s, e, rest);
  }

  /**
   Ledger-first, after any run: a stored row stays as it is until retention takes it, through whatever may
   follow, exactly if no request of its event id is on a way to change it now.
   */
  lemma StoredStaysExactly(cfg: Config, first: seq<Event>, r: Row)
    requires !cfg.archiveFirst && r in Run(cfg, EMPTY_SYSTEM, first).world.tables.rows && r.status.Stored?
    ensures (forall later | WellFormedEvents(cfg, later) :: Acknowledged.StaysThrough(cfg, first, later, r))
            <==> Calm(Run(cfg, EMPTY_SYSTEM, first), r)
  {
    var s := Run(cfg, EMPTY_SYSTEM, first);
    RunShapes(cfg, EMPTY_SYSTEM, first);
    if Calm(s, r) {
      forall later | WellFormedEvents(cfg, later)
        ensures Acknowledged.StaysThrough(cfg, first, later, r)
      {
        CalmRun(cfg, s, later, r);
        RunAppend(cfg, EMPTY_SYSTEM, first, later);
      }
    } else {
      var id :| id in s.procs && Threatens(s.procs[id], r);
      var later := ThreatStrikes(cfg, s, id, r);
      RunAppend(cfg, EMPTY_SYSTEM, first, later);
      assert !Acknowledged.StaysThrough(cfg, first, later, r);
    }
  }
}
