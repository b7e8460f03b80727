/**
 Ledger-first safety over every interleaving without retention: the unique row is the claim on an
 event id. Guards may come and go with rollbacks, but nothing is ever archived for an event id
 except the exact text of its row, and a stored row has its final object for good.
 */
module LedgerFirst {
  import opened Faults
  import opened Requests
  import opened Storage
  import opened Ledger
  import opened LedgerFacts
  import opened Machine
  import opened System

  /** The row of the request's event id carries the request's text. */
  ghost predicate Claimed(t: Tables, q: Request) {
    var row := Find(t.rows, q.eventId);
    row.Some? && row.value.text == q.text
  }

  ghost predicate FinalHolds(objects: Objects, q: Request) {
    q.finalKey in objects && objects[q.finalKey] == q.text
  }

  ghost predicate ObjectOk(cfg: Config, w: World, key: Key)
    requires key in w.objects
  {
    var q := cfg.read(w.objects[key]);
    && q.Some? && q.value.text == w.objects[key] && WellFormed(cfg, q.value)
    && (key == GuardKey(q.value.eventId) || key == q.value.finalKey)
    && Claimed(w.tables, q.value)
  }

  ghost predicate RowOk(cfg: Config, objects: Objects, r: Row) {
    RowFaithful(cfg, r) && (r.uri.Some? ==> FinalHolds(objects, cfg.read(r.text).value))
  }

  ghost predicate RowsOk(cfg: Config, w: World) {
    TablesOk(w.tables) && forall r | r in w.tables.rows :: RowOk(cfg, w.objects, r)
  }

  ghost predicate WorldOk(cfg: Config, w: World) {
    RowsOk(cfg, w) && forall k | k in w.objects :: ObjectOk(cfg, w, k)
  }

  /** The claim keeps every write free of conflicts, whoever else is writing the same text. */
  ghost predicate ClaimantOk(objects: Objects, q: Request, pc: StorePc) {
    match pc
    case Put(_) => false
    case Get(_) => false
    case RollbackCheck(result) => result.Unavailable?
    case RollbackRemove(result) => result.Unavailable?
    case Naming => FinalHolds(objects, q)
    case Returned(Written(uri)) => uri == Uri(q.finalKey) && FinalHolds(objects, q)
    case Returned(result) => result.Unavailable?
    case _ => true
  }

  ghost predicate PcOk(w: World, q: Request, pc: Pc) {
    if pc.Writing? then pc.markFailed && Claimed(w.tables, q) && ClaimantOk(w.objects, q, pc.store)
    else LedgerPcOk(w, q, pc)
  }

  /** What a request knows when its next call is to the ledger. */
  ghost predicate LedgerPcOk(w: World, q: Request, pc: Pc) {
    match pc
    case Creating(uri) => uri.None?
    case Rereading(uri) => uri.None?
    case Marking(uri) => uri == Uri(q.finalKey) && Claimed(w.tables, q) && FinalHolds(w.objects, q)
    case Logging(_, next) => next.Done? || next.MarkingFailed?
    case _ => true
  }

  ghost predicate ProcessOk(cfg: Config, w: World, p: Process) {
    p.Ingesting? && WellFormed(cfg, p.q) && (p.q.verified || p.pc.Done?) && PcOk(w, p.q, p.pc)
  }

  ghost predicate SystemOk(cfg: Config, s: System) {
    && WorldOk(cfg, s.world)
    && (forall id | id in s.procs :: ProcessOk(cfg, s.world, s.procs[id]))
  }

  /** Finals are never replaced or removed, and a claimed event id keeps its text. */
  ghost predicate Preserves(before: World, after: World) {
    && (forall k | k in before.objects && k.FinalKey? :: k in after.objects && after.objects[k] == before.objects[k])
    && (forall e | Find(before.tables.rows, e).Some? ::
          && Find(after.tables.rows, e).Some?
          && Find(after.tables.rows, e).value.text == Find(before.tables.rows, e).value.text)
  }

  ghost predicate NoRetention(events: seq<Event>) {
    forall e | e in events :: !e.Schedule?
  }

  lemma UpdatesSettle(t: Tables, eventId: EventId, uri: Uri, e: EventId)
    requires TablesOk(t) && Find(t.rows, e).Some?
    ensures Find(SetStored(t, eventId, uri).rows, e).Some?
    ensures Find(SetStored(t, eventId, uri).rows, e).value.text == Find(t.rows, e).value.text
    ensures Find(SetFailed(t, eventId).rows, e).Some?
    ensures Find(SetFailed(t, eventId).rows, e).value.text == Find(t.rows, e).value.text
  {
    var b := Find(t.rows, e).value;
    UpdatedRow(t, eventId, uri, b);
    UpdatesKeepTables(t, eventId, uri);
    FindUnique(SetStored(t, eventId, uri).rows, if b.eventId == eventId then StoredRow(b, uri) else b);
    FindUnique(SetFailed(t, eventId).rows, if b.eventId == eventId then b.(status := Failed) else b);
  }

  lemma CreateSettles(t: Tables, q: Request, e: EventId)
    requires TablesOk(t)
    ensures Find(t.rows, e).Some? ==> Find(Create(t, q).rows, e) == Find(t.rows, e)
    ensures Find(Create(t, q).rows, q.eventId).Some?
  {
  }

  /** A verified request that meets a row with its event hash meets its own text. */
  lemma SameHash(cfg: Config, q: Request, r: Row)
    requires CollisionFree(cfg) && RowFaithful(cfg, r) && WellFormed(cfg, q) && q.verified
    requires r.eventHash == q.eventHash
    ensures r.text == q.text
  {
  }

  /** What the archive holds under a claimed event id is the claimed text. */
  lemma ClaimedContent(cfg: Config, w: World, q: Request, k: Key)
    requires WorldOk(cfg, w) && Claimed(w.tables, q) && k in w.objects && k.eventId == q.eventId
    ensures w.objects[k] == q.text
  {
  }

  /** Where both keys of a request hold nothing but its text, no write of it meets a conflict. */
  lemma NextStoreOk(q: Request, objects: Objects, pc: StorePc, fault: Fault)
    requires ClaimantOk(objects, q, pc) && q.finalKey.FinalKey?
    requires GuardKey(q.eventId) in objects ==> objects[GuardKey(q.eventId)] == q.text
    requires q.finalKey in objects ==> objects[q.finalKey] == q.text
    ensures ClaimantOk(StoreStep(q, objects, pc, fault).0, q, StoreStep(q, objects, pc, fault).1)
  {
  }

  /** New objects carry the request's text at its own keys, and no final is touched. */
  ghost predicate OnlyWrites(q: Request, before: Objects, after: Objects) {
    && (forall k | k in after ::
          || (k in before && after[k] == before[k])
          || (after[k] == q.text && (k == GuardKey(q.eventId) || k == q.finalKey)))
    && (forall k | k in before && k.FinalKey? :: k in after && after[k] == before[k])
  }

  lemma StoreEffect(q: Request, objects: Objects, pc: StorePc, fault: Fault)
    requires ClaimantOk(objects, q, pc)
    ensures OnlyWrites(q, objects, StoreStep(q, objects, pc, fault).0)
  {
  }

  lemma StoreStepKeeps(cfg: Config, q: Request, w: World, pc: StorePc, fault: Fault)
    requires WorldOk(cfg, w) && WellFormed(cfg, q) && Claimed(w.tables, q) && ClaimantOk(w.objects, q, pc)
    ensures var (after, next) := StoreStep(q, w.objects, pc, fault);
            Preserves(w, w.(objects := after)) && WorldOk(cfg, w.(objects := after)) && ClaimantOk(after, q, next)
  {
    var after := StoreStep(q, w.objects, pc, fault).0;
    forall k | k in w.objects && k.eventId == q.eventId
      ensures w.objects[k] == q.text
    {
      ClaimedContent(cfg, w, q, k);
    }
    NextStoreOk(q, w.objects, pc, fault);
    StoreEffect(q, w.objects, pc, fault);
    ObjectsChangeKeeps(cfg, q, w, after);
  }

  lemma ObjectsChangeKeeps(cfg: Config, q: Request, w: World, after: Objects)
    requires WorldOk(cfg, w) && WellFormed(cfg, q) && Claimed(w.tables, q)
    requires OnlyWrites(q, w.objects, after)
    ensures Preserves(w, w.(objects := after)) && WorldOk(cfg, w.(objects := after))
  {
  }

  lemma NextPcOk(cfg: Config, q: Request, w: World, pc: Pc, fault: Fault)
    requires !cfg.archiveFirst && CollisionFree(cfg)
    requires WorldOk(cfg, w) && ProcessOk(cfg, w, Ingesting(q, pc)) && !pc.Writing?
    ensures ProcessOk(cfg, w, Ingesting(q, IngestStep(cfg, q, w, pc, fault).1))
  {
    var found := Find(w.tables.rows, q.eventId);
    if found.Some? && found.value.eventHash == q.eventHash && q.verified {
      assert RowOk(cfg, w.objects, found.value);
      SameHash(cfg, q, found.value);
    }
  }

  lemma CreateKeeps(cfg: Config, q: Request, w: World)
    requires RowsOk(cfg, w) && WellFormed(cfg, q) && q.verified
    ensures var w' := w.(tables := Create(w.tables, q)); RowsOk(cfg, w') && Preserves(w, w')
  {
    var after := Create(w.tables, q);
    CreateKeepsTables(w.tables, q);
    forall e | Find(w.tables.rows, e).Some?
      ensures Find(after.rows, e) == Find(w.tables.rows, e)
    {
      CreateSettles(w.tables, q, e);
    }
    assert RowOk(cfg, w.objects, NewRow(w.tables.nextId, q));
  }

  lemma SetFailedKeeps(cfg: Config, q: Request, w: World)
    requires RowsOk(cfg, w)
    ensures var w' := w.(tables := SetFailed(w.tables, q.eventId)); RowsOk(cfg, w') && Preserves(w, w')
  {
    var after := SetFailed(w.tables, q.eventId);
    UpdatesKeepTables(w.tables, q.eventId, Uri(q.finalKey));
    forall e | Find(w.tables.rows, e).Some?
      ensures Find(after.rows, e).Some? && Find(after.rows, e).value.text == Find(w.tables.rows, e).value.text
    {
      UpdatesSettle(w.tables, q.eventId, Uri(q.finalKey), e);
    }
    forall r | r in after.rows
      ensures RowOk(cfg, w.objects, r)
    {
      var b := FailedRowOrigin(w.tables, q.eventId, r);
      assert RowOk(cfg, w.objects, b);
    }
  }

  lemma SetStoredKeepsRows(cfg: Config, q: Request, w: World)
    requires RowsOk(cfg, w) && WellFormed(cfg, q) && Claimed(w.tables, q) && FinalHolds(w.objects, q)
    ensures RowsOk(cfg, w.(tables := SetStored(w.tables, q.eventId, Uri(q.finalKey))))
  {
    var uri := Uri(q.finalKey);
    UpdatesKeepTables(w.tables, q.eventId, uri);
    forall r | r in SetStored(w.tables, q.eventId, uri).rows
      ensures RowOk(cfg, w.objects, r)
    {
      var b := StoredRowOrigin(w.tables, q.eventId, uri, r);
      FindUnique(w.tables.rows, b);
      assert RowOk(cfg, w.objects, b);
    }
  }

  lemma SetStoredKeeps(cfg: Config, q: Request, w: World)
    requires RowsOk(cfg, w) && WellFormed(cfg, q) && Claimed(w.tables, q) && FinalHolds(w.objects, q)
    ensures var w' := w.(tables := SetStored(w.tables, q.eventId, Uri(q.finalKey))); RowsOk(cfg, w') && Preserves(w, w')
  {
    var uri := Uri(q.finalKey);
    SetStoredKeepsRows(cfg, q, w);
    forall e | Find(w.tables.rows, e).Some?
      ensures var found := Find(SetStored(w.tables, q.eventId, uri).rows, e);
              found.Some? && found.value.text == Find(w.tables.rows, e).value.text
    {
      UpdatesSettle(w.tables, q.eventId, uri, e);
    }
  }

  /** Every ledger call keeps the rows sound and every claim in place. */
  lemma LedgerStepKeeps(cfg: Config, q: Request, w: World, pc: Pc, fault: Fault)
    requires RowsOk(cfg, w) && WellFormed(cfg, q) && (q.verified || pc.Done?) && !pc.Writing? && LedgerPcOk(w, q, pc)
    ensures var (w', _) := IngestStep(cfg, q, w, pc, fault);
            RowsOk(cfg, w') && Preserves(w, w') && w'.objects == w.objects
  {
    if fault.TakesEffect() {
      match pc {
        case Creating(_) => CreateKeeps(cfg, q, w);
        case Marking(uri) => SetStoredKeeps(cfg, q, w);
        case MarkingFailed => SetFailedKeeps(cfg, q, w);
        case _ =>
      }
    }
  }

  lemma SettledKeepsObjects(cfg: Config, w: World, w': World)
    requires WorldOk(cfg, w) && RowsOk(cfg, w') && Preserves(w, w') && w'.objects == w.objects
    ensures WorldOk(cfg, w')
  {
  }

  lemma SettledKeepsProcess(cfg: Config, before: World, after: World, p: Process)
    requires Preserves(before, after) && ProcessOk(cfg, before, p)
    ensures ProcessOk(cfg, after, p)
  {
  }

  lemma IngestStepKeeps(cfg: Config, q: Request, w: World, pc: Pc, fault: Fault)
    requires !cfg.archiveFirst && CollisionFree(cfg) && WorldOk(cfg, w) && ProcessOk(cfg, w, Ingesting(q, pc))
    ensures var (w', pc') := IngestStep(cfg, q, w, pc, fault);
            WorldOk(cfg, w') && ProcessOk(cfg, w', Ingesting(q, pc')) && Preserves(w, w')
  {
    var (w', pc') := IngestStep(cfg, q, w, pc, fault);
    if pc.Writing? {
      StoreStepKeeps(cfg, q, w, pc.store, fault);
    } else {
      NextPcOk(cfg, q, w, pc, fault);
      LedgerStepKeeps(cfg, q, w, pc, fault);
      SettledKeepsObjects(cfg, w, w');
      SettledKeepsProcess(cfg, w, w', Ingesting(q, pc'));
    }
  }

  lemma ApplyKeeps(cfg: Config, s: System, e: Event)
    requires !cfg.archiveFirst && CollisionFree(cfg) && SystemOk(cfg, s)
    requires WellFormedEvents(cfg, [e]) && !e.Schedule?
    ensures SystemOk(cfg, Apply(cfg, s, e)) && Preserves(s.world, Apply(cfg, s, e).world)
  {
    var s' := Apply(cfg, s, e);
    match e {
      case Arrive(id, q) => assert e in [e];
      case Advance(id, fault) =>
        if id in s.procs {
          var p := s.procs[id];
          IngestStepKeeps(cfg, p.q, s.world, p.pc, fault);
          forall other | other in s'.procs
            ensures ProcessOk(cfg, s'.world, s'.procs[other])
          {
            if other != id {
              SettledKeepsProcess(cfg, s.world, s'.world, s.procs[other]);
            }
          }
        }
      case Die(_) =>
    }
  }

  lemma {:induction false} RunKeeps(cfg: Config, s: System, events: seq<Event>)
    requires !cfg.archiveFirst && CollisionFree(cfg) && SystemOk(cfg, s)
    requires WellFormedEvents(cfg, events) && NoRetention(events)
    ensures SystemOk(cfg, Run(cfg, s, events)) && Preserves(s.world, Run(cfg, s, events).world)
  {
    if events != [] {
      var init, last := events[..|events| - 1], events[|events| - 1];
      assert forall e | e in init :: e in events;
      RunKeeps(cfg, s, init);
      assert last in events;
      ApplyKeeps(cfg, Run(cfg, s, init), last);
    }
  }

  /**
   The headline. From empty stores, at any two moments of any run without retention: the row that
   claimed an event id at the first still carries the same text at the second, and every object
   archived for that event id at either moment is that text.
   */
  lemma Safety(cfg: Config, first: seq<Event>, later: seq<Event>, e: EventId, k: Key)
    requires !cfg.archiveFirst && CollisionFree(cfg)
    requires WellFormedEvents(cfg, first + later) && NoRetention(first + later)
    ensures var s, t := Run(cfg, EMPTY_SYSTEM, first), Run(cfg, EMPTY_SYSTEM, first + later);
            && WorldOk(cfg, s.world) && WorldOk(cfg, t.world) && Preserves(s.world, t.world)
            && (k in s.world.objects && k.eventId == e ==>
                  && Find(t.world.tables.rows, e).Some?
                  && Find(t.world.tables.rows, e).value.text == s.world.objects[k])
  {
    assert forall e | e in first :: e in first + later;
    assert forall e | e in later :: e in first + later;
    RunKeeps(cfg, EMPTY_SYSTEM, first);
    RunKeeps(cfg, Run(cfg, EMPTY_SYSTEM, first), later);
    RunAppend(cfg, EMPTY_SYSTEM, first, later);
    ClaimedByRow(cfg, Run(cfg, EMPTY_SYSTEM, first).world, k);
  }

  lemma ClaimedByRow(cfg: Config, w: World, k: Key)
    requires WorldOk(cfg, w)
    ensures k in w.objects ==>
              Find(w.tables.rows, k.eventId).Some? && Find(w.tables.rows, k.eventId).value.text == w.objects[k]
  {
  }
}
