/**
 Archive-first safety over every interleaving: each event id has one archived content for ever,
 every final object equals its guard, and every ledger row has its text archived at its key.
 */
module ArchiveFirst {
  import opened Wrappers
  import opened Faults
  import opened Requests
  import opened Storage
  import opened Ledger
  import opened LedgerFacts
  import opened Machine
  import opened System

  ghost predicate GuardHolds(objects: Objects, q: Request) {
    GuardKey(q.eventId) in objects && objects[GuardKey(q.eventId)] == q.text
  }

  ghost predicate Archived(objects: Objects, q: Request) {
    GuardHolds(objects, q) && q.finalKey in objects && objects[q.finalKey] == q.text
  }

  /** An object is the text of a well-formed request, at a key of its own; a final has its guard. */
  ghost predicate ObjectOk(cfg: Config, objects: Objects, key: Key)
    requires key in objects
  {
    var q := cfg.read(objects[key]);
    && q.Some? && q.value.text == objects[key] && WellFormed(cfg, q.value)
    && GuardHolds(objects, q.value)
    && (key == GuardKey(q.value.eventId) || key == q.value.finalKey)
  }

  ghost predicate RowOk(cfg: Config, objects: Objects, r: Row) {
    RowFaithful(cfg, r) && Archived(objects, cfg.read(r.text).value)
  }

  ghost predicate WorldOk(cfg: Config, w: World) {
    && TablesOk(w.tables)
    && (forall k | k in w.objects :: ObjectOk(cfg, w.objects, k))
    && (forall r | r in w.tables.rows :: RowOk(cfg, w.objects, r))
  }

  /** What a request knows at each point of its program. */
  ghost predicate StoreOk(objects: Objects, q: Request, pc: StorePc) {
    match pc
    case Put(t) => t.Final? ==> GuardHolds(objects, q)
    case Get(t) => t.Final? ==> GuardHolds(objects, q)
    case Returned(Written(uri)) => uri == Uri(q.finalKey) && Archived(objects, q)
    case Returned(_) => true
    case _ => false
  }

  ghost predicate PcOk(objects: Objects, q: Request, pc: Pc) {
    match pc
    case Writing(_, store) => StoreOk(objects, q, store)
    case Creating(uri) => uri == Some(Uri(q.finalKey)) && Archived(objects, q)
    case Rereading(uri) => uri == Some(Uri(q.finalKey)) && Archived(objects, q)
    case Marking(uri) => uri == Uri(q.finalKey) && Archived(objects, q)
    case Logging(_, next) => next.Done? || next.MarkingFailed?
    case _ => true
  }

  ghost predicate ProcessOk(cfg: Config, objects: Objects, p: Process) {
    p.Ingesting? ==> WellFormed(cfg, p.q) && (p.q.verified || p.pc.Done?) && PcOk(objects, p.q, p.pc)
  }

  ghost predicate SystemOk(cfg: Config, s: System) {
    && WorldOk(cfg, s.world)
    && (forall id | id in s.procs :: ProcessOk(cfg, s.world.objects, s.procs[id]))
  }

  /** No object is ever replaced or removed. */
  ghost predicate Grown(before: Objects, after: Objects) {
    forall k | k in before :: k in after && after[k] == before[k]
  }

  lemma StoreStepKeeps(cfg: Config, q: Request, objects: Objects, pc: StorePc, fault: Fault)
    requires WellFormed(cfg, q) && StoreOk(objects, q, pc)
    requires forall k | k in objects :: ObjectOk(cfg, objects, k)
    ensures var (after, next) := StoreStep(q, objects, pc, fault);
            && Grown(objects, after) && StoreOk(after, q, next)
            && forall k | k in after :: ObjectOk(cfg, after, k)
  {
  }

  /** The guard makes the row's text the request's own, hence the URI the row's own. */
  lemma StoredRowOk(cfg: Config, objects: Objects, q: Request, b: Row)
    requires RowOk(cfg, objects, b) && WellFormed(cfg, q) && Archived(objects, q)
    ensures RowOk(cfg, objects, if b.eventId == q.eventId then StoredRow(b, Uri(q.finalKey)) else b)
  {
  }

  lemma UpdatesKeepRows(cfg: Config, q: Request, w: World)
    requires WorldOk(cfg, w) && WellFormed(cfg, q)
    ensures WorldOk(cfg, w.(tables := SetFailed(w.tables, q.eventId)))
    ensures Archived(w.objects, q) ==> WorldOk(cfg, w.(tables := SetStored(w.tables, q.eventId, Uri(q.finalKey))))
  {
    var uri := Uri(q.finalKey);
    UpdatesKeepTables(w.tables, q.eventId, uri);
    forall r | r in SetFailed(w.tables, q.eventId).rows
      ensures RowOk(cfg, w.objects, r)
    {
      var b := FailedRowOrigin(w.tables, q.eventId, r);
      assert RowOk(cfg, w.objects, b);
    }
    if Archived(w.objects, q) {
      forall r | r in SetStored(w.tables, q.eventId, uri).rows
        ensures RowOk(cfg, w.objects, r)
      {
        var b := StoredRowOrigin(w.tables, q.eventId, uri, r);
        StoredRowOk(cfg, w.objects, q, b);
      }
    }
  }

  lemma CreateKeepsRows(cfg: Config, q: Request, w: World)
    requires WorldOk(cfg, w) && WellFormed(cfg, q) && q.verified && Archived(w.objects, q)
    ensures WorldOk(cfg, w.(tables := Create(w.tables, q)))
  {
    CreateKeepsTables(w.tables, q);
    assert RowOk(cfg, w.objects, NewRow(w.tables.nextId, q));
  }

  lemma NextPcOk(cfg: Config, q: Request, w: World, pc: Pc, fault: Fault)
    requires cfg.archiveFirst && WorldOk(cfg, w) && ProcessOk(cfg, w.objects, Ingesting(q, pc)) && !pc.Writing?
    ensures ProcessOk(cfg, w.objects, Ingesting(q, IngestStep(cfg, q, w, pc, fault).1))
  {
  }

  /** One step of one request keeps the stores consistent and earns its next program point. */
  lemma IngestStepKeeps(cfg: Config, q: Request, w: World, pc: Pc, fault: Fault)
    requires cfg.archiveFirst && WorldOk(cfg, w) && ProcessOk(cfg, w.objects, Ingesting(q, pc))
    ensures var (w', pc') := IngestStep(cfg, q, w, pc, fault);
            WorldOk(cfg, w') && ProcessOk(cfg, w'.objects, Ingesting(q, pc')) && Grown(w.objects, w'.objects)
  {
    var (w', pc') := IngestStep(cfg, q, w, pc, fault);
    match pc {
      case Writing(_, store) =>
        StoreStepKeeps(cfg, q, w.objects, store, fault);
      case Creating(_) =>
        NextPcOk(cfg, q, w, pc, fault);
        CreateKeepsRows(cfg, q, w);
      case Marking(uri) =>
        NextPcOk(cfg, q, w, pc, fault);
        UpdatesKeepRows(cfg, q, w);
      case MarkingFailed =>
        NextPcOk(cfg, q, w, pc, fault);
        UpdatesKeepRows(cfg, q, w);
      case _ =>
        NextPcOk(cfg, q, w, pc, fault);
    }
  }

  lemma RetainStepKeeps(cfg: Config, through: nat, limit: int, w: World, pc: RetainPc, fault: Fault)
    requires WorldOk(cfg, w)
    ensures var (w', _) := RetainStep(cfg, through, limit, w, pc, fault);
            WorldOk(cfg, w') && w'.objects == w.objects
  {
    if pc.Committing? && pc.confirmed != [] {
      RetainKeepsTables(w.tables, pc.confirmed, Last(pc.confirmed));
    }
  }

  /** What a request has learned about the archive outlives every later write. */
  lemma GrownKeepsProcess(cfg: Config, before: Objects, after: Objects, p: Process)
    requires Grown(before, after) && ProcessOk(cfg, before, p)
    ensures ProcessOk(cfg, after, p)
  {
  }

  lemma ApplyKeeps(cfg: Config, s: System, e: Event)
    requires cfg.archiveFirst && SystemOk(cfg, s) && WellFormedEvents(cfg, [e])
    ensures SystemOk(cfg, Apply(cfg, s, e)) && Grown(s.world.objects, Apply(cfg, s, e).world.objects)
  {
    var s' := Apply(cfg, s, e);
    match e {
      case Arrive(id, q) => assert e in [e];
      case Advance(id, fault) =>
        if id in s.procs {
          match s.procs[id] {
            case Ingesting(q, pc) => IngestStepKeeps(cfg, q, s.world, pc, fault);
            case Retaining(t, l, rpc) => RetainStepKeeps(cfg, t, l, s.world, rpc, fault);
          }
          forall other | other in s'.procs
            ensures ProcessOk(cfg, s'.world.objects, s'.procs[other])
          {
            if other != id {
              GrownKeepsProcess(cfg, s.world.objects, s'.world.objects, s.procs[other]);
            }
          }
        }
      case _ =>
    }
  }

  /** Every run, with any faults and deaths, keeps the stores consistent and the archive write-once. */
  lemma {:induction false} RunKeeps(cfg: Config, s: System, events: seq<Event>)
    requires cfg.archiveFirst && SystemOk(cfg, s) && WellFormedEvents(cfg, events)
    ensures SystemOk(cfg, Run(cfg, s, events)) && Grown(s.world.objects, Run(cfg, s, events).world.objects)
  {
    if events != [] {
      var init, last := events[..|events| - 1], events[|events| - 1];
      assert forall e | e in init :: e in events;
      RunKeeps(cfg, s, init);
      assert last in events;
      ApplyKeeps(cfg, Run(cfg, s, init), last);
    }
  }

  /** Two finals, or a final and its guard, of one event id never disagree; no second final exists. */
  lemma OneContent(cfg: Config, objects: Objects, k: Key, l: Key)
    requires k in objects && l in objects && k.eventId == l.eventId
    requires ObjectOk(cfg, objects, k) && ObjectOk(cfg, objects, l)
    ensures objects[k] == objects[l]
    ensures k.FinalKey? && l.FinalKey? ==> k == l
  {
  }

  /**
   The headline. From empty stores, at any two moments of any run: whatever was archived for an
   event id at the first moment is what is archived for it at the second, under any of its keys,
   and every row of either moment has its text and URI archived.
   */
  lemma Safety(cfg: Config, first: seq<Event>, later: seq<Event>, k: Key, l: Key)
    requires cfg.archiveFirst && WellFormedEvents(cfg, first + later)
    ensures var s, t := Run(cfg, EMPTY_SYSTEM, first), Run(cfg, EMPTY_SYSTEM, first + later);
            && WorldOk(cfg, s.world) && WorldOk(cfg, t.world)
            && Grown(s.world.objects, t.world.objects)
            && (k in s.world.objects && l in t.world.objects && k.eventId == l.eventId ==>
                  s.world.objects[k] == t.world.objects[l] && (k.FinalKey? && l.FinalKey? ==> k == l))
  {
    assert forall e | e in first :: e in first + later;
    assert forall e | e in later :: e in first + later;
    RunKeeps(cfg, EMPTY_SYSTEM, first);
    RunKeeps(cfg, Run(cfg, EMPTY_SYSTEM, first), later);
    RunAppend(cfg, EMPTY_SYSTEM, first, later);
    var t := Run(cfg, EMPTY_SYSTEM, first + later).world;
    if k in t.objects && l in t.objects && k.eventId == l.eventId {
      assert ObjectOk(cfg, t.objects, k) && ObjectOk(cfg, t.objects, l);
      OneContent(cfg, t.objects, k, l);
    }
  }
}
