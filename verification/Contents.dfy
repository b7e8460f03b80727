/**
 What the stores hold is what the events say. After any run of either adapter, retention, faults and deaths
 included, each row and each object is the text of an event whose required hashes are right, and a row's
 columns are that event's fields; so replay filters by the fields of the events themselves.
 */
module Contents {
  import opened Wrappers
  import opened Faults
  import opened Events
  import opened Requests
  import opened Storage
  import opened Ledger
  import opened LedgerFacts
  import opened Machine
  import opened System
  import opened Replay
  import Keys
  import Window

  /* ---------- Any run keeps copies of its requests ---------- */

  /** The row repeats the request that its text decodes to, whatever its status and URI have become. */
  ghost predicate Copied(cfg: Config, r: Row) {
    var q := cfg.read(r.text);
    && Verified(cfg, r.text) && WellFormed(cfg, q.value) && r.eventId == q.value.eventId && r.columns == q.value.columns
    && r.payloadHash == q.value.payloadHash && r.eventHash == q.value.eventHash
  }

  ghost predicate WorldOk(cfg: Config, w: World) {
    && (forall r | r in w.tables.rows :: Copied(cfg, r))
    && (forall k | k in w.objects :: Verified(cfg, w.objects[k]))
  }

  ghost predicate ProcessOk(cfg: Config, p: Process) {
    p.Ingesting? ==> WellFormed(cfg, p.q) && (p.q.verified || p.pc.Done?)
  }

  ghost predicate SystemOk(cfg: Config, s: System) {
    WorldOk(cfg, s.world) && forall id | id in s.procs :: ProcessOk(cfg, s.procs[id])
  }

  lemma StoreStepKeeps(cfg: Config, q: Request, objects: Objects, pc: StorePc, fault: Fault)
    requires cfg.read(q.text) == Some(q) && q.verified && forall k | k in objects :: Verified(cfg, objects[k])
    ensures var after := StoreStep(q, objects, pc, fault).0; forall k | k in after :: Verified(cfg, after[k])
  {
  }

  lemma UpdatesKeep(cfg: Config, t: Tables, e: EventId, uri: Uri)
    requires forall r | r in t.rows :: Copied(cfg, r)
    ensures forall r | r in SetStored(t, e, uri).rows :: Copied(cfg, r)
    ensures forall r | r in SetFailed(t, e).rows :: Copied(cfg, r)
  {
    forall r | r in SetStored(t, e, uri).rows
      ensures Copied(cfg, r)
    {
      var b := StoredRowOrigin(t, e, uri, r);
    }
    forall r | r in SetFailed(t, e).rows
      ensures Copied(cfg, r)
    {
      var b := FailedRowOrigin(t, e, r);
    }
  }

  lemma IngestStepKeeps(cfg: Config, w: World, q: Request, pc: Pc, fault: Fault)
    requires WorldOk(cfg, w) && ProcessOk(cfg, Ingesting(q, pc))
    ensures var (v, next) := IngestStep(cfg, q, w, pc, fault);
            WorldOk(cfg, v) && ProcessOk(cfg, Ingesting(q, next))
  {
    match pc {
      case Writing(_, store) => StoreStepKeeps(cfg, q, w.objects, store, fault);
      case Marking(uri) => UpdatesKeep(cfg, w.tables, q.eventId, uri);
      case MarkingFailed => UpdatesKeep(cfg, w.tables, q.eventId, Uri(q.finalKey));
      case _ =>
    }
  }

  lemma EventKeeps(cfg: Config, s: System, e: Event)
    requires SystemOk(cfg, s) && (e.Arrive? ==> WellFormed(cfg, e.q))
    ensures SystemOk(cfg, Apply(cfg, s, e))
  {
    if e.Advance? && e.id in s.procs {
      match s.procs[e.id] {
        case Ingesting(q, pc) => IngestStepKeeps(cfg, s.world, q, pc, e.fault);
        case Retaining(_, _, pc) =>
      }
    }
  }

  lemma {:induction false} RunKeeps(cfg: Config, events: seq<Event>)
    requires WellFormedEvents(cfg, events)
    ensures SystemOk(cfg, Run(cfg, EMPTY_SYSTEM, events))
  {
    if events != [] {
      var init, last := events[..|events| - 1], events[|events| - 1];
      assert forall e | e in init :: e in events;
      RunKeeps(cfg, init);
      assert last in events;
      EventKeeps(cfg, Run(cfg, EMPTY_SYSTEM, init), last);
    }
  }

  /* ---------- In terms of events ---------- */

  /** What a required hash promises about an event. */
  ghost predicate Attested(h: Keys.Hashing, e: Envelope) {
    && (h.requirePayloadHash ==> h.payloadSha(e.payload) == e.payloadHash)
    && (h.requireEventHash ==> h.eventSha(CanonicalEvent(e) - {EventHashF}) == e.eventHash)
  }

  lemma VerifiedMeans(archiveFirst: bool, reject: bool, h: Keys.Hashing, t: Text)
    requires Verified(Keys.ServiceConfig(archiveFirst, reject, h), t)
    ensures var e := DecodeEnvelope(t); e.Some? && CanonicalEvent(e.value) == t && Attested(h, e.value)
  {
  }

  /** After any run of the service, every archived object is the text of an event whose required hashes are right. */
  lemma ArchiveIsAttested(archiveFirst: bool, reject: bool, h: Keys.Hashing, events: seq<Event>, k: Key)
    requires WellFormedEvents(Keys.ServiceConfig(archiveFirst, reject, h), events)
    requires k in Run(Keys.ServiceConfig(archiveFirst, reject, h), EMPTY_SYSTEM, events).world.objects
    ensures var t := Run(Keys.ServiceConfig(archiveFirst, reject, h), EMPTY_SYSTEM, events).world.objects[k];
            var e := DecodeEnvelope(t);
            e.Some? && CanonicalEvent(e.value) == t && Attested(h, e.value)
  {
    var cfg := Keys.ServiceConfig(archiveFirst, reject, h);
    RunKeeps(cfg, events);
    VerifiedMeans(archiveFirst, reject, h, Run(cfg, EMPTY_SYSTEM, events).world.objects[k]);
  }

  /** The row of an event: its text, its hashes, and the seven fields that replay filters on. */
  ghost predicate RowOfEvent(r: Row, e: Envelope) {
    && r.text == CanonicalEvent(e) && r.eventId == e.eventId
    && r.payloadHash == e.payloadHash && r.eventHash == e.eventHash
    && r.columns.producerService == e.producerService && r.columns.eventName == e.eventName
    && r.columns.subjectType == e.subjectType && r.columns.subjectId == e.subjectId
    && r.columns.aggregateType == e.aggregateType && r.columns.aggregateId == e.aggregateId
    && r.columns.correlationId == e.correlationId
  }

  /** And every row is that of such an event. */
  lemma RowsAreEvents(archiveFirst: bool, reject: bool, h: Keys.Hashing, events: seq<Event>, r: Row)
    requires WellFormedEvents(Keys.ServiceConfig(archiveFirst, reject, h), events)
    requires r in Run(Keys.ServiceConfig(archiveFirst, reject, h), EMPTY_SYSTEM, events).world.tables.rows
    ensures var e := DecodeEnvelope(r.text); e.Some? && RowOfEvent(r, e.value) && Attested(h, e.value)
  {
    var cfg := Keys.ServiceConfig(archiveFirst, reject, h);
    RunKeeps(cfg, events);
    assert Copied(cfg, r);
    VerifiedMeans(archiveFirst, reject, h, r.text);
  }

  /* ---------- Replay filters by the fields of events ---------- */

  /** Every filter that is given equals the event's own field; an absent field equals none. */
  ghost predicate Matches(filter: Filter, e: Envelope) {
    && (filter.producerService.Some? ==> e.producerService == filter.producerService.value)
    && (filter.eventName.Some? ==> e.eventName == filter.eventName.value)
    && (filter.subjectType.Some? ==> e.subjectType == Some(filter.subjectType.value))
    && (filter.subjectId.Some? ==> e.subjectId == Some(filter.subjectId.value))
    && (filter.aggregateType.Some? ==> e.aggregateType == Some(filter.aggregateType.value))
    && (filter.aggregateId.Some? ==> e.aggregateId == Some(filter.aggregateId.value))
    && (filter.correlationId.Some? ==> e.correlationId == Some(filter.correlationId.value))
  }

  lemma SelectsByFields(rows: seq<Row>, after: Option<nat>, filter: Filter, r: Row, e: Envelope)
    requires RowOfEvent(r, e)
    ensures r in Select(rows, after, filter)
            <==> r in rows && r.status.Stored? && (after.Some? ==> after.value < r.id) && Matches(filter, e)
  {
  }

  /** Ids start at one, so no cursor is the cursor zero. */
  lemma {:induction false} SelectFromStart(rows: seq<Row>, filter: Filter)
    requires forall r | r in rows :: 0 < r.id
    ensures Select(rows, None, filter) == Select(rows, Some(0), filter)
  {
    if rows != [] {
      assert rows[0] in rows && forall r | r in rows[1..] :: r in rows;
      SelectFromStart(rows[1..], filter);
    }
  }

  /**
   After any run of the service, a page is exactly the stored events above the cursor whose fields match every
   filter given, up to the cursor that a consumer goes on from.
   */
  lemma PagesFilterByFields(archiveFirst: bool, reject: bool, h: Keys.Hashing, events: seq<Event>, after: Option<nat>,
                            filter: Filter, limit: nat, r: Row)
    requires WellFormedEvents(Keys.ServiceConfig(archiveFirst, reject, h), events) && limit > 0
    requires r in Run(Keys.ServiceConfig(archiveFirst, reject, h), EMPTY_SYSTEM, events).world.tables.rows
    ensures var rows := Run(Keys.ServiceConfig(archiveFirst, reject, h), EMPTY_SYSTEM, events).world.tables.rows;
            var page := PageOf(rows, after, filter, limit);
            var from := if after.Some? then after.value else 0;
            && DecodeEnvelope(r.text).Some?
            && (r in page.events <==>
                  && r.status.Stored? && from < r.id <= NextFrom(page, from)
                  && Matches(filter, DecodeEnvelope(r.text).value))
  {
    var cfg := Keys.ServiceConfig(archiveFirst, reject, h);
    var rows, from := Run(cfg, EMPTY_SYSTEM, events).world.tables.rows, if after.Some? then after.value else 0;
    Window.RunOrdered(cfg, EMPTY_SYSTEM, events, |events|);
    assert events[..|events|] == events;
    RowsAreEvents(archiveFirst, reject, h, events, r);
    SelectsByFields(rows, Some(from), filter, r, DecodeEnvelope(r.text).value);
    SelectFromStart(rows, filter);
    PageCovers(rows, from, filter, limit);
  }
}
