/**
 Retention is safe under any interleaving: whatever runs, fails or overlaps, with either adapter, a row is only
 ever deleted when it is stored and the archive holds its exact text under the event's own key, for good.
 */
module Deletions {
  import opened Wrappers
  import opened Faults
  import opened Events
  import opened Requests
  import opened Storage
  import opened Ledger
  import opened LedgerFacts
  import opened Machine
  import opened System
  import opened Agreement
  import Contents
  import Lasting
  import Sequential
  import Window

  /** The final of the event that the row is of holds the row's text. */
  ghost predicate Held(cfg: Config, objects: Objects, r: Row) {
    var q := cfg.read(r.text);
    q.Some? && q.value.finalKey.FinalKey? && q.value.finalKey in objects && objects[q.value.finalKey] == r.text
  }

  /** Rows keep their text, and new rows get new ids. */
  ghost predicate TextsStay(before: Tables, after: Tables) {
    && before.nextId <= after.nextId
    && (forall r | r in after.rows && r.id < before.nextId :: HasText(before.rows, r.id, r.text))
  }

  ghost predicate HasText(rows: seq<Row>, id: nat, text: Text) {
    exists r :: r in rows && r.id == id && r.text == text
  }

  /** Whichever rows have these ids now are archived. */
  ghost predicate IdsHeld(cfg: Config, w: World, ids: seq<nat>) {
    forall id | id in ids ::
      id < w.tables.nextId && forall r | r in w.tables.rows && r.id == id :: Held(cfg, w.objects, r)
  }

  /** The row that a run has read is still what its id stands for, if anything. */
  ghost predicate Current(t: Tables, c: Row) {
    c.id < t.nextId && forall r | r in t.rows && r.id == c.id :: r.text == c.text
  }

  ghost predicate ProcessOk(cfg: Config, w: World, p: Process) {
    p.Retaining? ==>
      match p.rpc
      case ConfirmingRow(rest, confirmed) => IdsHeld(cfg, w, confirmed) && forall c | c in rest :: Current(w.tables, c)
      case Committing(confirmed, _) => IdsHeld(cfg, w, confirmed)
      case _ => true
  }

  /** Rows are in order, and each is the copy of a request with a final key. */
  ghost predicate RowsOk(cfg: Config, t: Tables) {
    && TablesOk(t)
    && (forall r | r in t.rows :: cfg.read(r.text).Some? && cfg.read(r.text).value.finalKey.FinalKey?)
  }

  ghost predicate SystemOk(cfg: Config, s: System) {
    RowsOk(cfg, s.world.tables) && forall id | id in s.procs :: ProcessOk(cfg, s.world, s.procs[id])
  }

  lemma SameStay(before: Tables, after: Tables)
    requires before.nextId <= after.nextId
    requires forall r | r in after.rows && r.id < before.nextId :: r in before.rows
    ensures TextsStay(before, after)
  {
  }

  lemma IngestStays(cfg: Config, q: Request, w: World, pc: Pc, fault: Fault)
    ensures TextsStay(w.tables, IngestStep(cfg, q, w, pc, fault).0.tables)
  {
  }

  lemma OthersStayOk(cfg: Config, before: World, after: World, p: Process)
    requires ProcessOk(cfg, before, p) && TextsStay(before.tables, after.tables)
    requires FinalsKept(before.objects, after.objects)
    ensures ProcessOk(cfg, after, p)
  {
  }

  /** A confirmed candidate is held, whichever row its id stands for. */
  lemma ConfirmHolds(cfg: Config, w: World, c: Row, confirmed: seq<nat>)
    requires RowsOk(cfg, w.tables) && Current(w.tables, c) && Confirmed(cfg, w.objects, c)
    requires IdsHeld(cfg, w, confirmed)
    ensures IdsHeld(cfg, w, confirmed + [c.id])
  {
  }

  lemma CandidatesCurrent(t: Tables, after: Option<nat>, through: nat, n: nat)
    requires TablesOk(t)
    ensures forall c | c in Take(StoredBetween(t.rows, after, through), n) :: Current(t, c)
  {
  }

  lemma RetainStepOk(cfg: Config, through: nat, limit: int, w: World, pc: RetainPc, fault: Fault)
    requires RowsOk(cfg, w.tables) && ProcessOk(cfg, w, Retaining(through, limit, pc)) && !pc.Committing?
    ensures ProcessOk(cfg, w, Retaining(through, limit, RetainStep(cfg, through, limit, w, pc, fault).1))
  {
    match pc {
      case ReadingCandidates(floor) => CandidatesCurrent(w.tables, floor, through, EffectiveLimit(limit));
      case ConfirmingRow(rest, confirmed) =>
        if rest != [] {
          assert rest[0] in rest && forall c | c in rest[1..] :: c in rest;
          if Confirmed(cfg, w.objects, rest[0]) {
            ConfirmHolds(cfg, w, rest[0], confirmed);
          }
        }
      case _ =>
    }
  }

  lemma RetainStays(cfg: Config, through: nat, limit: int, w: World, pc: RetainPc, fault: Fault)
    requires RowsOk(cfg, w.tables)
    ensures var v := RetainStep(cfg, through, limit, w, pc, fault).0;
            v.objects == w.objects && TextsStay(w.tables, v.tables) && RowsOk(cfg, v.tables)
  {
    SameStay(w.tables, w.tables);
    if pc.Committing? && pc.confirmed != [] {
      RetainKeepsTables(w.tables, pc.confirmed, Last(pc.confirmed));
      SameStay(w.tables, Retain(w.tables, pc.confirmed, Last(pc.confirmed)));
    }
  }

  lemma AdvanceKeeps(cfg: Config, s: System, id: nat, fault: Fault)
    requires SystemOk(cfg, s) && id in s.procs
    requires RowsOk(cfg, Apply(cfg, s, Advance(id, fault)).world.tables)
    ensures SystemOk(cfg, Apply(cfg, s, Advance(id, fault)))
  {
    var s' := Apply(cfg, s, Advance(id, fault));
    Lasting.EventKeepsFinals(cfg, s, Advance(id, fault));
    match s.procs[id] {
      case Ingesting(q, pc) => IngestStays(cfg, q, s.world, pc, fault);
      case Retaining(through, limit, pc) =>
        RetainStays(cfg, through, limit, s.world, pc, fault);
        if !pc.Committing? {
          RetainStepOk(cfg, through, limit, s.world, pc, fault);
        }
    }
    forall other | other in s'.procs && other != id
      ensures ProcessOk(cfg, s'.world, s'.procs[other])
    {
      OthersStayOk(cfg, s.world, s'.world, s.procs[other]);
    }
  }

  lemma RowsOkAt(cfg: Config, events: seq<Event>)
    requires WellFormedEvents(cfg, events)
    ensures RowsOk(cfg, Run(cfg, EMPTY_SYSTEM, events).world.tables)
  {
    Window.RunOrdered(cfg, EMPTY_SYSTEM, events, |events|);
    assert events[..|events|] == events;
    Contents.RunKeeps(cfg, events);
  }

  lemma {:induction false} RunKeeps(cfg: Config, events: seq<Event>)
    requires WellFormedEvents(cfg, events)
    ensures SystemOk(cfg, Run(cfg, EMPTY_SYSTEM, events))
  {
    if events != [] {
      var init, last := events[..|events| - 1], events[|events| - 1];
      assert forall e | e in init :: e in events;
      RunKeeps(cfg, init);
      RowsOkAt(cfg, events);
      var s := Run(cfg, EMPTY_SYSTEM, init);
      if last.Advance? && last.id in s.procs {
        AdvanceKeeps(cfg, s, last.id, last.fault);
      }
    }
  }

  lemma IngestDeletesNothing(cfg: Config, q: Request, w: World, pc: Pc, fault: Fault, r: Row)
    requires TablesOk(w.tables) && r in w.tables.rows
    ensures Sequential.HasId(IngestStep(cfg, q, w, pc, fault).0.tables.rows, r.id)
  {
    if pc.Marking? || pc.MarkingFailed? {
      UpdatedRow(w.tables, q.eventId, if pc.Marking? then pc.written else Uri(q.finalKey), r);
    }
  }

  /** An event that deletes a row finds it stored and archived. */
  lemma EventDeletesHeld(cfg: Config, s: System, e: Event, r: Row)
    requires SystemOk(cfg, s) && r in s.world.tables.rows
    requires !Sequential.HasId(Apply(cfg, s, e).world.tables.rows, r.id)
    ensures r.status.Stored? && Held(cfg, s.world.objects, r)
  {
    if e.Advance? && e.id in s.procs && s.procs[e.id].Ingesting? {
      IngestDeletesNothing(cfg, s.procs[e.id].q, s.world, s.procs[e.id].pc, e.fault, r);
    }
    assert r !in Apply(cfg, s, e).world.tables.rows;
  }

  /**
   In any run whatever, a row that an event deletes was stored, and its exact text is in the archive under its own
   event's key, then and at every later moment.
   */
  lemma DeletedIsArchived(cfg: Config, first: seq<Event>, e: Event, later: seq<Event>, r: Row)
    requires WellFormedEvents(cfg, first) && r in Run(cfg, EMPTY_SYSTEM, first).world.tables.rows
    requires !Sequential.HasId(Run(cfg, EMPTY_SYSTEM, first + [e]).world.tables.rows, r.id)
    ensures r.status.Stored? && Held(cfg, Run(cfg, EMPTY_SYSTEM, first + [e] + later).world.objects, r)
  {
    var s := Run(cfg, EMPTY_SYSTEM, first);
    RunKeeps(cfg, first);
    RunThen(cfg, EMPTY_SYSTEM, first, e);
    EventDeletesHeld(cfg, s, e, r);
    RunAppend(cfg, EMPTY_SYSTEM, first, [e] + later);
    assert first + ([e] + later) == first + [e] + later;
    Lasting.RunKeepsFinals(cfg, s, [e] + later);
  }
}
