/**
 Guards under interleaving: after any run at all, a guard that is there stays there with its content,
 whatever may follow, exactly if no request still has it to take back.
 */
module Guards {
  import opened Faults
  import opened Events
  import opened Requests
  import opened Storage
  import opened Machine
  import opened System

  /** The call created the guard and may yet take it back. */
  predicate HoldsGuard(pc: StorePc) {
    match pc
    case Check(t, created) => t.Final? && created
    case Link(t, created) => t.Final? && created
    case Recheck(t, created) => t.Final? && created
    case RollbackCheck(_) => true
    case RollbackRemove(_) => true
    case _ => false
  }

  predicate Owns(p: Process, e: EventId) {
    p.Ingesting? && p.q.eventId == e && p.pc.Writing? && HoldsGuard(p.pc.store)
  }

  ghost predicate Unowned(s: System, e: EventId) {
    forall id | id in s.procs :: !Owns(s.procs[id], e)
  }

  ghost predicate Holds(objects: Objects, e: EventId, t: Text) {
    GuardKey(e) in objects && objects[GuardKey(e)] == t
  }

  /** A final key is no guard key, and a logged attempt starts no write. */
  ghost predicate ShapeOk(p: Process) {
    p.Ingesting? ==> p.q.finalKey.FinalKey? && (p.pc.Logging? ==> p.pc.next.Done? || p.pc.next.MarkingFailed?)
  }

  /** Who still has a guard to take back is the only one for its event id, and the guard is there as it wrote it. */
  ghost predicate SystemOk(s: System) {
    && (forall id | id in s.procs :: ShapeOk(s.procs[id]))
    && (forall id | id in s.procs && s.procs[id].Ingesting? && Owns(s.procs[id], s.procs[id].q.eventId) ::
          Holds(s.world.objects, s.procs[id].q.eventId, s.procs[id].q.text))
    && (forall i, j | i in s.procs && j in s.procs && s.procs[i].Ingesting? && s.procs[j].Ingesting?
                      && Owns(s.procs[i], s.procs[i].q.eventId) && Owns(s.procs[j], s.procs[i].q.eventId) :: i == j)
  }

  lemma ShapeStays(cfg: Config, q: Request, w: World, pc: Pc, fault: Fault)
    requires ShapeOk(Ingesting(q, pc))
    ensures ShapeOk(Ingesting(q, IngestStep(cfg, q, w, pc, fault).1))
  {
  }

  /** A storage call that is no rollback leaves every guard there is, and becomes an owner only by creating one. */
  lemma StoreSpares(q: Request, objects: Objects, pc: StorePc, fault: Fault, e: EventId)
    requires q.finalKey.FinalKey? && !(q.eventId == e && HoldsGuard(pc))
    ensures var (after, next) := StoreStep(q, objects, pc, fault);
            && (GuardKey(e) in objects ==>
                  Holds(after, e, objects[GuardKey(e)]) && !(q.eventId == e && HoldsGuard(next)))
            && (q.eventId == e && HoldsGuard(next) ==> Holds(after, e, q.text))
  {
  }

  lemma NonOwnerSpares(cfg: Config, q: Request, w: World, pc: Pc, fault: Fault, e: EventId)
    requires ShapeOk(Ingesting(q, pc)) && !Owns(Ingesting(q, pc), e)
    ensures var (v, next) := IngestStep(cfg, q, w, pc, fault);
            && (GuardKey(e) in w.objects ==>
                  Holds(v.objects, e, w.objects[GuardKey(e)]) && !Owns(Ingesting(q, next), e))
            && (Owns(Ingesting(q, next), e) ==> Holds(v.objects, e, q.text))
  {
    if pc.Writing? {
      StoreSpares(q, w.objects, pc.store, fault, e);
    }
  }

  /** An owner keeps its guard as it is until it removes it, and then it is no owner any more. */
  lemma OwnerStep(cfg: Config, q: Request, w: World, pc: Pc, fault: Fault)
    requires ShapeOk(Ingesting(q, pc)) && Owns(Ingesting(q, pc), q.eventId) && Holds(w.objects, q.eventId, q.text)
    ensures var (v, next) := IngestStep(cfg, q, w, pc, fault);
            Owns(Ingesting(q, next), q.eventId) ==> Holds(v.objects, q.eventId, q.text)
  {
  }

  lemma IngestKeeps(cfg: Config, s: System, id: nat, fault: Fault)
    requires SystemOk(s) && id in s.procs && s.procs[id].Ingesting?
    ensures SystemOk(Apply(cfg, s, Advance(id, fault)))
  {
    var s' := Apply(cfg, s, Advance(id, fault));
    var q, pc := s.procs[id].q, s.procs[id].pc;
    ShapeStays(cfg, q, s.world, pc, fault);
    if Owns(s.procs[id], q.eventId) {
      OwnerStep(cfg, q, s.world, pc, fault);
    } else {
      NonOwnerSpares(cfg, q, s.world, pc, fault, q.eventId);
    }
    forall other | other in s'.procs && other != id && s'.procs[other].Ingesting?
                   && Owns(s'.procs[other], s'.procs[other].q.eventId)
      ensures Holds(s'.world.objects, s'.procs[other].q.eventId, s'.procs[other].q.text)
      ensures !Owns(s'.procs[id], s'.procs[other].q.eventId)
    {
      NonOwnerSpares(cfg, q, s.world, pc, fault, s.procs[other].q.eventId);
    }
  }

  lemma ApplyKeeps(cfg: Config, s: System, e: Event)
    requires SystemOk(s) && WellFormedEvents(cfg, [e])
    ensures SystemOk(Apply(cfg, s, e))
  {
    match e {
      case Arrive(id, q) => assert e in [e];
      case Advance(id, fault) =>
        if id in s.procs && s.procs[id].Ingesting? {
          IngestKeeps(cfg, s, id, fault);
        }
      case _ =>
    }
  }

  lemma {:induction false} RunKeeps(cfg: Config, s: System, events: seq<Event>)
    requires SystemOk(s) && WellFormedEvents(cfg, events)
    ensures SystemOk(Run(cfg, s, events))
  {
    if events != [] {
      var init, last := events[..|events| - 1], events[|events| - 1];
      assert forall e | e in init :: e in events;
      RunKeeps(cfg, s, init);
      assert last in events;
      ApplyKeeps(cfg, Run(cfg, s, init), last);
    }
  }

  lemma EventSpares(cfg: Config, s: System, event: Event, e: EventId, t: Text)
    requires SystemOk(s) && Holds(s.world.objects, e, t) && Unowned(s, e)
    ensures var s' := Apply(cfg, s, event); Holds(s'.world.objects, e, t) && Unowned(s', e)
  {
    if event.Advance? && event.id in s.procs && s.procs[event.id].Ingesting? {
      NonOwnerSpares(cfg, s.procs[event.id].q, s.world, s.procs[event.id].pc, event.fault, e);
    }
  }

  lemma {:induction false} UnownedRun(cfg: Config, s: System, events: seq<Event>, e: EventId, t: Text)
    requires SystemOk(s) && WellFormedEvents(cfg, events) && Holds(s.world.objects, e, t) && Unowned(s, e)
    ensures Holds(Run(cfg, s, events).world.objects, e, t)
    ensures Unowned(Run(cfg, s, events), e)
  {
    if events != [] {
      var init := events[..|events| - 1];
      assert forall x | x in init :: x in events;
      UnownedRun(cfg, s, init, e, t);
      RunKeeps(cfg, s, init);
      EventSpares(cfg, Run(cfg, s, init), events[|events| - 1], e, t);
    }
  }

  /** What the owner's next call needs to bring it closer to the removal. */
  function Push(pc: StorePc): Fault {
    if pc.RollbackCheck? || pc.RollbackRemove? then Works else Fails
  }

  lemma OwnerNears(cfg: Config, s: System, id: nat, e: EventId)
    requires SystemOk(s) && id in s.procs && Owns(s.procs[id], e)
    ensures var s' := Apply(cfg, s, Advance(id, Push(s.procs[id].pc.store)));
            if s.procs[id].pc.store.RollbackRemove? then GuardKey(e) !in s'.world.objects
            else SystemOk(s') && id in s'.procs && Owns(s'.procs[id], e)
                 && StoreRank(s'.procs[id].pc.store) < StoreRank(s.procs[id].pc.store)
  {
    IngestKeeps(cfg, s, id, Push(s.procs[id].pc.store));
  }

  /** The owner's final fails, and it takes the guard back. */
  lemma {:induction false} OwnerStrikes(cfg: Config, s: System, id: nat, e: EventId) returns (events: seq<Event>)
    requires SystemOk(s) && id in s.procs && Owns(s.procs[id], e)
    ensures (forall x | x in events :: x.Advance?) && GuardKey(e) !in Run(cfg, s, events).world.objects
    decreases StoreRank(s.procs[id].pc.store)
  {
    var event := Advance(id, Push(s.procs[id].pc.store));
    var rest: seq<Event> := [];
    OwnerNears(cfg, s, id, e);
    if !s.procs[id].pc.store.RollbackRemove? {
      rest := OwnerStrikes(cfg, Apply(cfg, s, event), id, e);
    }
    events := [event] + rest;
    RunFirst(cfg, s, event, rest);
  }

  ghost predicate HoldsThrough(cfg: Config, first: seq<Event>, later: seq<Event>, e: EventId, t: Text) {
    Holds(Run(cfg, EMPTY_SYSTEM, first + later).world.objects, e, t)
  }

  /**
   After any run, a guard stays with its content through whatever may follow exactly if no request of
   its event id stands between having created it and having its final, or in the rollback.
   */
  lemma GuardStaysExactly(cfg: Config, first: seq<Event>, e: EventId, t: Text)
    requires WellFormedEvents(cfg, first) && Holds(Run(cfg, EMPTY_SYSTEM, first).world.objects, e, t)
    ensures (forall later | WellFormedEvents(cfg, later) :: HoldsThrough(cfg, first, later, e, t))
            <==> Unowned(Run(cfg, EMPTY_SYSTEM, first), e)
  {
    var s := Run(cfg, EMPTY_SYSTEM, first);
    RunKeeps(cfg, EMPTY_SYSTEM, first);
    if Unowned(s, e) {
      forall later | WellFormedEvents(cfg, later)
        ensures HoldsThrough(cfg, first, later, e, t)
      {
        UnownedRun(cfg, s, later, e, t);
        RunAppend(cfg, EMPTY_SYSTEM, first, later);
      }
    } else {
      var id :| id in s.procs && Owns(s.procs[id], e);
      var later := OwnerStrikes(cfg, s, id, e);
      RunAppend(cfg, EMPTY_SYSTEM, first, later);
      assert !HoldsThrough(cfg, first, later, e, t);
    }
  }

  /** And while a request can take a guard back, that guard has that request's content. */
  lemma OwnerHolds(cfg: Config, events: seq<Event>, id: nat, e: EventId)
    requires WellFormedEvents(cfg, events) && id in Run(cfg, EMPTY_SYSTEM, events).procs
    requires Owns(Run(cfg, EMPTY_SYSTEM, events).procs[id], e)
    ensures var s := Run(cfg, EMPTY_SYSTEM, events); Holds(s.world.objects, e, s.procs[id].q.text)
  {
    RunKeeps(cfg, EMPTY_SYSTEM, events);
  }
}
