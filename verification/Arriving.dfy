/**
 The hypothesis about hashes, as weak as it can be: no two texts that arrive share an event hash. A run
 reads no other texts, so it is a run of a service that could not read any; for that one the hypothesis is
 the one the theorems make. The main theorems that need it are restated here.
 */
module Arriving {
  import opened Wrappers
  import opened Faults
  import opened Events
  import opened Requests
  import opened Ledger
  import opened Machine
  import opened System
  import opened Replay
  import Acknowledged
  import Agreement
  import AF = ArchiveFirst
  import Batch
  import Lasting
  import LF = LedgerFirst
  import Repair
  import opened Retention
  import Sequential
  import Statuses

  /** The same service, able to read these texts only. */
  function Among(cfg: Config, texts: set<Text>): Config {
    cfg.(read := t => if t in texts then cfg.read(t) else None)
  }

  lemma FreeAmong(cfg: Config, texts: set<Text>)
    ensures CollisionFree(Among(cfg, texts)) <==> CollisionFreeAmong(cfg, texts)
  {
    var only := Among(cfg, texts);
    assert forall t :: Verified(only, t) <==> t in texts && Verified(cfg, t);
  }

  ghost predicate RowsIn(rows: seq<Row>, texts: set<Text>) {
    forall r | r in rows :: r.text in texts
  }

  ghost predicate ProcessIn(p: Process, texts: set<Text>) {
    match p
    case Ingesting(q, _) => q.text in texts
    case Retaining(_, _, rpc) => rpc.ConfirmingRow? ==> RowsIn(rpc.rest, texts)
  }

  lemma IngestStepAmong(cfg: Config, texts: set<Text>, q: Request, w: World, pc: Pc, fault: Fault)
    ensures IngestStep(Among(cfg, texts), q, w, pc, fault) == IngestStep(cfg, q, w, pc, fault)
  {
  }

  lemma IngestStepIn(cfg: Config, texts: set<Text>, q: Request, w: World, pc: Pc, fault: Fault)
    requires RowsIn(w.tables.rows, texts) && q.text in texts
    ensures RowsIn(IngestStep(cfg, q, w, pc, fault).0.tables.rows, texts)
  {
  }

  lemma RetainStepAmong(cfg: Config, texts: set<Text>, through: nat, limit: int, w: World, pc: RetainPc, fault: Fault)
    requires RowsIn(w.tables.rows, texts) && (pc.ConfirmingRow? ==> RowsIn(pc.rest, texts))
    ensures RetainStep(Among(cfg, texts), through, limit, w, pc, fault) == RetainStep(cfg, through, limit, w, pc, fault)
    ensures var (v, next) := RetainStep(cfg, through, limit, w, pc, fault);
            RowsIn(v.tables.rows, texts) && (next.ConfirmingRow? ==> RowsIn(next.rest, texts))
  {
  }

  lemma StepAmong(cfg: Config, texts: set<Text>, w: World, p: Process, fault: Fault)
    requires RowsIn(w.tables.rows, texts) && ProcessIn(p, texts)
    ensures Step(Among(cfg, texts), w, p, fault) == Step(cfg, w, p, fault)
    ensures var (v, next) := Step(cfg, w, p, fault); RowsIn(v.tables.rows, texts) && ProcessIn(next, texts)
  {
    match p {
      case Ingesting(q, pc) =>
        IngestStepAmong(cfg, texts, q, w, pc, fault);
        IngestStepIn(cfg, texts, q, w, pc, fault);
      case Retaining(through, limit, pc) => RetainStepAmong(cfg, texts, through, limit, w, pc, fault);
    }
  }

  /* ---------- Runs ---------- */

  /** The texts of the requests that arrive. */
  function Texts(events: seq<Event>): set<Text> {
    set e | e in events && e.Arrive? :: e.q.text
  }

  ghost predicate SystemIn(s: System, texts: set<Text>) {
    RowsIn(s.world.tables.rows, texts) && forall id | id in s.procs :: ProcessIn(s.procs[id], texts)
  }

  lemma ApplyAmong(cfg: Config, texts: set<Text>, s: System, e: Event)
    requires SystemIn(s, texts) && (e.Arrive? ==> e.q.text in texts)
    ensures Apply(Among(cfg, texts), s, e) == Apply(cfg, s, e) && SystemIn(Apply(cfg, s, e), texts)
  {
    if e.Advance? && e.id in s.procs {
      StepAmong(cfg, texts, s.world, s.procs[e.id], e.fault);
    }
  }

  lemma {:induction false} RunAmong(cfg: Config, texts: set<Text>, s: System, events: seq<Event>)
    requires SystemIn(s, texts) && Texts(events) <= texts
    ensures Run(Among(cfg, texts), s, events) == Run(cfg, s, events) && SystemIn(Run(cfg, s, events), texts)
  {
    if events != [] {
      var init, last := events[..|events| - 1], events[|events| - 1];
      assert last in events && forall e | e in init :: e in events;
      assert last.Arrive? ==> last.q.text in Texts(events);
      assert Texts(init) <= Texts(events);
      RunAmong(cfg, texts, s, init);
      ApplyAmong(cfg, texts, Run(cfg, s, init), last);
    }
  }

  /** What a theorem about a run of the restricted service needs, and what it says about the service. */
  lemma FromEmpty(cfg: Config, texts: set<Text>, events: seq<Event>)
    requires Texts(events) <= texts && WellFormedEvents(cfg, events)
    ensures Run(Among(cfg, texts), EMPTY_SYSTEM, events) == Run(cfg, EMPTY_SYSTEM, events)
    ensures WellFormedEvents(Among(cfg, texts), events)
  {
    RunAmong(cfg, texts, EMPTY_SYSTEM, events);
    forall e | e in events && e.Arrive?
      ensures WellFormed(Among(cfg, texts), e.q)
    {
      assert e.q.text in Texts(events);
    }
  }

  lemma TextsOfParts(first: seq<Event>, later: seq<Event>)
    ensures Texts(first) <= Texts(first + later) && Texts(later) <= Texts(first + later)
    ensures (forall e | e in first :: e in first + later) && (forall e | e in later :: e in first + later)
  {
  }

  /** LedgerFirst.Safety, given no collision among the texts that arrive. */
  lemma LedgerFirstSafety(cfg: Config, first: seq<Event>, later: seq<Event>, e: EventId, k: Key)
    requires !cfg.archiveFirst && CollisionFreeAmong(cfg, Texts(first + later))
    requires WellFormedEvents(cfg, first + later) && LF.NoRetention(first + later)
    ensures var s, t := Run(cfg, EMPTY_SYSTEM, first).world, Run(cfg, EMPTY_SYSTEM, first + later).world;
            && LF.Preserves(s, t)
            && (k in s.objects && k.eventId == e ==>
                  Find(t.tables.rows, e).Some? && Find(t.tables.rows, e).value.text == s.objects[k])
  {
    var texts := Texts(first + later);
    TextsOfParts(first, later);
    FromEmpty(cfg, texts, first);
    FromEmpty(cfg, texts, first + later);
    FreeAmong(cfg, texts);
    LF.Safety(Among(cfg, texts), first, later, e, k);
  }

  /** Acknowledged.AcknowledgedIsArchived, given no collision among the texts that arrive. */
  lemma ArchiveFirstAcknowledged(cfg: Config, first: seq<Event>, later: seq<Event>, id: nat)
    requires cfg.archiveFirst && CollisionFreeAmong(cfg, Texts(first + later)) && WellFormedEvents(cfg, first + later)
    requires id in Run(cfg, EMPTY_SYSTEM, first).procs
    requires Sequential.Acknowledges(Run(cfg, EMPTY_SYSTEM, first).procs[id])
    ensures AF.Archived(Run(cfg, EMPTY_SYSTEM, first + later).world.objects, Run(cfg, EMPTY_SYSTEM, first).procs[id].q)
  {
    var texts := Texts(first + later);
    TextsOfParts(first, later);
    FromEmpty(cfg, texts, first);
    FromEmpty(cfg, texts, first + later);
    FreeAmong(cfg, texts);
    Acknowledged.AcknowledgedIsArchived(Among(cfg, texts), first, later, id);
  }

  /** Acknowledged.AnswersHold, given no collision among the texts that arrive. */
  lemma ArchiveFirstAnswers(cfg: Config, first: seq<Event>, later: seq<Event>, id: nat)
    requires cfg.archiveFirst && CollisionFreeAmong(cfg, Texts(first + later)) && WellFormedEvents(cfg, first + later)
    requires id in Run(cfg, EMPTY_SYSTEM, first).procs
    requires Run(cfg, EMPTY_SYSTEM, first).procs[id].Ingesting? && Run(cfg, EMPTY_SYSTEM, first).procs[id].pc.Done?
    ensures var p := Run(cfg, EMPTY_SYSTEM, first).procs[id];
            Acknowledged.OutcomeBacked(Run(cfg, EMPTY_SYSTEM, first + later).world.objects, p.q, p.pc.outcome)
  {
    var texts := Texts(first + later);
    TextsOfParts(first, later);
    FromEmpty(cfg, texts, first);
    FromEmpty(cfg, texts, first + later);
    FreeAmong(cfg, texts);
    Acknowledged.AnswersHold(Among(cfg, texts), first, later, id);
  }

  lemma MarksMeetAmong(cfg: Config, texts: set<Text>, events: seq<Event>)
    requires Texts(events) <= texts
    ensures Lasting.MarksMeet(Among(cfg, texts), events) <==> Lasting.MarksMeet(cfg, events)
  {
    forall n | 0 <= n < |events|
      ensures Agreement.MeetsAt(Among(cfg, texts), events, n) <==> Agreement.MeetsAt(cfg, events, n)
    {
      TextsOfParts(events[..n], events[n..]);
      assert events[..n] + events[n..] == events;
      RunAmong(cfg, texts, EMPTY_SYSTEM, events[..n]);
    }
  }

  /**
   Lasting.AnswersAreRightExactly, given no collision among some texts with those that arrive among them,
   about requests with those texts.
   */
  lemma AnswersAreRightExactly(cfg: Config, texts: set<Text>, events: seq<Event>)
    requires !cfg.archiveFirst && Texts(events) <= texts && CollisionFreeAmong(cfg, texts)
    requires WellFormedEvents(cfg, events)
    ensures (forall n | 0 <= n <= |events| :: Lasting.RightAt(Among(cfg, texts), events, n))
            <==> Lasting.MarksMeet(cfg, events)
  {
    FreeAmong(cfg, texts);
    FromEmpty(cfg, texts, events);
    MarksMeetAmong(cfg, texts, events);
    Lasting.AnswersAreRightExactly(Among(cfg, texts), events);
  }

  /** Lasting.AcknowledgedIsArchived, given no collision among the texts that arrive. */
  lemma LedgerFirstAcknowledged(cfg: Config, first: seq<Event>, later: seq<Event>, id: nat)
    requires !cfg.archiveFirst && CollisionFreeAmong(cfg, Texts(first)) && WellFormedEvents(cfg, first)
    requires Lasting.MarksMeet(cfg, first) && id in Run(cfg, EMPTY_SYSTEM, first).procs
    requires Sequential.Acknowledges(Run(cfg, EMPTY_SYSTEM, first).procs[id])
    ensures LF.FinalHolds(Run(cfg, EMPTY_SYSTEM, first + later).world.objects,
                          Run(cfg, EMPTY_SYSTEM, first).procs[id].q)
  {
    var texts := Texts(first);
    FromEmpty(cfg, texts, first);
    MarksMeetAmong(cfg, texts, first);
    FreeAmong(cfg, texts);
    assert first + [] == first;
    Lasting.AcknowledgedIsArchived(Among(cfg, texts), first, [], id);
    Lasting.RunKeepsFinals(cfg, Run(cfg, EMPTY_SYSTEM, first), later);
    RunAppend(cfg, EMPTY_SYSTEM, first, later);
  }

  lemma {:induction false} FinishAmong(cfg: Config, texts: set<Text>, w: World, q: Request, pc: Pc)
    ensures Repair.Finish(Among(cfg, texts), w, q, pc) == Repair.Finish(cfg, w, q, pc)
    decreases Rank(pc)
  {
    if !pc.Done? {
      StepDescends(cfg, q, w, pc, Works);
      IngestStepAmong(cfg, texts, q, w, pc, Works);
      var (v, next) := IngestStep(cfg, q, w, pc, Works);
      FinishAmong(cfg, texts, v, q, next);
    }
  }

  /**
   Repair.ArchiveFirstRepair and LedgerFirstRepair, given no collision among the texts that arrive, the last
   one included.
   */
  lemma RunRepair(cfg: Config, events: seq<Event>, q: Request)
    requires CollisionFreeAmong(cfg, Texts(events) + {q.text}) && WellFormedEvents(cfg, events)
    requires WellFormed(cfg, q) && q.verified && (cfg.archiveFirst || LF.NoRetention(events))
    ensures var w := Run(cfg, EMPTY_SYSTEM, events).world;
            && Repair.Repaired(cfg, w, q)
            && (cfg.archiveFirst && !Repair.Taken(w, q) ==>
                  AF.Archived(Repair.Finish(cfg, w, q, Begin(q)).0.objects, q))
  {
    var texts := Texts(events) + {q.text};
    FreeAmong(cfg, texts);
    FromEmpty(cfg, texts, events);
    FinishAmong(cfg, texts, Run(cfg, EMPTY_SYSTEM, events).world, q, Begin(q));
    if cfg.archiveFirst {
      Repair.ArchiveFirstRepair(Among(cfg, texts), events, q);
    } else {
      Repair.LedgerFirstRepair(Among(cfg, texts), events, q);
    }
  }

  lemma ApartAmong(cfg: Config, events: seq<Event>)
    requires Agreement.NeverOverlap(cfg, EMPTY_SYSTEM, events)
    ensures Agreement.NeverOverlap(Among(cfg, Texts(events)), EMPTY_SYSTEM, events)
  {
    var only := Among(cfg, Texts(events));
    forall n | 0 <= n <= |events|
      ensures Agreement.Apart(Run(only, EMPTY_SYSTEM, events[..n]))
    {
      TextsOfParts(events[..n], events[n..]);
      assert events[..n] + events[n..] == events;
      RunAmong(cfg, Texts(events), EMPTY_SYSTEM, events[..n]);
      assert Agreement.Apart(Run(cfg, EMPTY_SYSTEM, events[..n]));
    }
  }

  /** Agreement.LedgerFirstAgrees, given no collision among the texts that arrive. */
  lemma LedgerFirstAgrees(cfg: Config, events: seq<Event>)
    requires !cfg.archiveFirst && CollisionFreeAmong(cfg, Texts(events)) && WellFormedEvents(cfg, events)
    requires Agreement.NeverOverlap(cfg, EMPTY_SYSTEM, events)
    ensures Agreement.AllAgree(cfg, Run(cfg, EMPTY_SYSTEM, events).world)
  {
    FreeAmong(cfg, Texts(events));
    FromEmpty(cfg, Texts(events), events);
    ApartAmong(cfg, events);
    Agreement.LedgerFirstAgrees(Among(cfg, Texts(events)), events);
    AgreesAmong(cfg, Texts(events), Run(cfg, EMPTY_SYSTEM, events).world);
  }

  lemma AgreesAmong(cfg: Config, texts: set<Text>, w: World)
    requires Agreement.AllAgree(Among(cfg, texts), w)
    ensures Agreement.AllAgree(cfg, w)
  {
  }

  /** Lasting.AnswersHold, given no collision among the texts that arrive. */
  lemma LedgerFirstAnswers(cfg: Config, first: seq<Event>, later: seq<Event>, id: nat)
    requires !cfg.archiveFirst && CollisionFreeAmong(cfg, Texts(first + later)) && WellFormedEvents(cfg, first + later)
    requires Lasting.MarksMeet(cfg, first) && id in Run(cfg, EMPTY_SYSTEM, first).procs
    requires Run(cfg, EMPTY_SYSTEM, first).procs[id].Ingesting? && Run(cfg, EMPTY_SYSTEM, first).procs[id].pc.Done?
    ensures var p := Run(cfg, EMPTY_SYSTEM, first).procs[id];
            Lasting.OutcomeBacked(Run(cfg, EMPTY_SYSTEM, first + later).world.objects, p.q, p.pc.outcome)
  {
    var texts := Texts(first + later);
    TextsOfParts(first, later);
    FromEmpty(cfg, texts, first);
    FromEmpty(cfg, texts, first + later);
    MarksMeetAmong(cfg, texts, first);
    FreeAmong(cfg, texts);
    Lasting.AnswersHold(Among(cfg, texts), first, later, id);
  }

  /* ---------- Sequential histories ---------- */

  function JobTexts(jobs: seq<Sequential.Job>): set<Text> {
    set j | j in jobs && j.start.Ingesting? :: j.start.q.text
  }

  lemma {:induction false} WalkAmong(cfg: Config, texts: set<Text>, w: World, p: Process, faults: seq<Fault>)
    requires RowsIn(w.tables.rows, texts) && ProcessIn(p, texts)
    ensures Walk(Among(cfg, texts), w, p, faults) == Walk(cfg, w, p, faults)
    ensures Walk(cfg, w, p, faults).Some? ==>
              && RowsIn(Walk(cfg, w, p, faults).value.0.tables.rows, texts)
              && ProcessIn(Walk(cfg, w, p, faults).value.1, texts)
  {
    if faults != [] {
      var init := faults[..|faults| - 1];
      WalkAmong(cfg, texts, w, p, init);
      if Walk(cfg, w, p, init).Some? {
        var (v, next) := Walk(cfg, w, p, init).value;
        StepAmong(cfg, texts, v, next, faults[|faults| - 1]);
      }
    }
  }

  lemma {:induction false} PlayAmong(cfg: Config, texts: set<Text>, jobs: seq<Sequential.Job>)
    requires JobTexts(jobs) <= texts && forall j | j in jobs :: Sequential.JobOk(cfg, j)
    ensures Sequential.Play(Among(cfg, texts), EMPTY_WORLD, jobs) == Sequential.Play(cfg, EMPTY_WORLD, jobs)
    ensures RowsIn(Sequential.Play(cfg, EMPTY_WORLD, jobs).tables.rows, texts)
    ensures forall j | j in jobs :: Sequential.JobOk(Among(cfg, texts), j)
  {
    if jobs != [] {
      var init, last := jobs[..|jobs| - 1], jobs[|jobs| - 1];
      assert last in jobs && forall j | j in init :: j in jobs;
      assert last.start.Ingesting? ==> last.start.q.text in JobTexts(jobs);
      assert JobTexts(init) <= JobTexts(jobs);
      PlayAmong(cfg, texts, init);
      WalkAmong(cfg, texts, Sequential.Play(cfg, EMPTY_WORLD, init), last.start, last.faults);
      forall j | j in jobs
        ensures Sequential.JobOk(Among(cfg, texts), j)
      {
        assert j.start.Ingesting? ==> j.start.q.text in JobTexts(jobs);
      }
    }
  }

  /** Sequential.Durability, given no collision among the texts that arrive. */
  lemma Durability(cfg: Config, before: seq<Sequential.Job>, q: Request, faults: seq<Fault>, after: seq<Sequential.Job>)
    requires CollisionFreeAmong(cfg, JobTexts(before + [Sequential.IngestJob(q, faults)] + after))
    requires forall j | j in before + [Sequential.IngestJob(q, faults)] + after :: Sequential.JobOk(cfg, j)
    requires Sequential.Acknowledges(
               Sequential.PlayJob(cfg, Sequential.Play(cfg, EMPTY_WORLD, before), Sequential.IngestJob(q, faults)).1)
    ensures var ack := Sequential.Play(cfg, EMPTY_WORLD, before + [Sequential.IngestJob(q, faults)]);
            var end := Sequential.Play(cfg, EMPTY_WORLD, before + [Sequential.IngestJob(q, faults)] + after);
            && Sequential.StoredFor(ack, q) && AF.Archived(end.objects, q)
            && var row := Find(ack.tables.rows, q.eventId).value;
               row in end.tables.rows
               || (!Sequential.HasId(end.tables.rows, row.id) && !Sequential.AboveFloor(end.tables.watermark, row.id))
  {
    var job := Sequential.IngestJob(q, faults);
    var texts := JobTexts(before + [job] + after);
    var only := Among(cfg, texts);
    FreeAmong(cfg, texts);
    JobTextsOfParts(before, [job]);
    JobTextsOfParts(before + [job], after);
    PlayAmong(cfg, texts, before);
    PlayAmong(cfg, texts, before + [job]);
    PlayAmong(cfg, texts, before + [job] + after);
    var start := Sequential.Play(cfg, EMPTY_WORLD, before);
    assert job in before + [job] + after && q.text in texts;
    WalkAmong(cfg, texts, start, job.start, faults);
    Sequential.Durability(only, before, q, faults, after);
    assert (before + [job])[..|before|] == before;
    Sequential.PlayAppend(only, EMPTY_WORLD, before + [job], after);
  }

  lemma JobTextsOfParts(a: seq<Sequential.Job>, b: seq<Sequential.Job>)
    ensures JobTexts(a) <= JobTexts(a + b) && JobTexts(b) <= JobTexts(a + b)
    ensures (forall j | j in a :: j in a + b) && (forall j | j in b :: j in a + b)
  {
  }

  /** Repair.SequentialRepair, given no collision among the texts that arrive, the last one included. */
  lemma SequentialRepair(cfg: Config, jobs: seq<Sequential.Job>, q: Request)
    requires CollisionFreeAmong(cfg, JobTexts(jobs) + {q.text})
    requires (forall j | j in jobs :: Sequential.JobOk(cfg, j)) && WellFormed(cfg, q) && q.verified
    ensures var w := Sequential.Play(cfg, EMPTY_WORLD, jobs);
            var (end, outcome) := Repair.Finish(cfg, w, q, Begin(q));
            if Repair.Taken(w, q) then Repair.Rejected(cfg, w, q, end, outcome) else Repair.Repaired(cfg, w, q)
  {
    var texts := JobTexts(jobs) + {q.text};
    FreeAmong(cfg, texts);
    PlayAmong(cfg, texts, jobs);
    FinishAmong(cfg, texts, Sequential.Play(cfg, EMPTY_WORLD, jobs), q, Begin(q));
    Repair.SequentialRepair(Among(cfg, texts), jobs, q);
  }

  /** Agreement.SequentialAgrees, given no collision among the texts that arrive. */
  lemma SequentialAgrees(cfg: Config, jobs: seq<Sequential.Job>)
    requires CollisionFreeAmong(cfg, JobTexts(jobs)) && forall j | j in jobs :: Sequential.JobOk(cfg, j)
    ensures Agreement.AllAgree(cfg, Sequential.Play(cfg, EMPTY_WORLD, jobs))
  {
    FreeAmong(cfg, JobTexts(jobs));
    PlayAmong(cfg, JobTexts(jobs), jobs);
    Agreement.SequentialAgrees(Among(cfg, JobTexts(jobs)), jobs);
    AgreesAmong(cfg, JobTexts(jobs), Sequential.Play(cfg, EMPTY_WORLD, jobs));
  }

  /* ---------- Replay over such histories ---------- */

  lemma WorldAmong(cfg: Config, jobs: seq<Sequential.Job>, n: nat)
    requires n <= |jobs| && forall j | j in jobs :: Sequential.JobOk(cfg, j)
    ensures WorldAt(Among(cfg, JobTexts(jobs)), jobs, n) == WorldAt(cfg, jobs, n)
  {
    JobTextsOfParts(jobs[..n], jobs[n..]);
    assert jobs[..n] + jobs[n..] == jobs;
    PlayAmong(cfg, JobTexts(jobs), jobs[..n]);
  }

  /** Replay.NoSilentGap, given no collision among the texts that arrive. */
  lemma NoSilentGap(cfg: Config, jobs: seq<Sequential.Job>, cuts: seq<nat>, limits: seq<nat>, filter: Filter,
                    start: nat, m: nat, r: Row)
    returns (i: nat)
    requires CollisionFreeAmong(cfg, JobTexts(jobs)) && (forall j | j in jobs :: Sequential.JobOk(cfg, j))
    requires m <= |jobs|
    requires |cuts| == |limits| && (forall k | 0 <= k < |cuts| :: cuts[k] <= |jobs| && limits[k] > 0)
    requires r in WorldAt(cfg, jobs, m).tables.rows && Replayable(r, None, filter)
    requires start < r.id <= Consume(VisitsAt(cfg, jobs, cuts, limits), filter, start, |cuts|).cursor
    ensures var visits := VisitsAt(cfg, jobs, cuts, limits);
            && i < |cuts|
            && Consume(visits, filter, start, i).cursor < r.id <= Consume(visits, filter, start, i + 1).cursor
            && (m <= cuts[i] ==> r in Consume(visits, filter, start, |cuts|).delivered)
  {
    var only := Among(cfg, JobTexts(jobs));
    FreeAmong(cfg, JobTexts(jobs));
    PlayAmong(cfg, JobTexts(jobs), jobs);
    forall n | 0 <= n <= |jobs|
      ensures WorldAt(only, jobs, n) == WorldAt(cfg, jobs, n)
    {
      WorldAmong(cfg, jobs, n);
    }
    assert VisitsAt(only, jobs, cuts, limits) == VisitsAt(cfg, jobs, cuts, limits);
    i := Replay.NoSilentGap(only, jobs, cuts, limits, filter, start, m, r);
  }

  /** Replay.RefusedExactly, given no collision among the texts that arrive. */
  lemma RefusedExactly(cfg: Config, jobs: seq<Sequential.Job>, m: nat, n: nat, c: nat, filter: Filter, limit: nat)
    requires CollisionFreeAmong(cfg, JobTexts(jobs)) && (forall j | j in jobs :: Sequential.JobOk(cfg, j))
    requires m <= n <= |jobs| && limit > 0
    requires ReplayEvents(WorldAt(cfg, jobs, m).tables, Some(c), filter, limit).Ok?
    ensures ReplayEvents(WorldAt(cfg, jobs, n).tables, Some(c), filter, limit).Err?
            <==> exists k, r :: m <= k < n && Missing(cfg, jobs, k, n, c, r)
  {
    var only := Among(cfg, JobTexts(jobs));
    FreeAmong(cfg, JobTexts(jobs));
    PlayAmong(cfg, JobTexts(jobs), jobs);
    forall k | 0 <= k <= |jobs|
      ensures WorldAt(only, jobs, k) == WorldAt(cfg, jobs, k)
    {
      WorldAmong(cfg, jobs, k);
    }
    assert forall k, r | m <= k < n :: Missing(only, jobs, k, n, c, r) <==> Missing(cfg, jobs, k, n, c, r);
    Replay.RefusedExactly(only, jobs, m, n, c, filter, limit);
  }

  /* ---------- A batch after such a history ---------- */

  /** The items as they come, and the canonical texts of those that decode. */
  function ItemTexts(cfg: Config, items: seq<Text>): set<Text> {
    (set i | i in items) + (set i | i in items && cfg.read(i).Some? :: cfg.read(i).value.text)
  }

  lemma ItemAmong(cfg: Config, texts: set<Text>, w: World, item: Text, faults: seq<Fault>)
    requires RowsIn(w.tables.rows, texts) && item in texts
    requires cfg.read(item).Some? ==> cfg.read(item).value.text in texts
    ensures Batch.ItemWalk(Among(cfg, texts), w, item, faults) == Batch.ItemWalk(cfg, w, item, faults)
    ensures Batch.ItemWalk(cfg, w, item, faults).Some? ==>
              RowsIn(Batch.ItemWalk(cfg, w, item, faults).value.0.tables.rows, texts)
  {
    if cfg.read(item).Some? {
      WalkAmong(cfg, texts, w, Ingesting(cfg.read(item).value, Begin(cfg.read(item).value)), faults);
    }
  }

  lemma {:induction false} BatchAmong(cfg: Config, texts: set<Text>, w: World, items: seq<Text>,
                                      faults: seq<seq<Fault>>)
    requires |faults| == |items| && RowsIn(w.tables.rows, texts) && ItemTexts(cfg, items) <= texts
    ensures Batch.BatchWalk(Among(cfg, texts), w, items, faults) == Batch.BatchWalk(cfg, w, items, faults)
    ensures Batch.BatchWalk(cfg, w, items, faults).Some? ==>
              RowsIn(Batch.BatchWalk(cfg, w, items, faults).value.0.tables.rows, texts)
  {
    if items != [] {
      var n := |items| - 1;
      assert items[n] in ItemTexts(cfg, items);
      assert cfg.read(items[n]).Some? ==> cfg.read(items[n]).value.text in ItemTexts(cfg, items);
      assert ItemTexts(cfg, items[..n]) <= ItemTexts(cfg, items);
      BatchAmong(cfg, texts, w, items[..n], faults[..n]);
      var before := Batch.BatchWalk(cfg, w, items[..n], faults[..n]);
      if before.Some? {
        ItemAmong(cfg, texts, before.value.0, items[n], faults[n]);
      }
    }
  }

  /** What the theorems about batches need of the restricted service, after a history. */
  lemma BatchSetting(cfg: Config, texts: set<Text>, jobs: seq<Sequential.Job>, items: seq<Text>,
                     faults: seq<seq<Fault>>)
    requires JobTexts(jobs) <= texts && ItemTexts(cfg, items) <= texts && CollisionFreeAmong(cfg, texts)
    requires (forall j | j in jobs :: Sequential.JobOk(cfg, j)) && |faults| == |items|
    ensures var only, w := Among(cfg, texts), Sequential.Play(cfg, EMPTY_WORLD, jobs);
            && CollisionFree(only) && Sequential.WorldOk(only, w)
            && Batch.BatchWalk(only, w, items, faults) == Batch.BatchWalk(cfg, w, items, faults)
  {
    FreeAmong(cfg, texts);
    PlayAmong(cfg, texts, jobs);
    BatchAmong(cfg, texts, Sequential.Play(cfg, EMPTY_WORLD, jobs), items, faults);
    EmptyOk(Among(cfg, texts));
    Sequential.PlayKeeps(Among(cfg, texts), EMPTY_WORLD, jobs);
  }

  lemma EmptyOk(cfg: Config)
    ensures Sequential.WorldOk(cfg, EMPTY_WORLD)
  {
  }

  lemma ItemsAmong(cfg: Config, texts: set<Text>, items: seq<Text>)
    requires ItemTexts(cfg, items) <= texts && Batch.ItemsOk(cfg, items)
    ensures Batch.ItemsOk(Among(cfg, texts), items)
    ensures forall item | item in items :: Among(cfg, texts).read(item) == cfg.read(item)
  {
    forall item | item in items
      ensures item in texts && (cfg.read(item).Some? ==> cfg.read(item).value.text in texts)
    {
      assert item in ItemTexts(cfg, items);
      assert cfg.read(item).Some? ==> cfg.read(item).value.text in ItemTexts(cfg, items);
    }
  }

  /** Batch.AfterAccepted after any history, given no collision among the texts of both. */
  lemma AfterAccepted(cfg: Config, jobs: seq<Sequential.Job>, items: seq<Text>, faults: seq<seq<Fault>>, i: nat, j: nat)
    requires CollisionFreeAmong(cfg, JobTexts(jobs) + ItemTexts(cfg, items))
    requires (forall j | j in jobs :: Sequential.JobOk(cfg, j)) && Batch.ItemsOk(cfg, items)
    requires |faults| == |items| && i < j < |items|
    requires cfg.read(items[i]).Some? && cfg.read(items[j]).Some? && cfg.read(items[j]).value.verified
    requires cfg.read(items[i]).value.eventId == cfg.read(items[j]).value.eventId
    requires var end := Batch.BatchWalk(cfg, Sequential.Play(cfg, EMPTY_WORLD, jobs), items, faults);
             end.Some? && j < |end.value.1| && Batch.AcceptedItem(end.value.1[i].status)
    ensures var w := Sequential.Play(cfg, EMPTY_WORLD, jobs);
            var status := Batch.BatchWalk(cfg, w, items, faults).value.1[j].status;
            || status == (if cfg.read(items[j]).value.text == cfg.read(items[i]).value.text
                          then Batch.ItemDuplicate else Batch.ItemConflict)
            || (!Clean(faults[j]) && status == Batch.ItemFailed)
  {
    var texts := JobTexts(jobs) + ItemTexts(cfg, items);
    var only, w := Among(cfg, texts), Sequential.Play(cfg, EMPTY_WORLD, jobs);
    BatchSetting(cfg, texts, jobs, items, faults);
    ItemsAmong(cfg, texts, items);
    Batch.AfterAccepted(only, w, items, faults, i, j);
  }

  /** Statuses.FirstItem after any history, given no collision among the texts of both. */
  lemma FirstItem(cfg: Config, jobs: seq<Sequential.Job>, items: seq<Text>, faults: seq<seq<Fault>>, i: nat)
    requires CollisionFreeAmong(cfg, JobTexts(jobs) + ItemTexts(cfg, items))
    requires (forall j | j in jobs :: Sequential.JobOk(cfg, j)) && Batch.ItemsOk(cfg, items)
    requires |faults| == |items| && i < |items| && Clean(faults[i])
    requires Batch.BatchWalk(cfg, Sequential.Play(cfg, EMPTY_WORLD, jobs), items, faults).Some?
    requires cfg.read(items[i]).Some? && cfg.read(items[i]).value.verified
    requires Statuses.NoneBefore(cfg, items, i, cfg.read(items[i]).value.eventId)
    ensures var w, q := Sequential.Play(cfg, EMPTY_WORLD, jobs), cfg.read(items[i]).value;
            var results := Batch.BatchWalk(cfg, w, items, faults).value.1;
            && |results| == |items| && results[i].eventId == Some(q.eventId)
            && Statuses.Due(w, q, results[i].status)
  {
    var texts := JobTexts(jobs) + ItemTexts(cfg, items);
    var only, w := Among(cfg, texts), Sequential.Play(cfg, EMPTY_WORLD, jobs);
    BatchSetting(cfg, texts, jobs, items, faults);
    ItemsAmong(cfg, texts, items);
    Statuses.FirstItem(only, w, items, faults, i);
  }
}
