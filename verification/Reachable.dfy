/** Short runs from empty stores, and the states they reach: what the counterexamples start from. */
module Reachable {
  import opened Wrappers
  import opened Faults
  import opened Requests
  import opened Storage
  import opened Ledger
  import opened Machine
  import opened System
  import opened Repair

  /* ---------- Letting one process run ---------- */

  /** A process n working store calls further on. */
  function Ahead(cfg: Config, w: World, p: Process, n: nat): (World, Process)
    decreases n
  {
    if n == 0 then (w, p) else var (w', p') := Step(cfg, w, p, Works); Ahead(cfg, w', p', n - 1)
  }

  function Advances(id: nat, n: nat): seq<Event> {
    seq(n, _ => Advance(id, Works))
  }

  lemma {:induction false} RunAhead(cfg: Config, s: System, id: nat, n: nat)
    requires id in s.procs
    ensures var (w, p) := Ahead(cfg, s.world, s.procs[id], n);
            Run(cfg, s, Advances(id, n)) == System(w, s.procs[id := p])
    decreases n
  {
    if n == 0 {
      assert s.procs[id := s.procs[id]] == s.procs;
    } else {
      var s' := Apply(cfg, s, Advance(id, Works));
      RunAhead(cfg, s', id, n - 1);
      assert Advances(id, n) == [Advance(id, Works)] + Advances(id, n - 1);
      RunFirst(cfg, s, Advance(id, Works), Advances(id, n - 1));
      var p := Ahead(cfg, s'.world, s'.procs[id], n - 1).1;
      assert s'.procs[id := p] == s.procs[id := p];
    }
  }

  lemma RunPlaced(cfg: Config, w: World, procs: map<nat, Process>, id: nat, p: Process, n: nat)
    ensures var (v, p') := Ahead(cfg, w, p, n);
            Run(cfg, System(w, procs[id := p]), Advances(id, n)) == System(v, procs[id := p'])
  {
    RunAhead(cfg, System(w, procs[id := p]), id, n);
    var p' := Ahead(cfg, w, p, n).1;
    assert procs[id := p][id := p'] == procs[id := p'];
  }

  /** One run after another, both with requests the code forms. */
  lemma RunsOn(cfg: Config, s: System, first: seq<Event>, later: seq<Event>)
    requires WellFormedEvents(cfg, first) && WellFormedEvents(cfg, later)
    ensures WellFormedEvents(cfg, first + later)
    ensures Run(cfg, s, first + later) == Run(cfg, Run(cfg, s, first), later)
  {
    RunAppend(cfg, s, first, later);
  }

  /** A process arrives and makes n calls. */
  lemma RunSpawned(cfg: Config, s: System, e: Event, id: nat, p: Process, n: nat)
    requires Apply(cfg, s, e) == System(s.world, s.procs[id := p])
    ensures var (w, p') := Ahead(cfg, s.world, p, n); Run(cfg, s, [e] + Advances(id, n)) == System(w, s.procs[id := p'])
  {
    RunFirst(cfg, s, e, Advances(id, n));
    RunPlaced(cfg, s.world, s.procs, id, p, n);
  }

  /** And then it dies, or has been done and is forgotten. */
  lemma RunForgotten(cfg: Config, s: System, e: Event, id: nat, p: Process, n: nat)
    requires id !in s.procs && Apply(cfg, s, e) == System(s.world, s.procs[id := p])
    ensures Run(cfg, s, [e] + Advances(id, n) + [Die(id)]) == System(Ahead(cfg, s.world, p, n).0, s.procs)
  {
    RunSpawned(cfg, s, e, id, p, n);
    RunThen(cfg, s, [e] + Advances(id, n), Die(id));
    var p' := Ahead(cfg, s.world, p, n).1;
    assert s.procs[id := p'] - {id} == s.procs;
  }

  lemma {:induction false} FinishIsAhead(cfg: Config, w: World, q: Request, pc: Pc) returns (n: nat)
    ensures var (v, outcome) := Finish(cfg, w, q, pc);
            Ahead(cfg, w, Ingesting(q, pc), n) == (v, Ingesting(q, Done(outcome)))
    decreases Rank(pc)
  {
    n := 0;
    if !pc.Done? {
      StepDescends(cfg, q, w, pc, Works);
      var (w', pc') := IngestStep(cfg, q, w, pc, Works);
      var m := FinishIsAhead(cfg, w', q, pc');
      n := m + 1;
    }
  }

  /* ---------- Whole ingests ---------- */

  ghost predicate Proper(cfg: Config, q: Request) {
    WellFormed(cfg, q) && q.verified
  }

  /** The stores after a new event has been ingested. */
  function Ingested(w: World, q: Request): World {
    MarkedStored(World(Create(w.tables, q), Agreed(q, w.objects)), q)
  }

  /** A new event is ingested under some process id, and the process is forgotten. */
  lemma IngestsNew(cfg: Config, s: System, id: nat, q: Request) returns (events: seq<Event>)
    requires Proper(cfg, q) && id !in s.procs
    requires TablesOk(s.world.tables) && Open(s.world.objects, q) && Find(s.world.tables.rows, q.eventId).None?
    ensures WellFormedEvents(cfg, events)
    ensures Run(cfg, s, events) == System(Ingested(s.world, q), s.procs)
  {
    FinishNew(cfg, s.world, q);
    var n := FinishIsAhead(cfg, s.world, q, Looking);
    RunForgotten(cfg, s, Arrive(id, q), id, Ingesting(q, Looking), n);
    events := [Arrive(id, q)] + Advances(id, n) + [Die(id)];
  }

  /** The rows of two events ingested one after the other. */
  function RowOf(id: nat, q: Request): Row {
    StoredRow(NewRow(id, q), Uri(q.finalKey))
  }

  function Two(x: Request, y: Request): World {
    Ingested(Ingested(EMPTY_WORLD, x), y)
  }

  lemma OneTable(x: Request)
    ensures var t := Ingested(EMPTY_WORLD, x).tables;
            t.rows == [RowOf(1, x)] && t.nextId == 2 && t.watermark.None? && TablesOk(t)
  {
  }

  /** A second event joins a table of one row. */
  lemma SecondTable(t: Tables, r: Row, y: Request)
    requires t.rows == [r] && t.nextId == 2 && r.id == 1 && r.eventId != y.eventId
    ensures TablesOk(t) && Find(t.rows, y.eventId).None?
    ensures var u := SetStored(Create(t, y), y.eventId, Uri(y.finalKey));
            u.rows == [r, RowOf(2, y)] && u.watermark == t.watermark && TablesOk(u)
    ensures Find([r, RowOf(2, y)], r.eventId) == Some(r)
  {
  }

  lemma TwoObjects(cfg: Config, x: Request, y: Request)
    requires Proper(cfg, x) && Proper(cfg, y) && x.eventId != y.eventId
    ensures Open(Ingested(EMPTY_WORLD, x).objects, y)
    ensures Confirmed(cfg, Two(x, y).objects, RowOf(1, x)) && Confirmed(cfg, Two(x, y).objects, RowOf(2, y))
  {
  }

  /** From empty stores: two events stored, nobody at work. */
  lemma ReachesTwo(cfg: Config, x: Request, y: Request) returns (events: seq<Event>)
    requires Proper(cfg, x) && Proper(cfg, y) && x.eventId != y.eventId
    ensures WellFormedEvents(cfg, events)
    ensures Run(cfg, EMPTY_SYSTEM, events) == System(Two(x, y), map[])
  {
    OneTable(x);
    TwoObjects(cfg, x, y);
    var first := IngestsNew(cfg, EMPTY_SYSTEM, 1, x);
    var second := IngestsNew(cfg, System(Ingested(EMPTY_WORLD, x), map[]), 1, y);
    events := first + second;
    RunsOn(cfg, EMPTY_SYSTEM, first, second);
  }

  /* ---------- An ingest cut short ---------- */

  /** The bytes are archived, the row is inserted and not yet marked. */
  function Unmarked(x: Request): World {
    World(Create(EMPTY_TABLES, x), Agreed(x, map[]))
  }

  /** How many calls that takes, and where the request is then. */
  function CallsToUnmarked(cfg: Config): nat {
    if cfg.archiveFirst then 4 else 8
  }

  function AtUnmarked(cfg: Config, x: Request): Pc {
    if cfg.archiveFirst then Rereading(Some(Uri(x.finalKey))) else Marking(Uri(x.finalKey))
  }

  lemma UnmarkedTable(x: Request)
    ensures var t := Unmarked(x).tables;
            t.rows == [NewRow(1, x)] && t.nextId == 2 && TablesOk(t) && Find(t.rows, x.eventId) == Some(NewRow(1, x))
  {
  }

  lemma AheadStep(cfg: Config, w: World, p: Process, n: nat)
    requires n > 0
    ensures Ahead(cfg, w, p, n) == var (w', p') := Step(cfg, w, p, Works); Ahead(cfg, w', p', n - 1)
  {
  }

  lemma UnmarkedOnS3(cfg: Config, x: Request)
    requires cfg.archiveFirst && Proper(cfg, x)
    ensures Ahead(cfg, EMPTY_WORLD, Ingesting(x, Looking), 4) == (Unmarked(x), Ingesting(x, AtUnmarked(cfg, x)))
  {
  }

  /** Ledger-first, the row is inserted and read back, and the guard is about to be written. */
  function Claimed(x: Request): World {
    World(Create(EMPTY_TABLES, x), map[])
  }

  lemma ClaimsOnDisk(cfg: Config, x: Request, n: nat)
    requires !cfg.archiveFirst && Proper(cfg, x) && n >= 3
    ensures Ahead(cfg, EMPTY_WORLD, Ingesting(x, Looking), n)
            == Ahead(cfg, Claimed(x), Ingesting(x, Writing(true, Check(Guard, false))), n - 3)
  {
    ClaimSteps(cfg, x);
    AheadStep(cfg, EMPTY_WORLD, Ingesting(x, Looking), n);
    AheadStep(cfg, EMPTY_WORLD, Ingesting(x, Creating(None)), n - 1);
    AheadStep(cfg, Claimed(x), Ingesting(x, Rereading(None)), n - 2);
  }

  lemma ClaimSteps(cfg: Config, x: Request)
    requires !cfg.archiveFirst && Proper(cfg, x)
    ensures Step(cfg, EMPTY_WORLD, Ingesting(x, Looking), Works) == (EMPTY_WORLD, Ingesting(x, Creating(None)))
    ensures Step(cfg, EMPTY_WORLD, Ingesting(x, Creating(None)), Works) == (Claimed(x), Ingesting(x, Rereading(None)))
    ensures Step(cfg, Claimed(x), Ingesting(x, Rereading(None)), Works)
            == (Claimed(x), Ingesting(x, Writing(true, Check(Guard, false))))
  {
    UnmarkedTable(x);
  }

  /** The guard is there, the final is not. */
  function Guarded(x: Request): World {
    World(Create(EMPTY_TABLES, x), map[GuardKey(x.eventId) := x.text])
  }

  lemma GuardsOnDisk(cfg: Config, x: Request, n: nat)
    requires !cfg.archiveFirst && Proper(cfg, x) && n >= 5
    ensures Ahead(cfg, EMPTY_WORLD, Ingesting(x, Looking), n)
            == Ahead(cfg, Guarded(x), Ingesting(x, Writing(true, Check(Final, true))), n - 5)
  {
    ClaimsOnDisk(cfg, x, n);
    AheadStep(cfg, Claimed(x), Ingesting(x, Writing(true, Check(Guard, false))), n - 3);
    AheadStep(cfg, Claimed(x), Ingesting(x, Writing(true, Link(Guard, false))), n - 4);
  }

  lemma UnmarkedOnDisk(cfg: Config, x: Request)
    requires !cfg.archiveFirst && Proper(cfg, x)
    ensures Ahead(cfg, EMPTY_WORLD, Ingesting(x, Looking), 8) == (Unmarked(x), Ingesting(x, AtUnmarked(cfg, x)))
  {
  }

  lemma AheadToUnmarked(cfg: Config, x: Request)
    requires Proper(cfg, x)
    ensures Ahead(cfg, EMPTY_WORLD, Ingesting(x, Looking), CallsToUnmarked(cfg))
            == (Unmarked(x), Ingesting(x, AtUnmarked(cfg, x)))
  {
    if cfg.archiveFirst {
      UnmarkedOnS3(cfg, x);
    } else {
      UnmarkedOnDisk(cfg, x);
    }
  }

  /** From empty stores: one request that has come that far, or has died there. */
  lemma ReachesUnmarked(cfg: Config, x: Request) returns (events: seq<Event>, dead: seq<Event>)
    requires Proper(cfg, x)
    ensures Run(cfg, EMPTY_SYSTEM, events) == System(Unmarked(x), map[1 := Ingesting(x, AtUnmarked(cfg, x))])
    ensures Run(cfg, EMPTY_SYSTEM, dead) == System(Unmarked(x), map[])
    ensures dead == events + [Die(1)] && WellFormedEvents(cfg, dead)
  {
    var n := CallsToUnmarked(cfg);
    AheadToUnmarked(cfg, x);
    RunSpawned(cfg, EMPTY_SYSTEM, Arrive(1, x), 1, Ingesting(x, Looking), n);
    RunForgotten(cfg, EMPTY_SYSTEM, Arrive(1, x), 1, Ingesting(x, Looking), n);
    events := [Arrive(1, x)] + Advances(1, n);
    dead := events + [Die(1)];
  }

  /** Another request with the same content completes it, whoever else is still around. */
  lemma CompletesUnmarked(cfg: Config, s: System, id: nat, x: Request, objects: Objects) returns (n: nat)
    requires Proper(cfg, x) && id !in s.procs && s.world == World(Create(EMPTY_TABLES, x), objects) && Open(objects, x)
    ensures Ahead(cfg, s.world, Ingesting(x, Looking), n)
            == (World(MarkedStored(Unmarked(x), x).tables, Agreed(x, objects)),
                Ingesting(x, Done(Accepted(VerdictStored, x.eventId, Some(Uri(x.finalKey))))))
  {
    UnmarkedTable(x);
    FinishPending(cfg, s.world, x, NewRow(1, x));
    n := FinishIsAhead(cfg, s.world, x, Looking);
  }
}
