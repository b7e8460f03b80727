/**
 Where the guarantees end. Each main lemma is a short run from empty stores that breaks a stronger claim
 than the ones proved elsewhere; the exact conditions are next to those: Window.SlidesExactly,
 Replay.RefusedExactly, Acknowledged.StoredStaysExactly, Lasting.StoredStaysExactly,
 Agreement.LedgerFirstAgreesExactly, Guards.GuardStaysExactly.
 */
module Witness {
  import opened Wrappers
  import opened Faults
  import opened Times
  import opened Events
  import opened Requests
  import opened Storage
  import opened Ledger
  import opened LedgerFacts
  import opened Machine
  import opened System
  import opened Replay
  import Agreement
  import Keys
  import opened Reachable
  import opened Repair
  import Sequential

  /* ---------- Overlapping retention runs ---------- */

  const ANY_EVENT := Filter(None, None, None, None, None, None, None)

  /** Two stored rows, both archived, and no watermark yet. */
  ghost predicate TwoRows(cfg: Config, w: World, r: Row, s: Row) {
    && w.tables.rows == [r, s] && w.tables.watermark.None? && 0 < r.id < s.id
    && r.status.Stored? && s.status.Stored? && Confirmed(cfg, w.objects, r) && Confirmed(cfg, w.objects, s)
  }

  /** What the queries and the DELETE make of two rows. */
  lemma OfTwo(r: Row, s: Row, after: Option<nat>, through: nat, filter: Filter, ids: seq<nat>)
    ensures StoredBetween([r, s], after, through)
            == (if Retainable(r, after, through) then [r] else []) + (if Retainable(s, after, through) then [s] else [])
    ensures Select([r, s], after, filter)
            == (if Replayable(r, after, filter) then [r] else []) + (if Replayable(s, after, filter) then [s] else [])
    ensures (forall q | q in [r, s] :: q.status.Stored? && q.id in ids) ==> Delete([r, s], ids) == []
  {
    assert [r, s][1..] == [s] && [s][1..] == [];
    assert r in [r, s] && s in [r, s];
    var second := if Retainable(s, after, through) then [s] else [];
    assert StoredBetween([], after, through) == [] && StoredBetween([s], after, through) == second;
    assert [] + second == second;
    var other := if Replayable(s, after, filter) then [s] else [];
    assert Select([], after, filter) == [] && Select([s], after, filter) == other && [] + other == other;
  }

  lemma ShortRun(cfg: Config, w: World, r: Row, s: Row)
    requires TwoRows(cfg, w, r, s)
    ensures Ahead(cfg, w, Retaining(r.id, 2, ReadingFloor), 3) == (w, Retaining(r.id, 2, Committing([r.id], 0)))
  {
    OfTwo(r, s, None, r.id, ANY_EVENT, []);
    assert [r][1..] == [] && [] + [r.id] == [r.id];
    var p := Retaining(r.id, 2, ConfirmingRow([r], []));
    assert Step(cfg, w, p, Works) == (w, Retaining(r.id, 2, Committing([r.id], 0)));
    assert Ahead(cfg, w, p, 1) == Step(cfg, w, p, Works);
    assert Ahead(cfg, w, Retaining(r.id, 2, ReadingCandidates(None)), 2) == Ahead(cfg, w, p, 1);
  }

  lemma LongRunCommits(cfg: Config, w: World, r: Row, s: Row)
    requires TwoRows(cfg, w, r, s)
    ensures Ahead(cfg, w, Retaining(s.id, 2, Committing([r.id, s.id], 0)), 1).0
            == w.(tables := w.tables.(rows := [], watermark := Some(s.id)))
  {
    OfTwo(r, s, None, s.id, ANY_EVENT, [r.id, s.id]);
    var p := Retaining(s.id, 2, Committing([r.id, s.id], 0));
    assert Step(cfg, w, p, Works).0 == w.(tables := Retain(w.tables, [r.id, s.id], s.id));
  }

  lemma LongRunConfirms(cfg: Config, w: World, r: Row, s: Row)
    requires TwoRows(cfg, w, r, s)
    ensures Ahead(cfg, w, Retaining(s.id, 2, ConfirmingRow([r, s], [])), 3).0
            == w.(tables := w.tables.(rows := [], watermark := Some(s.id)))
  {
    assert [r, s][1..] == [s] && [s][1..] == [] && [r.id] + [s.id] == [r.id, s.id] && [] + [r.id] == [r.id];
    var p4 := Retaining(s.id, 2, Committing([r.id, s.id], 0));
    var p3 := Retaining(s.id, 2, ConfirmingRow([s], [r.id]));
    var p2 := Retaining(s.id, 2, ConfirmingRow([r, s], []));
    assert Step(cfg, w, p3, Works) == (w, p4) && Step(cfg, w, p2, Works) == (w, p3);
    LongRunCommits(cfg, w, r, s);
    assert Ahead(cfg, w, p3, 2) == Ahead(cfg, w, p4, 1);
  }

  lemma LongRun(cfg: Config, w: World, r: Row, s: Row)
    requires TwoRows(cfg, w, r, s)
    ensures Ahead(cfg, w, Retaining(s.id, 2, ReadingFloor), 5).0
            == w.(tables := w.tables.(rows := [], watermark := Some(s.id)))
  {
    OfTwo(r, s, None, s.id, ANY_EVENT, []);
    LongRunConfirms(cfg, w, r, s);
    assert Ahead(cfg, w, Retaining(s.id, 2, ReadingCandidates(None)), 4)
           == Ahead(cfg, w, Retaining(s.id, 2, ConfirmingRow([r, s], [])), 3);
  }

  lemma TwoIsTwoRows(cfg: Config, x: Request, y: Request)
    requires Proper(cfg, x) && Proper(cfg, y) && x.eventId != y.eventId
    ensures TwoRows(cfg, Two(x, y), RowOf(1, x), RowOf(2, y))
  {
  }

  lemma ShortRunReady(cfg: Config, w: World, r: Row, s: Row) returns (events: seq<Event>)
    requires TwoRows(cfg, w, r, s)
    ensures WellFormedEvents(cfg, events)
    ensures Run(cfg, System(w, map[]), events)
            == System(w, map[1 := Retaining(s.id, 2, ReadingFloor), 2 := Retaining(r.id, 2, Committing([r.id], 0))])
  {
    var long := System(w, map[1 := Retaining(s.id, 2, ReadingFloor)]);
    events := [Schedule(1, s.id, 2)] + ([Schedule(2, r.id, 2)] + Advances(2, 3));
    RunFirst(cfg, System(w, map[]), Schedule(1, s.id, 2), [Schedule(2, r.id, 2)] + Advances(2, 3));
    RunSpawned(cfg, long, Schedule(2, r.id, 2), 2, Retaining(r.id, 2, ReadingFloor), 3);
    ShortRun(cfg, w, r, s);
  }

  lemma LongRunGoesFirst(cfg: Config, w: World, r: Row, s: Row) returns (events: seq<Event>)
    requires TwoRows(cfg, w, r, s)
    ensures WellFormedEvents(cfg, events)
    ensures var t := Run(cfg, System(w, map[]), events);
            && t.world == w.(tables := w.tables.(rows := [], watermark := Some(s.id)))
            && 2 in t.procs && t.procs[2] == Retaining(r.id, 2, Committing([r.id], 0))
  {
    var ready := ShortRunReady(cfg, w, r, s);
    RunsOn(cfg, System(w, map[]), ready, Advances(1, 5));
    RunAhead(cfg, Run(cfg, System(w, map[]), ready), 1, 5);
    LongRun(cfg, w, r, s);
    events := ready + Advances(1, 5);
  }

  lemma ShortRunCommitsLast(cfg: Config, w: World, r: Row, s: Row) returns (events: seq<Event>)
    requires TwoRows(cfg, w, r, s)
    ensures WellFormedEvents(cfg, events)
    ensures var end := Run(cfg, System(w, map[]), events).world.tables; end.rows == [] && end.watermark == Some(r.id)
  {
    var before := LongRunGoesFirst(cfg, w, r, s);
    RunThen(cfg, System(w, map[]), before, Advance(2, Works));
    events := before + [Advance(2, Works)];
  }

  /**
   The watermark is overwritten, not raised: of two overlapping retention runs the shorter commits last
   and moves it back, and a request is accepted that lies below a deleted row.
   */
  lemma OverlapMovesTheWatermarkBack(cfg: Config, x: Request, y: Request) returns (first: seq<Event>, later: seq<Event>)
    requires Proper(cfg, x) && Proper(cfg, y) && x.eventId != y.eventId
    ensures WellFormedEvents(cfg, first + later)
    ensures RowOf(2, y) in Run(cfg, EMPTY_SYSTEM, first).world.tables.rows
    ensures var end := Run(cfg, EMPTY_SYSTEM, first + later).world.tables;
            end.rows == [] && end.watermark == Some(1) && Replay.ReplayEvents(end, Some(1), ANY_EVENT, 1).Ok?
  {
    first := ReachesTwo(cfg, x, y);
    TwoIsTwoRows(cfg, x, y);
    later := ShortRunCommitsLast(cfg, Two(x, y), RowOf(1, x), RowOf(2, y));
    RunsOn(cfg, EMPTY_SYSTEM, first, later);
  }

  /** A retention run between the floor check and the page: accepted, and the rows are gone. */
  lemma GapBetweenTheReads(cfg: Config, x: Request, y: Request) returns (first: seq<Event>, later: seq<Event>)
    requires Proper(cfg, x) && Proper(cfg, y) && x.eventId != y.eventId
    ensures WellFormedEvents(cfg, first + later)
    ensures var checked := Run(cfg, EMPTY_SYSTEM, first).world.tables;
            var paged := Run(cfg, EMPTY_SYSTEM, first + later).world.tables;
            && Replay.ReplayEvents(checked, Some(0), ANY_EVENT, 1) == Ok(Page([RowOf(1, x)], Some(1), 1))
            && TwoReads(checked, paged, Some(0), ANY_EVENT, 1) == Ok(Page([], None, 1))
            && Replay.ReplayEvents(paged, Some(0), ANY_EVENT, 1) == Err(WindowExpired(0, 2))
  {
    first := ReachesTwo(cfg, x, y);
    TwoIsTwoRows(cfg, x, y);
    var w, r, s := Two(x, y), RowOf(1, x), RowOf(2, y);
    later := [Schedule(1, 2, 2)] + Advances(1, 5);
    RunSpawned(cfg, System(w, map[]), Schedule(1, 2, 2), 1, Retaining(2, 2, ReadingFloor), 5);
    LongRun(cfg, w, r, s);
    PagesBeforeAndAfter(w.tables, r, s);
    RunsOn(cfg, EMPTY_SYSTEM, first, later);
  }

  lemma PagesBeforeAndAfter(t: Tables, r: Row, s: Row)
    requires t.rows == [r, s] && t.watermark.None? && r.id == 1 && s.id == 2 && r.status.Stored? && s.status.Stored?
    ensures var u := t.(rows := [], watermark := Some(2));
            && Replay.ReplayEvents(t, Some(0), ANY_EVENT, 1) == Ok(Page([r], Some(1), 1))
            && TwoReads(t, u, Some(0), ANY_EVENT, 1) == Ok(Page([], None, 1))
            && Replay.ReplayEvents(u, Some(0), ANY_EVENT, 1) == Err(WindowExpired(0, 2))
  {
    OfTwo(r, s, Some(0), 0, ANY_EVENT, []);
  }

  /* ---------- MarkFailed after MarkStored ---------- */

  /** The first retry of an unmarked event fails to reach the archive, and is about to mark the row failed. */
  lemma RetryFails(cfg: Config, q: Request) returns (events: seq<Event>)
    requires cfg.archiveFirst && Proper(cfg, q)
    ensures WellFormedEvents(cfg, events)
    ensures Run(cfg, System(Unmarked(q), map[]), events)
            == System(Unmarked(q).(tables := LogAttempt(Unmarked(q).tables, q.eventId, AttemptFailed)),
                      map[1 := Ingesting(q, MarkingFailed)])
  {
    UnmarkedTable(q);
    var start := System(Unmarked(q), map[]);
    RunSpawned(cfg, start, Arrive(1, q), 1, Ingesting(q, Looking), 1);
    AheadStep(cfg, Unmarked(q), Ingesting(q, Looking), 1);
    events := [Arrive(1, q)] + Advances(1, 1);
    ThenFails(cfg, start, events, Unmarked(q), q);
    events := events + [Advance(1, Fails)] + [Advance(1, Works)];
  }

  lemma ThenFails(cfg: Config, start: System, events: seq<Event>, w: World, q: Request)
    requires Run(cfg, start, events) == System(w, map[1 := Ingesting(q, Writing(true, Put(Guard)))])
    ensures Run(cfg, start, events + [Advance(1, Fails)] + [Advance(1, Works)])
            == System(w.(tables := LogAttempt(w.tables, q.eventId, AttemptFailed)),
                      map[1 := Ingesting(q, MarkingFailed)])
  {
  }

  function Acknowledgement(q: Request): Process {
    Ingesting(q, Done(Accepted(VerdictStored, q.eventId, Some(Uri(q.finalKey)))))
  }

  /** The second retry stores the event and is answered. */
  lemma SecondRetryStores(cfg: Config, w: World, q: Request) returns (events: seq<Event>, v: World)
    requires Proper(cfg, q) && TablesOk(w.tables) && Open(w.objects, q)
    requires Find(w.tables.rows, q.eventId) == Some(NewRow(1, q))
    ensures WellFormedEvents(cfg, events)
    ensures Run(cfg, System(w, map[1 := Ingesting(q, MarkingFailed)]), events)
            == System(v, map[1 := Ingesting(q, MarkingFailed), 2 := Acknowledgement(q)])
    ensures TablesOk(v.tables) && Find(v.tables.rows, q.eventId) == Some(RowOf(1, q))
  {
    var archived := World(w.tables, Agreed(q, w.objects));
    v := MarkedStored(archived, q);
    FinishPending(cfg, w, q, NewRow(1, q));
    MarkedRow(archived, q, NewRow(1, q));
    var n := FinishIsAhead(cfg, w, q, Looking);
    RunSpawned(cfg, System(w, map[1 := Ingesting(q, MarkingFailed)]), Arrive(2, q), 2, Ingesting(q, Looking), n);
    events := [Arrive(2, q)] + Advances(2, n);
  }

  /**
   A request dies after its INSERT. Of two retries one fails to reach the archive; the other stores the
   event and is acknowledged; then the first marks the row failed. The event is archived and
   acknowledged, and replay does not give it out until it is sent again.
   */
  lemma FailedAfterAcknowledged(cfg: Config, q: Request) returns (events: seq<Event>)
    requires cfg.archiveFirst && Proper(cfg, q)
    ensures WellFormedEvents(cfg, events)
    ensures var end := Run(cfg, EMPTY_SYSTEM, events);
            && 2 in end.procs && end.procs[2] == Acknowledgement(q)
            && Find(end.world.tables.rows, q.eventId).Some?
            && Find(end.world.tables.rows, q.eventId).value.status.Failed?
  {
    UnmarkedTable(q);
    var _, died := ReachesUnmarked(cfg, q);
    var retry := RetryFails(cfg, q);
    RunsOn(cfg, EMPTY_SYSTEM, died, retry);
    var logged := Unmarked(q).(tables := LogAttempt(Unmarked(q).tables, q.eventId, AttemptFailed));
    var second, v := SecondRetryStores(cfg, logged, q);
    RunsOn(cfg, EMPTY_SYSTEM, died + retry, second);
    events := died + retry + second;
    ThenMarkedFailed(cfg, EMPTY_SYSTEM, events, v, q, Acknowledgement(q));
    events := events + [Advance(1, Works)];
  }

  lemma ThenMarkedFailed(cfg: Config, start: System, events: seq<Event>, v: World, q: Request, other: Process)
    requires Run(cfg, start, events) == System(v, map[1 := Ingesting(q, MarkingFailed), 2 := other])
    requires TablesOk(v.tables) && Find(v.tables.rows, q.eventId).Some?
    ensures var end := Run(cfg, start, events + [Advance(1, Works)]);
            && 2 in end.procs && end.procs[2] == other
            && Find(end.world.tables.rows, q.eventId).Some?
            && Find(end.world.tables.rows, q.eventId).value.status.Failed?
  {
    RunThen(cfg, start, events, Advance(1, Works));
    assert Run(cfg, start, events + [Advance(1, Works)]).world.tables == SetFailed(v.tables, q.eventId);
    MarkedFailed(v.tables, q.eventId);
  }

  lemma MarkedFailed(t: Tables, e: EventId)
    requires TablesOk(t) && Find(t.rows, e).Some?
    ensures Find(SetFailed(t, e).rows, e).Some? && Find(SetFailed(t, e).rows, e).value.status.Failed?
  {
    var r := Find(t.rows, e).value;
    UpdatesKeepTables(t, e, Uri(GuardKey(e)));
    UpdatedRow(t, e, Uri(GuardKey(e)), r);
    FindUnique(SetFailed(t, e).rows, r.(status := Failed));
  }

  /* ---------- A low id that is stored late ---------- */

  /** No call of the process but perhaps the last finds it finished. */
  ghost predicate Lasts(cfg: Config, w: World, p: Process, n: nat)
    decreases n
  {
    n == 0 || (!p.Finished() && Lasts(cfg, Step(cfg, w, p, Works).0, Step(cfg, w, p, Works).1, n - 1))
  }

  lemma {:induction false} AheadIsWalk(cfg: Config, w: World, p: Process, n: nat)
    requires Lasts(cfg, w, p, n)
    ensures Walk(cfg, w, p, seq(n, _ => Works)) == Some(Ahead(cfg, w, p, n))
    decreases n
  {
    if n > 0 {
      var (w', p') := Step(cfg, w, p, Works);
      AheadIsWalk(cfg, w', p', n - 1);
      var one, rest: seq<Fault> := [Works], seq(n - 1, _ => Works);
      assert one + rest == seq(n, _ => Works);
      assert one[..0] == [];
      assert Walk(cfg, w, p, []) == Some((w, p));
      WalkAppend(cfg, w, p, one, rest);
    }
  }

  /** A process that is not finished n calls ahead was not finished before. */
  lemma {:induction false} UnfinishedLasts(cfg: Config, w: World, p: Process, n: nat)
    requires !Ahead(cfg, w, p, n).1.Finished()
    ensures Lasts(cfg, w, p, n)
    decreases n
  {
    if n > 0 {
      var (w', p') := Step(cfg, w, p, Works);
      UnfinishedLasts(cfg, w', p', n - 1);
      if p.Finished() {
        FinishedStays(cfg, w, p, n);
      }
    }
  }

  lemma {:induction false} FinishedStays(cfg: Config, w: World, p: Process, n: nat)
    requires p.Finished()
    ensures Ahead(cfg, w, p, n) == (w, p)
    decreases n
  {
    if n > 0 {
      FinishedStays(cfg, w, p, n - 1);
    }
  }

  /** An ingest cut after its INSERT, as a job of a history. */
  lemma CutJob(cfg: Config, x: Request) returns (job: Sequential.Job)
    requires Proper(cfg, x)
    ensures Sequential.JobOk(cfg, job) && Sequential.PlayJob(cfg, EMPTY_WORLD, job).0 == Unmarked(x)
  {
    var n := CallsToUnmarked(cfg);
    AheadToUnmarked(cfg, x);
    UnfinishedLasts(cfg, EMPTY_WORLD, Ingesting(x, Looking), n);
    AheadIsWalk(cfg, EMPTY_WORLD, Ingesting(x, Looking), n);
    job := Sequential.IngestJob(x, seq(n, _ => Works));
  }

  /** A whole ingest, as a job of a history. */
  lemma WholeJob(cfg: Config, w: World, q: Request) returns (job: Sequential.Job)
    requires Proper(cfg, q)
    ensures Sequential.JobOk(cfg, job) && Sequential.PlayJob(cfg, w, job).0 == Finish(cfg, w, q, Looking).0
  {
    var n := FinishIsWalk(cfg, w, q, Looking);
    job := Sequential.IngestJob(q, seq(n, _ => Works));
  }

  /** The first event is archived and unmarked, the second stored; then the first stored as well. */
  function Early(x: Request, y: Request): World {
    Ingested(Unmarked(x), y)
  }

  function Late(x: Request, y: Request): World {
    MarkedStored(World(Early(x, y).tables, Agreed(x, Early(x, y).objects)), x)
  }

  lemma EarlyTables(x: Request, y: Request)
    requires x.eventId != y.eventId
    ensures var t := Early(x, y).tables;
            && t.rows == [NewRow(1, x), RowOf(2, y)] && t.watermark.None? && TablesOk(t)
            && Find(t.rows, x.eventId) == Some(NewRow(1, x))
  {
  }

  lemma LateTables(x: Request, y: Request)
    requires x.eventId != y.eventId
    ensures Late(x, y).tables.rows == [RowOf(1, x), RowOf(2, y)] && Late(x, y).tables.watermark.None?
  {
  }

  lemma PlayThree(cfg: Config, a: Sequential.Job, b: Sequential.Job, c: Sequential.Job)
    ensures var u := Sequential.PlayJob(cfg, EMPTY_WORLD, a).0;
            var v := Sequential.PlayJob(cfg, u, b).0;
            && Sequential.Play(cfg, EMPTY_WORLD, [a, b, c][..2]) == v
            && Sequential.Play(cfg, EMPTY_WORLD, [a, b, c]) == Sequential.PlayJob(cfg, v, c).0
  {
    assert [a, b, c][..2] == [a, b] && [a, b][..1] == [a] && [a][..0] == [];
    assert Sequential.Play(cfg, EMPTY_WORLD, []) == EMPTY_WORLD;
    assert Sequential.Play(cfg, EMPTY_WORLD, [a]) == Sequential.PlayJob(cfg, EMPTY_WORLD, a).0;
    assert Sequential.Play(cfg, EMPTY_WORLD, [a, b])
           == Sequential.PlayJob(cfg, Sequential.Play(cfg, EMPTY_WORLD, [a]), b).0;
  }

  lemma UnmarkedIsOpen(cfg: Config, x: Request, y: Request)
    requires Proper(cfg, x) && Proper(cfg, y) && x.eventId != y.eventId
    ensures Open(Unmarked(x).objects, y)
  {
  }

  lemma EarlyJob(cfg: Config, x: Request, y: Request) returns (job: Sequential.Job)
    requires Proper(cfg, x) && Proper(cfg, y) && x.eventId != y.eventId
    ensures Sequential.JobOk(cfg, job) && Sequential.PlayJob(cfg, Unmarked(x), job).0 == Early(x, y)
  {
    UnmarkedTable(x);
    SecondTable(Unmarked(x).tables, NewRow(1, x), y);
    UnmarkedIsOpen(cfg, x, y);
    job := WholeJob(cfg, Unmarked(x), y);
    FinishNew(cfg, Unmarked(x), y);
  }

  lemma LateJob(cfg: Config, x: Request, y: Request) returns (job: Sequential.Job)
    requires Proper(cfg, x) && Proper(cfg, y) && x.eventId != y.eventId
    ensures Sequential.JobOk(cfg, job) && Sequential.PlayJob(cfg, Early(x, y), job).0 == Late(x, y)
  {
    EarlyTables(x, y);
    job := WholeJob(cfg, Early(x, y), x);
    FinishPending(cfg, Early(x, y), x, NewRow(1, x));
  }

  /** The history: an ingest cut after its INSERT, another event, and the first event again. */
  lemma LateHistory(cfg: Config, x: Request, y: Request) returns (jobs: seq<Sequential.Job>)
    requires Proper(cfg, x) && Proper(cfg, y) && x.eventId != y.eventId
    ensures |jobs| == 3 && forall j | j in jobs :: Sequential.JobOk(cfg, j)
    ensures Sequential.Play(cfg, EMPTY_WORLD, jobs[..2]) == Early(x, y)
    ensures Sequential.Play(cfg, EMPTY_WORLD, jobs) == Late(x, y)
  {
    var a := CutJob(cfg, x);
    var b := EarlyJob(cfg, x, y);
    var c := LateJob(cfg, x, y);
    PlayThree(cfg, a, b, c);
    jobs := [a, b, c];
  }

  /** A row passed unstored is not given by the next call. */
  lemma ConsumesSecond(u: World, v: World, r: Row, s: Row, r': Row)
    requires u.tables.rows == [r, s] && v.tables.rows == [r', s] && u.tables.watermark.None? && v.tables.watermark.None?
    requires r.id == r'.id == 1 && s.id == 2 && r.status.Received? && s.status.Stored?
    ensures Consume([Visit(u, 1), Visit(v, 1)], ANY_EVENT, 0, 2) == Consumer([s], 2, false)
  {
    var visits := [Visit(u, 1), Visit(v, 1)];
    OfTwo(r, s, Some(0), 0, ANY_EVENT, []);
    OfTwo(r', s, Some(2), 0, ANY_EVENT, []);
    assert Consume(visits, ANY_EVENT, 0, 0) == Consumer([], 0, false);
    assert Consume(visits, ANY_EVENT, 0, 1) == Consumer([s], 2, false);
  }

  lemma LateVisits(cfg: Config, jobs: seq<Sequential.Job>)
    requires |jobs| == 3
    ensures VisitsAt(cfg, jobs, [2, 3], [1, 1])
            == [Visit(WorldAt(cfg, jobs, 2), 1), Visit(Sequential.Play(cfg, EMPTY_WORLD, jobs), 1)]
  {
    assert jobs[..3] == jobs;
  }

  /**
   A consumer passes a row that is still being ingested, and never sees it although it is stored later:
   a call before the last job of this history and one after it deliver the second row only.
   */
  lemma StoredTooLate(cfg: Config, x: Request, y: Request) returns (jobs: seq<Sequential.Job>)
    requires Proper(cfg, x) && Proper(cfg, y) && x.eventId != y.eventId
    ensures |jobs| == 3 && forall j | j in jobs :: Sequential.JobOk(cfg, j)
    ensures RowOf(1, x) in Sequential.Play(cfg, EMPTY_WORLD, jobs).tables.rows
    ensures Consume(VisitsAt(cfg, jobs, [2, 3], [1, 1]), ANY_EVENT, 0, 2) == Consumer([RowOf(2, y)], 2, false)
  {
    jobs := LateHistory(cfg, x, y);
    EarlyTables(x, y);
    LateTables(x, y);
    ConsumesSecond(Early(x, y), Late(x, y), NewRow(1, x), RowOf(2, y), RowOf(1, x));
    LateVisits(cfg, jobs);
  }

  /* ---------- Ledger-first and retention ---------- */

  /**
   Where the archive holds other content for the event id, an ingest leaves the rows alone exactly if
   there is a row: a claim that is still in the ledger.
   */
  lemma RowsUntouchedExactly(cfg: Config, w: World, q: Request)
    requires !cfg.archiveFirst && TablesOk(w.tables)
    requires GuardKey(q.eventId) in w.objects && w.objects[GuardKey(q.eventId)] != q.text
    ensures Finish(cfg, w, q, Looking).0.tables.rows == w.tables.rows <==> Find(w.tables.rows, q.eventId).Some?
  {
    var found := Find(w.tables.rows, q.eventId);
    if found.None? {
      ReceivedBeforeRejected(cfg, w, q);
    } else if found.value.eventHash != q.eventHash || found.value.payloadHash != q.payloadHash {
      assert Finish(cfg, w, q, Looking) == Finish(cfg, w, q, Conflict(cfg, q, found.value.uri));
      FinishConflict(cfg, w, q, found.value.uri);
    } else if found.value.status.Stored? && found.value.uri.Some? {
      FinishStored(cfg, w, q, found.value);
    } else {
      assert Finish(cfg, w, q, Looking) == Finish(cfg, w, q, Writing(true, Check(Guard, false)));
      FinishStep(cfg, w, q, true, Check(Guard, false));
      FinishConflict(cfg, w, q, None);
    }
  }

  /** One stored row is taken by a retention run that reads, confirms and commits it. */
  lemma OneRetained(cfg: Config, w: World, r: Row)
    requires w.tables.rows == [r] && w.tables.watermark.None? && r.status.Stored? && Confirmed(cfg, w.objects, r)
    ensures Ahead(cfg, w, Retaining(r.id, 1, ReadingFloor), 4).0
            == w.(tables := w.tables.(rows := [], watermark := Some(r.id)))
  {
  }

  /** The first request is about to mark its row; a second has stored the event; retention has taken the row. */
  function Retained(x: Request): World {
    var w := MarkedStored(Unmarked(x), x);
    w.(tables := w.tables.(rows := [], watermark := Some(1)))
  }

  lemma MarkedUnmarked(x: Request)
    ensures var t := MarkedStored(Unmarked(x), x).tables; t.rows == [RowOf(1, x)] && t.nextId == 2 && t.watermark.None?
  {
  }

  /** A second request with the same content stores it, and is forgotten. */
  lemma StoredByAnother(cfg: Config, x: Request, procs: map<nat, Process>) returns (events: seq<Event>)
    requires Proper(cfg, x) && 2 !in procs
    ensures WellFormedEvents(cfg, events)
    ensures Run(cfg, System(Unmarked(x), procs), events) == System(MarkedStored(Unmarked(x), x), procs)
  {
    var n := CompletesUnmarked(cfg, System(Unmarked(x), procs), 2, x, Unmarked(x).objects);
    assert Agreed(x, Unmarked(x).objects) == Unmarked(x).objects;
    RunForgotten(cfg, System(Unmarked(x), procs), Arrive(2, x), 2, Ingesting(x, Looking), n);
    events := [Arrive(2, x)] + Advances(2, n) + [Die(2)];
  }

  /** Retention takes the row. */
  lemma RetainedAfterwards(cfg: Config, x: Request, procs: map<nat, Process>) returns (events: seq<Event>)
    requires Proper(cfg, x) && 2 !in procs
    ensures WellFormedEvents(cfg, events)
    ensures Run(cfg, System(MarkedStored(Unmarked(x), x), procs), events) == System(Retained(x), procs)
  {
    MarkedUnmarked(x);
    var stored := System(MarkedStored(Unmarked(x), x), procs);
    OneRetained(cfg, stored.world, RowOf(1, x));
    RunForgotten(cfg, stored, Schedule(2, 1, 1), 2, Retaining(1, 1, ReadingFloor), 4);
    events := [Schedule(2, 1, 1)] + Advances(2, 4) + [Die(2)];
  }

  lemma ReachesRetained(cfg: Config, x: Request) returns (events: seq<Event>)
    requires !cfg.archiveFirst && Proper(cfg, x)
    ensures WellFormedEvents(cfg, events)
    ensures Run(cfg, EMPTY_SYSTEM, events) == System(Retained(x), map[1 := Ingesting(x, Marking(Uri(x.finalKey)))])
  {
    var procs := map[1 := Ingesting(x, Marking(Uri(x.finalKey)))];
    var first, dead := ReachesUnmarked(cfg, x);
    assert forall e | e in first :: e in dead;
    var second := StoredByAnother(cfg, x, procs);
    var third := RetainedAfterwards(cfg, x, procs);
    RunsOn(cfg, EMPTY_SYSTEM, first, second);
    RunsOn(cfg, EMPTY_SYSTEM, first + second, third);
    events := first + second + third;
  }

  /** Other content claims the event id anew, and then the mark of the first request falls. */
  lemma NewcomerMarked(cfg: Config, w: World, x: Request, y: Request) returns (events: seq<Event>)
    requires !cfg.archiveFirst && TablesOk(w.tables) && Find(w.tables.rows, x.eventId).None?
    requires Proper(cfg, y) && y.eventId == x.eventId
    ensures WellFormedEvents(cfg, events)
    ensures Run(cfg, System(w, map[1 := Ingesting(x, Marking(Uri(x.finalKey)))]), events).world
            == w.(tables := SetStored(Create(w.tables, y), y.eventId, Uri(x.finalKey)))
  {
    var start := System(w, map[1 := Ingesting(x, Marking(Uri(x.finalKey)))]);
    RunSpawned(cfg, start, Arrive(2, y), 2, Ingesting(y, Looking), 2);
    AheadStep(cfg, w, Ingesting(y, Looking), 2);
    AheadStep(cfg, w, Ingesting(y, Creating(None)), 1);
    events := [Arrive(2, y)] + Advances(2, 2);
    RunThen(cfg, start, events, Advance(1, Works));
    events := events + [Advance(1, Works)];
  }

  /**
   Ledger-first, retention overlapping an ingest: a request that has written its bytes is about to mark
   its row; a second request with the same content stores it, retention takes the row, and other content
   inserts a new one. The mark, by event id, hits that.
   */
  lemma NewerRowMarked(cfg: Config, x: Request, y: Request) returns (events: seq<Event>)
    requires !cfg.archiveFirst && Proper(cfg, x) && Proper(cfg, y) && y.eventId == x.eventId && y.text != x.text
    ensures WellFormedEvents(cfg, events)
    ensures var end := Run(cfg, EMPTY_SYSTEM, events).world;
            && end.tables.rows == [StoredRow(NewRow(2, y), Uri(x.finalKey))]
            && !Agreement.Agrees(cfg, end.objects, end.tables.rows[0])
  {
    var first := ReachesRetained(cfg, x);
    MarkedUnmarked(x);
    assert Create(Retained(x).tables, y).rows == [NewRow(2, y)];
    var later := NewcomerMarked(cfg, Retained(x), x, y);
    RunsOn(cfg, EMPTY_SYSTEM, first, later);
    events := first + later;
  }

  /* ---------- Hashes that do not tell contents apart ---------- */

  /**
   Where event hashes are not required, or collide, other content with the hashes of a stored event is
   acknowledged as its duplicate and archived nowhere.
   */
  lemma OtherContentAcknowledged(cfg: Config, x: Request, y: Request) returns (events: seq<Event>)
    requires Proper(cfg, x) && Proper(cfg, y) && x.eventId == y.eventId && x.text != y.text
    requires x.eventHash == y.eventHash && x.payloadHash == y.payloadHash
    ensures WellFormedEvents(cfg, events)
    ensures var end := Run(cfg, EMPTY_SYSTEM, events);
            && 1 in end.procs
            && end.procs[1] == Ingesting(y, Done(Accepted(VerdictDuplicate, y.eventId, Some(Uri(x.finalKey)))))
            && (forall k | k in end.world.objects :: end.world.objects[k] != y.text)
  {
    OneTable(x);
    var first := IngestsNew(cfg, EMPTY_SYSTEM, 1, x);
    var w := Ingested(EMPTY_WORLD, x);
    StoredRowAnswers(cfg, w, y, RowOf(1, x));
    var n := FinishIsAhead(cfg, w, y, Looking);
    RunSpawned(cfg, System(w, map[]), Arrive(1, y), 1, Ingesting(y, Looking), n);
    var second := [Arrive(1, y)] + Advances(1, n);
    RunsOn(cfg, EMPTY_SYSTEM, first, second);
    events := first + second;
  }

  /** An event of the given version, with a payload hash that is right and an event hash that is anything. */
  function Versioned(version: string, payloadHash: Hash): Envelope {
    Envelope(
      seq(36, i => if i in {8, 13, 18, 23} then '-' else 'a'), "n", version, "s", None, None,
      Time(2024, 1, 1, 0, 0, 0, 0, 0), None, None, None, None, None, None, None, None, None,
      payloadHash, seq(64, _ => 'a'), map[])
  }

  lemma VersionedIsValid(version: string, payloadHash: Hash)
    requires 1 <= |version| <= 32 && IsSha256(payloadHash)
    ensures Valid(Versioned(version, payloadHash))
  {
    var e := Versioned(version, payloadHash);
    assert e.eventId[0] == 'a' && NIL_UUID[0] == '0';
  }

  /** The service as it is deployed without required event hashes forms such a pair of requests. */
  lemma SharedHashes(archiveFirst: bool, reject: bool, h: Keys.Hashing) returns (x: Request, y: Request)
    requires !h.requireEventHash && IsSha256(h.payloadSha(map[]))
    ensures var cfg := Keys.ServiceConfig(archiveFirst, reject, h);
            Proper(cfg, x) && Proper(cfg, y) && x.eventId == y.eventId && x.text != y.text
    ensures x.eventHash == y.eventHash && x.payloadHash == y.payloadHash
  {
    var e, d := Versioned("1", h.payloadSha(map[])), Versioned("2", h.payloadSha(map[]));
    VersionedIsValid("1", h.payloadSha(map[]));
    VersionedIsValid("2", h.payloadSha(map[]));
    Keys.RequestRoundTrip(archiveFirst, reject, h, e);
    Keys.RequestRoundTrip(archiveFirst, reject, h, d);
    assert "1"[0] != "2"[0] && e != d;
    if CanonicalEvent(e) == CanonicalEvent(d) {
      CanonicalInjective(e, d);
    }
    x, y := Keys.RequestOf(h, e), Keys.RequestOf(h, d);
  }

  /* ---------- Rolling a guard back ---------- */

  /** On disk, up to the final: the guard was created by this request, or by another one. */
  function AtFinal(q: Request, created: bool): Process {
    Ingesting(q, Writing(true, Check(Final, created)))
  }

  /** The first writer has created the guard. */
  lemma ReachesGuarded(cfg: Config, q: Request) returns (events: seq<Event>)
    requires !cfg.archiveFirst && Proper(cfg, q)
    ensures WellFormedEvents(cfg, events)
    ensures Run(cfg, EMPTY_SYSTEM, events) == System(Guarded(q), map[1 := AtFinal(q, true)])
  {
    GuardsOnDisk(cfg, q, 5);
    RunSpawned(cfg, EMPTY_SYSTEM, Arrive(1, q), 1, Ingesting(q, Looking), 5);
    events := [Arrive(1, q)] + Advances(1, 5);
  }

  /** It cannot reach the final. */
  lemma FinalFails(cfg: Config, w: World, procs: map<nat, Process>, q: Request)
    ensures Run(cfg, System(w, procs[1 := AtFinal(q, true)]), [Advance(1, Fails)])
            == System(w, procs[1 := Ingesting(q, Writing(true, RollbackCheck(Unavailable)))])
  {
  }

  /** And takes the guard back. */
  lemma RollsBack(cfg: Config, w: World, procs: map<nat, Process>, q: Request)
    requires GuardKey(q.eventId) in w.objects && w.objects[GuardKey(q.eventId)] == q.text
    ensures Run(cfg, System(w, procs[1 := Ingesting(q, Writing(true, RollbackCheck(Unavailable)))]), Advances(1, 2))
            == System(w.(objects := w.objects - {GuardKey(q.eventId)}),
                      procs[1 := Ingesting(q, Logging(AttemptFailed, MarkingFailed))])
  {
    RunPlaced(cfg, w, procs, 1, Ingesting(q, Writing(true, RollbackCheck(Unavailable))), 2);
    AheadStep(cfg, w, Ingesting(q, Writing(true, RollbackCheck(Unavailable))), 2);
    AheadStep(cfg, w, Ingesting(q, Writing(true, RollbackRemove(Unavailable))), 1);
  }

  /** The two together: the final fails, and the guard goes. */
  lemma GivesUp(cfg: Config, w: World, procs: map<nat, Process>, q: Request)
    requires GuardKey(q.eventId) in w.objects && w.objects[GuardKey(q.eventId)] == q.text
    ensures Run(cfg, System(w, procs[1 := AtFinal(q, true)]), [Advance(1, Fails)] + Advances(1, 2))
            == System(w.(objects := w.objects - {GuardKey(q.eventId)}),
                      procs[1 := Ingesting(q, Logging(AttemptFailed, MarkingFailed))])
  {
    RunAppend(cfg, System(w, procs[1 := AtFinal(q, true)]), [Advance(1, Fails)], Advances(1, 2));
    FinalFails(cfg, w, procs, q);
    RollsBack(cfg, w, procs, q);
  }

  /**
   On disk, a writer that cannot reach its final file takes its guard back while another request of the
   same content has relied on that guard, stored the event and been answered: the final file is left
   without a guard.
   */
  lemma GuardTakenFromUnderAnother(cfg: Config, q: Request) returns (events: seq<Event>)
    requires !cfg.archiveFirst && Proper(cfg, q)
    ensures WellFormedEvents(cfg, events) && Orphaned(q, Run(cfg, EMPTY_SYSTEM, events))
  {
    var first := ReachesGuarded(cfg, q);
    var start := System(Guarded(q), map[1 := AtFinal(q, true)]);
    var n := CompletesUnmarked(cfg, start, 2, q, Guarded(q).objects);
    RunSpawned(cfg, start, Arrive(2, q), 2, Ingesting(q, Looking), n);
    var second := [Arrive(2, q)] + Advances(2, n);
    RunsOn(cfg, EMPTY_SYSTEM, first, second);
    var w := Ahead(cfg, Guarded(q), Ingesting(q, Looking), n).0;
    var others := map[2 := Acknowledgement(q)];
    assert start.procs[2 := Acknowledgement(q)] == others[1 := AtFinal(q, true)];
    GivesUp(cfg, w, others, q);
    var third := [Advance(1, Fails)] + Advances(1, 2);
    RunsOn(cfg, EMPTY_SYSTEM, first + second, third);
    events := first + second + third;
  }

  /** Request 2 has been answered `stored`, its final is there, and its guard is not. */
  ghost predicate Orphaned(q: Request, end: System) {
    && 2 in end.procs && end.procs[2] == Acknowledgement(q)
    && q.finalKey in end.world.objects && GuardKey(q.eventId) !in end.world.objects
  }

  /** A second request of the same content finds the guard. */
  lemma ReliesOnGuard(cfg: Config, q: Request, procs: map<nat, Process>)
    requires !cfg.archiveFirst && Proper(cfg, q)
    ensures Run(cfg, System(Guarded(q), procs), [Arrive(2, q)] + Advances(2, 2))
            == System(Guarded(q), procs[2 := AtFinal(q, false)])
  {
    UnmarkedTable(q);
    RunSpawned(cfg, System(Guarded(q), procs), Arrive(2, q), 2, Ingesting(q, Looking), 2);
    AheadStep(cfg, Guarded(q), Ingesting(q, Looking), 2);
    AheadStep(cfg, Guarded(q), Ingesting(q, Writing(true, Check(Guard, false))), 1);
  }

  lemma FinalSteps(cfg: Config, q: Request)
    requires !cfg.archiveFirst
    ensures var w := World(Create(EMPTY_TABLES, q), map[q.finalKey := q.text]);
            && Step(cfg, Claimed(q), AtFinal(q, false), Works)
               == (Claimed(q), Ingesting(q, Writing(true, Link(Final, false))))
            && Step(cfg, Claimed(q), Ingesting(q, Writing(true, Link(Final, false))), Works)
               == (w, Ingesting(q, Writing(true, Naming)))
            && Step(cfg, w, Ingesting(q, Writing(true, Naming)), Works) == (w, Ingesting(q, Marking(Uri(q.finalKey))))
  {
  }

  lemma WritesFinal(cfg: Config, q: Request)
    requires !cfg.archiveFirst
    ensures Ahead(cfg, Claimed(q), AtFinal(q, false), 6)
            == Ahead(cfg, World(Create(EMPTY_TABLES, q), map[q.finalKey := q.text]),
                     Ingesting(q, Marking(Uri(q.finalKey))), 3)
  {
    FinalSteps(cfg, q);
    AheadStep(cfg, Claimed(q), AtFinal(q, false), 6);
    AheadStep(cfg, Claimed(q), Ingesting(q, Writing(true, Link(Final, false))), 5);
  }

  /** The final is written without a look at the guard, and the row marked. */
  lemma FinishesFinal(cfg: Config, q: Request)
    requires !cfg.archiveFirst && Proper(cfg, q)
    ensures Ahead(cfg, Claimed(q), AtFinal(q, false), 6)
            == (World(MarkedStored(Unmarked(q), q).tables, map[q.finalKey := q.text]), Acknowledgement(q))
  {
    WritesFinal(cfg, q);
    MarksAndAnswers(cfg, q, World(Create(EMPTY_TABLES, q), map[q.finalKey := q.text]));
  }

  lemma MarksAndAnswers(cfg: Config, q: Request, w: World)
    requires Proper(cfg, q) && w.tables == Create(EMPTY_TABLES, q)
    ensures Ahead(cfg, w, Ingesting(q, Marking(Uri(q.finalKey))), 3)
            == (w.(tables := MarkedStored(Unmarked(q), q).tables), Acknowledgement(q))
  {
    MarkedUnmarked(q);
  }

  /** Both are on their way to the final. */
  lemma ReachesBoth(cfg: Config, q: Request) returns (events: seq<Event>)
    requires !cfg.archiveFirst && Proper(cfg, q)
    ensures WellFormedEvents(cfg, events)
    ensures Run(cfg, EMPTY_SYSTEM, events) == System(Guarded(q), map[1 := AtFinal(q, true)][2 := AtFinal(q, false)])
  {
    var first := ReachesGuarded(cfg, q);
    ReliesOnGuard(cfg, q, map[1 := AtFinal(q, true)]);
    var second := [Arrive(2, q)] + Advances(2, 2);
    RunsOn(cfg, EMPTY_SYSTEM, first, second);
    events := first + second;
  }

  /** And the first gives up. */
  lemma ReachesGuardless(cfg: Config, q: Request) returns (events: seq<Event>)
    requires !cfg.archiveFirst && Proper(cfg, q)
    ensures WellFormedEvents(cfg, events)
    ensures Run(cfg, EMPTY_SYSTEM, events)
            == System(Claimed(q), map[2 := AtFinal(q, false)][1 := Ingesting(q, Logging(AttemptFailed, MarkingFailed))])
  {
    var first := ReachesBoth(cfg, q);
    var others := map[2 := AtFinal(q, false)];
    assert map[1 := AtFinal(q, true)][2 := AtFinal(q, false)] == others[1 := AtFinal(q, true)];
    GivesUp(cfg, Guarded(q), others, q);
    var second := [Advance(1, Fails)] + Advances(1, 2);
    RunsOn(cfg, EMPTY_SYSTEM, first, second);
    assert Guarded(q).objects - {GuardKey(q.eventId)} == map[];
    events := first + second;
  }

  /**
   The other order, in which the rollback itself meets no final: the second request has seen the guard and
   is on its way to the final when the first takes the guard back.
   */
  lemma GuardTakenBeforeFinal(cfg: Config, q: Request) returns (events: seq<Event>)
    requires !cfg.archiveFirst && Proper(cfg, q)
    ensures WellFormedEvents(cfg, events) && Orphaned(q, Run(cfg, EMPTY_SYSTEM, events))
  {
    var first := ReachesGuardless(cfg, q);
    RunAhead(cfg, Run(cfg, EMPTY_SYSTEM, first), 2, 6);
    FinishesFinal(cfg, q);
    RunsOn(cfg, EMPTY_SYSTEM, first, Advances(2, 6));
    events := first + Advances(2, 6);
  }
}
