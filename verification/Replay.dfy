/**
 Replay: an exclusive cursor, filters, a limit+1 probe for the next page, and the window floor. On a
 fixed ledger the pages concatenate to a plain filter; on a changing one a consumer misses exactly
 the rows that were not stored when it passed their ids.
 */
module Replay {
  import opened Wrappers
  import opened Faults
  import opened Requests
  import opened Ledger
  import opened LedgerFacts
  import opened Machine
  import Cursors
  import Retention
  import Sequential

  /** Absent filters select everything; a filter on an absent column selects nothing. */
  datatype Filter = Filter(
    producerService: Option<string>,
    eventName: Option<string>,
    subjectType: Option<string>,
    subjectId: Option<string>,
    aggregateType: Option<string>,
    aggregateId: Option<string>,
    correlationId: Option<string>)

  predicate Equals(filter: Option<string>, column: Option<string>) {
    filter.Some? ==> column == filter
  }

  /** The WHERE clause of `replayQuery`. */
  predicate Replayable(r: Row, after: Option<nat>, filter: Filter) {
    && r.status.Stored?
    && (after.Some? ==> after.value < r.id)
    && Equals(filter.producerService, Some(r.columns.producerService))
    && Equals(filter.eventName, Some(r.columns.eventName))
    && Equals(filter.subjectType, r.columns.subjectType)
    && Equals(filter.subjectId, r.columns.subjectId)
    && Equals(filter.aggregateType, r.columns.aggregateType)
    && Equals(filter.aggregateId, r.columns.aggregateId)
    && Equals(filter.correlationId, r.columns.correlationId)
  }

  function Select(rows: seq<Row>, after: Option<nat>, filter: Filter): (found: seq<Row>)
    ensures forall r :: r in found <==> r in rows && Replayable(r, after, filter)
  {
    if rows == [] then []
    else if Replayable(rows[0], after, filter) then [rows[0]] + Select(rows[1..], after, filter)
    else Select(rows[1..], after, filter)
  }

  datatype Page = Page(events: seq<Row>, nextCursor: Option<nat>, limit: nat)

  /** LIMIT limit+1: the extra row is not returned, it only tells that there is a next page. */
  function PageOf(rows: seq<Row>, after: Option<nat>, filter: Filter, limit: nat): Page
    requires limit > 0
  {
    var found := Take(Select(rows, after, filter), limit + 1);
    if |found| > limit then Page(found[..limit], Some(found[limit - 1].id), limit) else Page(found, None, limit)
  }

  /** Following next_cursor, the k-th request under the k-th limit. */
  function Follow(rows: seq<Row>, after: Option<nat>, filter: Filter, limits: nat -> nat, k: nat): seq<Row>
    requires Ascending(rows) && forall i :: limits(i) > 0
    decreases |Select(rows, after, filter)|
  {
    var page := PageOf(rows, after, filter, limits(k));
    if page.nextCursor.None? then page.events
    else
      NextPage(rows, after, filter, limits(k));
      page.events + Follow(rows, page.nextCursor, filter, limits, k + 1)
  }

  lemma {:induction false} SelectAscends(rows: seq<Row>, after: Option<nat>, filter: Filter)
    requires Ascending(rows)
    ensures Ascending(Select(rows, after, filter))
  {
    if rows != [] {
      AscendingTail(rows);
      SelectAscends(rows[1..], after, filter);
      var rest := Select(rows[1..], after, filter);
      forall i | 0 <= i < |rest|
        ensures rows[0].id < rest[i].id
      {
        assert rest[i] in rows[1..];
      }
    }
  }

  /** The rows after the k-th selected one are the selected rows with a greater id. */
  lemma SelectAfter(rows: seq<Row>, after: Option<nat>, filter: Filter, k: nat)
    requires Ascending(rows) && 0 < k <= |Select(rows, after, filter)|
    ensures var found := Select(rows, after, filter); Select(rows, Some(found[k - 1].id), filter) == found[k..]
  {
    var found := Select(rows, after, filter);
    var next := Select(rows, Some(found[k - 1].id), filter);
    SelectAscends(rows, after, filter);
    SelectAscends(rows, Some(found[k - 1].id), filter);
    assert found[k - 1] in found;
    forall r
      ensures r in found[k..] <==> r in next
    {
      if r in next {
        assert r in found;
        var i :| 0 <= i < |found| && found[i] == r;
        assert found[k..][i - k] == r;
      }
      if r in found[k..] {
        var i :| k <= i < |found| && found[i] == r;
        assert r in found && found[k - 1].id < r.id;
      }
    }
    AscendingSame(found[k..], next);
  }

  lemma NextPage(rows: seq<Row>, after: Option<nat>, filter: Filter, limit: nat)
    requires Ascending(rows) && limit > 0
    ensures var page := PageOf(rows, after, filter, limit);
            var found := Select(rows, after, filter);
            if page.nextCursor.Some?
            then |page.events| == limit && found == page.events + Select(rows, page.nextCursor, filter)
                 && Select(rows, page.nextCursor, filter) != []
            else |page.events| <= limit && found == page.events
  {
    var found := Select(rows, after, filter);
    if |found| > limit {
      SelectAfter(rows, after, filter, limit);
      assert found[..limit + 1][..limit] == found[..limit];
    }
  }

  /** Pagination refines a plain filter: every selected row once, in order, and no more. */
  lemma {:induction false} PagesAreTheFilter(rows: seq<Row>, after: Option<nat>, filter: Filter, limits: nat -> nat,
                                             k: nat)
    requires Ascending(rows) && forall i :: limits(i) > 0
    ensures Follow(rows, after, filter, limits, k) == Select(rows, after, filter)
    decreases |Select(rows, after, filter)|
  {
    var page := PageOf(rows, after, filter, limits(k));
    NextPage(rows, after, filter, limits(k));
    if page.nextCursor.Some? {
      PagesAreTheFilter(rows, page.nextCursor, filter, limits, k + 1);
    }
  }

  /* ---------- A consumer over a changing ledger ---------- */

  datatype ReplayError =
    | WindowExpired(requested: nat, floor: nat)
    | InvalidLimit(error: Cursors.QueryError)
    | LedgerUnavailable

  /** The window floor is above the cursor. */
  predicate Refuses(t: Tables, c: nat) {
    t.watermark.Some? && c < t.watermark.value
  }

  /** The service reads the watermark first, and the page in a separate query. */
  function TwoReads(checked: Tables, paged: Tables, after: Option<nat>, filter: Filter,
                    limit: nat): Result<Page, ReplayError>
    requires limit > 0
  {
    var requested := if after.Some? then after.value else 0;
    if Refuses(checked, requested) then Err(WindowExpired(requested, checked.watermark.value))
    else Ok(PageOf(paged.rows, after, filter, limit))
  }

  /** One whole request of the service with nothing in between. */
  function ReplayEvents(t: Tables, after: Option<nat>, filter: Filter, limit: nat): Result<Page, ReplayError>
    requires limit > 0
  {
    TwoReads(t, t, after, filter, limit)
  }

  /** What the ledger was when a request was made, and the limit it asked for. */
  datatype Visit = Visit(world: World, limit: nat)

  datatype Consumer = Consumer(delivered: seq<Row>, cursor: nat, refused: bool)

  /** After a page the consumer goes on from next_cursor, or from the last event it was given. */
  function NextFrom(page: Page, from: nat): nat {
    if page.nextCursor.Some? then page.nextCursor.value
    else if page.events != [] then page.events[|page.events| - 1].id
    else from
  }

  function Serve(before: Consumer, visit: Visit, filter: Filter): Consumer
    requires visit.limit > 0
  {
    var reply := ReplayEvents(visit.world.tables, Some(before.cursor), filter, visit.limit);
    if before.refused || reply.Err? then before.(refused := true)
    else Consumer(before.delivered + reply.value.events, NextFrom(reply.value, before.cursor), false)
  }

  /** The consumer after its first n visits. */
  function Consume(visits: seq<Visit>, filter: Filter, start: nat, n: nat): Consumer
    requires n <= |visits| && forall v | v in visits :: v.limit > 0
  {
    if n == 0 then Consumer([], start, false) else Serve(Consume(visits, filter, start, n - 1), visits[n - 1], filter)
  }

  ghost predicate AllOk(visits: seq<Visit>) {
    forall v | v in visits :: v.limit > 0 && Ascending(v.world.tables.rows)
  }

  lemma PrefixById(found: seq<Row>, n: nat)
    requires Ascending(found) && 0 < n <= |found|
    ensures forall r :: r in found[..n] <==> r in found && r.id <= found[n - 1].id
  {
  }

  /** A page is the front of the selection, and the consumer goes on from its last row. */
  lemma PageIsFront(rows: seq<Row>, from: nat, filter: Filter, limit: nat)
    requires limit > 0
    ensures var found, page := Select(rows, Some(from), filter), PageOf(rows, Some(from), filter, limit);
            var n := |page.events|;
            && n <= limit && n <= |found| && page.events == found[..n] && (n < |found| ==> n == limit)
            && NextFrom(page, from) == if n == 0 then from else found[n - 1].id
  {
  }

  /** A page is the selected rows up to the cursor the consumer goes on from. */
  lemma PageCovers(rows: seq<Row>, from: nat, filter: Filter, limit: nat)
    requires Ascending(rows) && limit > 0
    ensures var page := PageOf(rows, Some(from), filter, limit);
            && from <= NextFrom(page, from) && Ascending(page.events) && |page.events| <= limit
            && (forall r :: r in page.events <==>
                  r in rows && Replayable(r, Some(from), filter) && r.id <= NextFrom(page, from))
  {
    var found := Select(rows, Some(from), filter);
    SelectAscends(rows, Some(from), filter);
    PageIsFront(rows, from, filter, limit);
    var n := |PageOf(rows, Some(from), filter, limit).events|;
    if n > 0 {
      assert found[n - 1] in found;
      PrefixById(found, n);
    }
  }

  ghost predicate Orderly(c: Consumer, start: nat) {
    Ascending(c.delivered) && start <= c.cursor && forall r | r in c.delivered :: start < r.id <= c.cursor
  }

  lemma ServesInOrder(before: Consumer, visit: Visit, filter: Filter, start: nat)
    requires visit.limit > 0 && Ascending(visit.world.tables.rows) && Orderly(before, start)
    ensures Orderly(Serve(before, visit, filter), start)
  {
    var page := PageOf(visit.world.tables.rows, Some(before.cursor), filter, visit.limit);
    PageCovers(visit.world.tables.rows, before.cursor, filter, visit.limit);
    AscendsOn(before.delivered, page.events, before.cursor);
  }

  /** Cursors rise strictly, so nothing is delivered twice, and everything delivered has been passed. */
  lemma {:induction false} DeliveredAscends(visits: seq<Visit>, filter: Filter, start: nat, n: nat)
    requires n <= |visits| && AllOk(visits)
    ensures Orderly(Consume(visits, filter, start, n), start)
  {
    if n > 0 {
      DeliveredAscends(visits, filter, start, n - 1);
      ServesInOrder(Consume(visits, filter, start, n - 1), visits[n - 1], filter, start);
    }
  }

  lemma AscendsOn(a: seq<Row>, b: seq<Row>, cut: nat)
    requires Ascending(a) && Ascending(b)
    requires (forall r | r in a :: r.id <= cut) && (forall r | r in b :: cut < r.id)
    ensures Ascending(a + b)
  {
  }

  ghost predicate Given(delivered: seq<Row>, id: nat) {
    exists s :: s in delivered && s.id == id
  }

  /** One more visit: what it adds lies above the cursor it came with. */
  lemma ServesAbove(before: Consumer, visit: Visit, filter: Filter)
    requires visit.limit > 0 && Ascending(visit.world.tables.rows)
    ensures var after, rows := Serve(before, visit, filter), visit.world.tables.rows;
            && before.cursor <= after.cursor
            && (forall r :: r in after.delivered <==>
                  r in before.delivered
                  || (r in rows && Replayable(r, Some(before.cursor), filter) && r.id <= after.cursor))
  {
    PageCovers(visit.world.tables.rows, before.cursor, filter, visit.limit);
  }

  /** The consumer has passed the row, and was given it exactly if it was stored and matched as it stood. */
  ghost predicate Decided(c: Consumer, filter: Filter, r: Row) {
    r.id <= c.cursor && (if Replayable(r, None, filter) then r in c.delivered else !Given(c.delivered, r.id))
  }

  /** A visit decides about a row it passes. */
  lemma Passed(before: Consumer, visit: Visit, filter: Filter, start: nat, r: Row)
    requires visit.limit > 0 && Ascending(visit.world.tables.rows) && Orderly(before, start)
    requires r in visit.world.tables.rows && before.cursor < r.id <= Serve(before, visit, filter).cursor
    ensures Decided(Serve(before, visit, filter), filter, r)
  {
    var d := Serve(before, visit, filter).delivered;
    ServesAbove(before, visit, filter);
    if Given(d, r.id) {
      var s :| s in d && s.id == r.id;
      SameId(visit.world.tables.rows, r, s);
    }
  }

  /** Later visits change nothing about it. */
  lemma PassedBefore(before: Consumer, visit: Visit, filter: Filter, r: Row)
    requires visit.limit > 0 && Ascending(visit.world.tables.rows) && Decided(before, filter, r)
    ensures Decided(Serve(before, visit, filter), filter, r)
  {
    var d := Serve(before, visit, filter).delivered;
    ServesAbove(before, visit, filter);
    if Given(d, r.id) {
      var s :| s in d && s.id == r.id;
      assert s in before.delivered;
    }
  }

  lemma {:induction false} StaysDecided(visits: seq<Visit>, filter: Filter, start: nat, m: nat, n: nat, r: Row)
    requires AllOk(visits) && m <= n <= |visits| && Decided(Consume(visits, filter, start, m), filter, r)
    ensures Decided(Consume(visits, filter, start, n), filter, r)
  {
    if m < n {
      StaysDecided(visits, filter, start, m, n - 1, r);
      PassedBefore(Consume(visits, filter, start, n - 1), visits[n - 1], filter, r);
    }
  }

  /**
   The window a visit passes: a row with an id in it was delivered exactly if it was stored and
   matched the filter when the visit was made, whatever visits follow.
   */
  lemma MissedMeansNotStored(visits: seq<Visit>, filter: Filter, start: nat, i: nat, n: nat, r: Row)
    requires AllOk(visits) && i < n <= |visits| && r in visits[i].world.tables.rows
    requires Consume(visits, filter, start, i).cursor < r.id <= Consume(visits, filter, start, i + 1).cursor
    ensures Decided(Consume(visits, filter, start, n), filter, r)
  {
    DeliveredAscends(visits, filter, start, i);
    Passed(Consume(visits, filter, start, i), visits[i], filter, start, r);
    StaysDecided(visits, filter, start, i + 1, n, r);
  }

  /**
   No silent gap, for one visit: a row that was stored and matched at any earlier moment, seen by a
   visit or not, is given out by the visit that passes its id.
   */
  lemma PassedIsGiven(visits: seq<Visit>, filter: Filter, start: nat, earlier: World, i: nat, n: nat, r: Row)
    requires AllOk(visits) && i < n <= |visits|
    requires Sequential.Evolves(earlier, visits[i].world)
    requires r in earlier.tables.rows && Replayable(r, None, filter)
    requires Consume(visits, filter, start, i).cursor < r.id <= Consume(visits, filter, start, i + 1).cursor
    ensures r in Consume(visits, filter, start, n).delivered
  {
    var before, t := Consume(visits, filter, start, i), visits[i].world.tables;
    assert t.watermark.Some? ==> t.watermark.value <= before.cursor;
    assert r in t.rows;
    MissedMeansNotStored(visits, filter, start, i, n, r);
  }

  /* ---------- Visits of a sequential run ---------- */

  /** The stores after the first n jobs. */
  function WorldAt(cfg: Config, jobs: seq<Sequential.Job>, n: nat): World
    requires n <= |jobs|
  {
    Sequential.Play(cfg, EMPTY_WORLD, jobs[..n])
  }

  /** The visits of a consumer that calls between the jobs of a run, before the cuts[i]-th one. */
  function VisitsAt(cfg: Config, jobs: seq<Sequential.Job>, cuts: seq<nat>, limits: seq<nat>): (visits: seq<Visit>)
    requires |cuts| == |limits| && forall i | 0 <= i < |cuts| :: cuts[i] <= |jobs| && limits[i] > 0
    ensures |visits| == |cuts| && forall v | v in visits :: v.limit > 0
  {
    seq(|cuts|, i requires 0 <= i < |cuts| => Visit(WorldAt(cfg, jobs, cuts[i]), limits[i]))
  }

  lemma LaterVisit(cfg: Config, jobs: seq<Sequential.Job>, m: nat, n: nat)
    requires CollisionFree(cfg) && (forall j | j in jobs :: Sequential.JobOk(cfg, j)) && m <= n <= |jobs|
    ensures var v, w := WorldAt(cfg, jobs, m), WorldAt(cfg, jobs, n);
            TablesOk(v.tables) && Sequential.Evolves(v, w)
  {
    Sequential.PlayKeeps(cfg, EMPTY_WORLD, jobs[..m]);
    Sequential.PlayKeeps(cfg, WorldAt(cfg, jobs, m), jobs[m..n]);
    Sequential.PlayAppend(cfg, EMPTY_WORLD, jobs[..m], jobs[m..n]);
    assert jobs[..m] + jobs[m..n] == jobs[..n];
  }

  lemma VisitsOfARun(cfg: Config, jobs: seq<Sequential.Job>, cuts: seq<nat>, limits: seq<nat>)
    requires CollisionFree(cfg) && (forall j | j in jobs :: Sequential.JobOk(cfg, j))
    requires |cuts| == |limits| && (forall i | 0 <= i < |cuts| :: cuts[i] <= |jobs| && limits[i] > 0)
    ensures AllOk(VisitsAt(cfg, jobs, cuts, limits))
  {
    var visits := VisitsAt(cfg, jobs, cuts, limits);
    forall i | 0 <= i < |visits|
      ensures TablesOk(visits[i].world.tables)
    {
      LaterVisit(cfg, jobs, cuts[i], cuts[i]);
    }
  }

  /** An id between the start and the cursor was passed by one of the visits. */
  lemma {:induction false} PassingVisit(visits: seq<Visit>, filter: Filter, start: nat, n: nat, id: nat)
    returns (i: nat)
    requires AllOk(visits) && n <= |visits| && start < id <= Consume(visits, filter, start, n).cursor
    ensures i < n && Consume(visits, filter, start, i).cursor < id <= Consume(visits, filter, start, i + 1).cursor
  {
    if Consume(visits, filter, start, n - 1).cursor < id {
      i := n - 1;
    } else {
      i := PassingVisit(visits, filter, start, n - 1, id);
    }
  }

  /**
   No silent gap: in any sequential history, with calls at any of its moments, take a row that was
   stored and matched at some moment, and that the consumer's cursor has gone past. Some call passed
   it, and unless it was stored only after that call it has been given out. That includes a row stored
   and retained between two calls, which no call ever saw: the next call is refused and passes nothing.
   */
  lemma NoSilentGap(cfg: Config, jobs: seq<Sequential.Job>, cuts: seq<nat>, limits: seq<nat>, filter: Filter,
                    start: nat, m: nat, r: Row)
    returns (i: nat)
    requires CollisionFree(cfg) && (forall j | j in jobs :: Sequential.JobOk(cfg, j)) && m <= |jobs|
    requires |cuts| == |limits| && (forall k | 0 <= k < |cuts| :: cuts[k] <= |jobs| && limits[k] > 0)
    requires r in WorldAt(cfg, jobs, m).tables.rows && Replayable(r, None, filter)
    requires start < r.id <= Consume(VisitsAt(cfg, jobs, cuts, limits), filter, start, |cuts|).cursor
    ensures var visits := VisitsAt(cfg, jobs, cuts, limits);
            && i < |cuts|
            && Consume(visits, filter, start, i).cursor < r.id <= Consume(visits, filter, start, i + 1).cursor
            && (m <= cuts[i] ==> r in Consume(visits, filter, start, |cuts|).delivered)
  {
    var visits := VisitsAt(cfg, jobs, cuts, limits);
    VisitsOfARun(cfg, jobs, cuts, limits);
    i := PassingVisit(visits, filter, start, |cuts|, r.id);
    if m <= cuts[i] {
      LaterVisit(cfg, jobs, m, cuts[i]);
      PassedIsGiven(visits, filter, start, WorldAt(cfg, jobs, m), i, |cuts|, r);
    }
  }

  /**
   The floor check and the page are two reads, and runs may fall between them. A row that was there
   for the check is missing from the rows the page is cut from exactly if it has been deleted since,
   and then the same request, made whole at the second moment, is refused.
   */
  lemma BetweenTheReads(checked: World, paged: World, after: Option<nat>, filter: Filter, limit: nat, r: Row)
    requires TablesOk(checked.tables) && Sequential.Evolves(checked, paged) && limit > 0
    requires r in checked.tables.rows && Replayable(r, after, filter)
    requires TwoReads(checked.tables, paged.tables, after, filter, limit).Ok?
    ensures r in Select(paged.tables.rows, after, filter) <==> Sequential.HasId(paged.tables.rows, r.id)
    ensures !Sequential.HasId(paged.tables.rows, r.id) ==> ReplayEvents(paged.tables, after, filter, limit).Err?
  {
  }

  /* ---------- When a request comes to be refused ---------- */

  lemma {:induction false} IngestLeavesFloor(cfg: Config, w: World, q: Request, pc: Pc, faults: seq<Fault>)
    requires Walk(cfg, w, Ingesting(q, pc), faults).Some?
    ensures var (v, p) := Walk(cfg, w, Ingesting(q, pc), faults).value;
            v.tables.watermark == w.tables.watermark && p.Ingesting? && p.q == q
  {
    if faults != [] {
      IngestLeavesFloor(cfg, w, q, pc, faults[..|faults| - 1]);
    }
  }

  /** A commit that moves the watermark to c or beyond, from below, has deleted the row at the new watermark. */
  lemma CommitTakesLast(w: World, through: nat, limit: int, n: nat) returns (r: Row)
    requires TablesOk(w.tables) && 0 < n <= |Retention.Candidates(w.tables, through, limit)|
    ensures var after := Retention.Committed(w, Retention.Candidates(w.tables, through, limit), n).tables;
            && r in w.tables.rows && r.status.Stored? && after.watermark == Some(r.id)
            && !Sequential.HasId(after.rows, r.id)
  {
    var c := Retention.Candidates(w.tables, through, limit);
    r := c[n - 1];
    Retention.CommittedMeans(w, through, limit, n);
    assert r in StoredBetween(w.tables.rows, w.tables.watermark, through);
    if s :| s in Retention.Committed(w, c, n).tables.rows && s.id == r.id {
      SameId(w.tables.rows, r, s);
    }
  }

  /** So a job that moves the watermark takes the stored row it is moved to. */
  lemma JobTakes(cfg: Config, w: World, j: Sequential.Job) returns (r: Row)
    requires TablesOk(w.tables) && Sequential.JobOk(cfg, j)
    requires Sequential.PlayJob(cfg, w, j).0.tables.watermark != w.tables.watermark
    ensures var after := Sequential.PlayJob(cfg, w, j).0.tables;
            && r in w.tables.rows && r.status.Stored? && after.watermark == Some(r.id)
            && !Sequential.HasId(after.rows, r.id)
  {
    match j.start {
      case Ingesting(q, pc) => IngestLeavesFloor(cfg, w, q, pc, j.faults);
      case Retaining(through, limit, _) =>
        Retention.AnyRun(cfg, w, through, limit, j.faults);
        var c := Retention.Candidates(w.tables, through, limit);
        var n :| 0 < n && Retention.StopsAt(cfg, w, c, n, false)
                 && Sequential.PlayJob(cfg, w, j).0 == Retention.Committed(w, c, n);
        r := CommitTakesLast(w, through, limit, n);
    }
  }

  /** The job during which the watermark went past the cursor. */
  lemma {:induction false} PassingJob(cfg: Config, jobs: seq<Sequential.Job>, c: nat, m: nat, n: nat) returns (k: nat)
    requires m <= n <= |jobs|
    requires !Refuses(WorldAt(cfg, jobs, m).tables, c) && Refuses(WorldAt(cfg, jobs, n).tables, c)
    ensures m <= k < n && !Refuses(WorldAt(cfg, jobs, k).tables, c) && Refuses(WorldAt(cfg, jobs, k + 1).tables, c)
  {
    if Refuses(WorldAt(cfg, jobs, n - 1).tables, c) {
      k := PassingJob(cfg, jobs, c, m, n - 1);
    } else {
      k := n - 1;
    }
  }

  /** A row above the cursor, stored at the first moment, is not there at the second. */
  ghost predicate Missing(cfg: Config, jobs: seq<Sequential.Job>, k: nat, n: nat, c: nat, r: Row)
    requires k <= |jobs| && n <= |jobs|
  {
    && r in WorldAt(cfg, jobs, k).tables.rows && r.status.Stored? && c < r.id
    && !Sequential.HasId(WorldAt(cfg, jobs, n).tables.rows, r.id)
  }

  lemma MissingLasts(cfg: Config, jobs: seq<Sequential.Job>, k: nat, n: nat, c: nat, r: Row)
    requires CollisionFree(cfg) && (forall j | j in jobs :: Sequential.JobOk(cfg, j)) && k < n <= |jobs|
    requires Missing(cfg, jobs, k, k + 1, c, r)
    ensures Missing(cfg, jobs, k, n, c, r)
  {
    LaterVisit(cfg, jobs, k, k + 1);
    LaterVisit(cfg, jobs, k + 1, n);
  }

  lemma RefusedTakes(cfg: Config, jobs: seq<Sequential.Job>, c: nat, m: nat, n: nat) returns (k: nat, r: Row)
    requires CollisionFree(cfg) && (forall j | j in jobs :: Sequential.JobOk(cfg, j)) && m <= n <= |jobs|
    requires !Refuses(WorldAt(cfg, jobs, m).tables, c) && Refuses(WorldAt(cfg, jobs, n).tables, c)
    ensures m <= k < n && Missing(cfg, jobs, k, n, c, r)
  {
    k := PassingJob(cfg, jobs, c, m, n);
    LaterVisit(cfg, jobs, k, k);
    assert jobs[..k + 1][..k] == jobs[..k];
    r := JobTakes(cfg, WorldAt(cfg, jobs, k), jobs[k]);
    MissingLasts(cfg, jobs, k, n, c, r);
  }

  /**
   In any sequential history, a request that is accepted at one moment and made again, whole, at a later
   one is refused then exactly if a row above its cursor that was stored at some moment in between is gone.
   */
  lemma RefusedExactly(cfg: Config, jobs: seq<Sequential.Job>, m: nat, n: nat, c: nat, filter: Filter, limit: nat)
    requires CollisionFree(cfg) && (forall j | j in jobs :: Sequential.JobOk(cfg, j)) && m <= n <= |jobs| && limit > 0
    requires ReplayEvents(WorldAt(cfg, jobs, m).tables, Some(c), filter, limit).Ok?
    ensures ReplayEvents(WorldAt(cfg, jobs, n).tables, Some(c), filter, limit).Err?
            <==> exists k, r :: m <= k < n && Missing(cfg, jobs, k, n, c, r)
  {
    if Refuses(WorldAt(cfg, jobs, n).tables, c) {
      var k, r := RefusedTakes(cfg, jobs, c, m, n);
    }
    if k, r :| m <= k < n && Missing(cfg, jobs, k, n, c, r) {
      LaterVisit(cfg, jobs, k, n);
    }
  }
}
