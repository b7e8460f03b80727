/**
 The replay window under concurrency. However many ingests are under way and whatever fails, the window
 slides exactly as long as no retention run commits below the watermark that another one has set
 meanwhile; then a request the floor check accepts has no deleted row above its cursor. Retention runs
 that do not overlap never do, and each that deletes strictly raises the watermark.
 */
module Window {
  import opened Wrappers
  import opened Faults
  import opened Requests
  import opened Ledger
  import opened LedgerFacts
  import opened Machine
  import opened System
  import opened Replay
  import Sequential

  /** Rows go only below the watermark, the watermark only rises, and ids do not come back. */
  ghost predicate Slides(before: Tables, after: Tables) {
    && (forall r | r in before.rows ::
          Sequential.HasId(after.rows, r.id) || (after.watermark.Some? && r.id <= after.watermark.value))
    && (before.watermark.Some? ==> after.watermark.Some? && before.watermark.value <= after.watermark.value)
    && before.nextId <= after.nextId
    && (forall r | r in after.rows && r.id < before.nextId :: Sequential.HasId(before.rows, r.id))
  }

  /** A change of the tables that deletes a row moves the watermark up, to that row or beyond. */
  ghost predicate DeletingRaises(before: Tables, after: Tables) {
    forall r | r in before.rows && !Sequential.HasId(after.rows, r.id) ::
      && after.watermark.Some? && r.id <= after.watermark.value
      && Sequential.AboveFloor(before.watermark, after.watermark.value)
  }

  lemma SlidesOn(a: Tables, b: Tables, c: Tables)
    requires Slides(a, b) && Slides(b, c)
    ensures Slides(a, c)
  {
  }

  /** Rows that are only added or relabelled. */
  lemma SameIdsSlide(before: Tables, after: Tables)
    requires TablesOk(before) && after.watermark == before.watermark && before.nextId <= after.nextId
    requires |before.rows| <= |after.rows| && forall i | 0 <= i < |before.rows| :: after.rows[i].id == before.rows[i].id
    requires forall i | |before.rows| <= i < |after.rows| :: before.nextId <= after.rows[i].id
    ensures Slides(before, after) && DeletingRaises(before, after)
  {
  }

  lemma CreateSlides(t: Tables, q: Request)
    requires TablesOk(t)
    ensures TablesOk(Create(t, q)) && Slides(t, Create(t, q)) && DeletingRaises(t, Create(t, q))
  {
    CreateKeepsTables(t, q);
    SameIdsSlide(t, Create(t, q));
  }

  lemma UpdatesSlide(t: Tables, q: Request, uri: Uri)
    requires TablesOk(t)
    ensures TablesOk(SetStored(t, q.eventId, uri)) && Slides(t, SetStored(t, q.eventId, uri))
    ensures DeletingRaises(t, SetStored(t, q.eventId, uri))
    ensures TablesOk(SetFailed(t, q.eventId)) && Slides(t, SetFailed(t, q.eventId))
    ensures DeletingRaises(t, SetFailed(t, q.eventId))
  {
    UpdatesKeepTables(t, q.eventId, uri);
    SameIdsSlide(t, SetStored(t, q.eventId, uri));
    SameIdsSlide(t, SetFailed(t, q.eventId));
  }

  lemma IngestSlides(cfg: Config, q: Request, w: World, pc: Pc, fault: Fault)
    requires TablesOk(w.tables)
    ensures var after := IngestStep(cfg, q, w, pc, fault).0.tables;
            && TablesOk(after) && Slides(w.tables, after) && DeletingRaises(w.tables, after)
            && after.watermark == w.tables.watermark
  {
    if fault.TakesEffect() && pc.Creating? {
      CreateSlides(w.tables, q);
    } else if fault.TakesEffect() && (pc.Marking? || pc.MarkingFailed?) {
      UpdatesSlide(w.tables, q, if pc.Marking? then pc.written else Uri(q.finalKey));
    } else {
      SameIdsSlide(w.tables, IngestStep(cfg, q, w, pc, fault).0.tables);
    }
  }

  /* ---------- Exactly when the window slides ---------- */

  /** Within a run, candidates and confirmed ids ascend, whatever the floor has become. */
  ghost predicate Ordered(pc: RetainPc) {
    pc.ReadingCandidates? || Sequential.RetainOk(EMPTY_WORLD, pc)
  }

  ghost predicate SystemOrdered(s: System) {
    && TablesOk(s.world.tables)
    && (forall id | id in s.procs && s.procs[id].Retaining? :: Ordered(s.procs[id].rpc))
  }

  lemma CandidatesOrdered(cfg: Config, through: nat, limit: int, t: Tables, floor: Option<nat>)
    requires TablesOk(t)
    ensures Ordered(NextCandidate(cfg, through, Take(StoredBetween(t.rows, floor, through), EffectiveLimit(limit)), []))
  {
    var found := StoredBetween(t.rows, floor, through);
    StoredBetweenAscends(t.rows, floor, through);
    Sequential.NextCandidateOk(cfg, EMPTY_WORLD, through, Take(found, EffectiveLimit(limit)), []);
  }

  lemma RetainOrdered(cfg: Config, through: nat, limit: int, w: World, pc: RetainPc, fault: Fault)
    requires TablesOk(w.tables) && Ordered(pc)
    ensures var (v, next) := RetainStep(cfg, through, limit, w, pc, fault); TablesOk(v.tables) && Ordered(next)
  {
    match pc {
      case ReadingCandidates(floor) => CandidatesOrdered(cfg, through, limit, w.tables, floor);
      case ConfirmingRow(rest, confirmed) =>
        if rest != [] {
          Sequential.ConfirmedOneMore(EMPTY_WORLD, rest, confirmed);
          Sequential.NextCandidateOk(cfg, EMPTY_WORLD, through, rest[1..], confirmed + [rest[0].id]);
        }
      case Committing(confirmed, _) =>
        RetainKeepsTables(w.tables, confirmed, Last(confirmed));
      case _ =>
    }
  }

  /** The watermark is overwritten: the window slides exactly if it is not set back. */
  lemma CommitSlidesExactly(t: Tables, ids: seq<nat>)
    requires TablesOk(t) && ids != [] && forall id | id in ids :: id <= Last(ids)
    ensures Slides(t, Retain(t, ids, Last(ids))) <==> (t.watermark.Some? ==> t.watermark.value <= Last(ids))
  {
  }

  /** An event is not a commit that takes effect below the present watermark. */
  ghost predicate CommitRaises(s: System, e: Event) {
    && e.Advance? && e.id in s.procs && s.procs[e.id].Retaining? && s.procs[e.id].rpc.Committing?
    && s.procs[e.id].rpc.confirmed != [] && e.fault.TakesEffect() && s.world.tables.watermark.Some?
    ==> s.world.tables.watermark.value <= Last(s.procs[e.id].rpc.confirmed)
  }

  lemma EventSlidesExactly(cfg: Config, s: System, e: Event)
    requires SystemOrdered(s)
    ensures SystemOrdered(Apply(cfg, s, e))
    ensures Slides(s.world.tables, Apply(cfg, s, e).world.tables) <==> CommitRaises(s, e)
  {
    SameIdsSlide(s.world.tables, s.world.tables);
    if e.Advance? && e.id in s.procs {
      match s.procs[e.id] {
        case Ingesting(q, pc) => IngestSlides(cfg, q, s.world, pc, e.fault);
        case Retaining(through, limit, pc) =>
          RetainOrdered(cfg, through, limit, s.world, pc, e.fault);
          if pc.Committing? {
            CommitSlidesExactly(s.world.tables, pc.confirmed);
          }
      }
    }
  }

  ghost predicate RaisesAt(cfg: Config, events: seq<Event>, n: nat)
    requires n < |events|
  {
    CommitRaises(Run(cfg, EMPTY_SYSTEM, events[..n]), events[n])
  }

  /** The tables after the first n events. */
  function TablesAt(cfg: Config, events: seq<Event>, n: nat): Tables
    requires n <= |events|
  {
    Run(cfg, EMPTY_SYSTEM, events[..n]).world.tables
  }

  ghost predicate SlidesAt(cfg: Config, events: seq<Event>, n: nat)
    requires n < |events|
  {
    Slides(TablesAt(cfg, events, n), TablesAt(cfg, events, n + 1))
  }

  ghost predicate AllCommitsRaise(cfg: Config, events: seq<Event>) {
    forall n | 0 <= n < |events| :: RaisesAt(cfg, events, n)
  }

  lemma RunSnoc(cfg: Config, s: System, events: seq<Event>, n: nat)
    requires n < |events|
    ensures Run(cfg, s, events[..n + 1]) == Apply(cfg, Run(cfg, s, events[..n]), events[n])
  {
    assert events[..n + 1] == events[..n] + [events[n]];
    RunThen(cfg, s, events[..n], events[n]);
  }

  lemma {:induction false} RunOrdered(cfg: Config, s: System, events: seq<Event>, n: nat)
    requires SystemOrdered(s) && n <= |events|
    ensures SystemOrdered(Run(cfg, s, events[..n]))
  {
    if n > 0 {
      RunOrdered(cfg, s, events, n - 1);
      RunSnoc(cfg, s, events, n - 1);
      EventSlidesExactly(cfg, Run(cfg, s, events[..n - 1]), events[n - 1]);
    }
  }

  lemma SlidesAtExactly(cfg: Config, events: seq<Event>, n: nat)
    requires n < |events|
    ensures SlidesAt(cfg, events, n) <==> RaisesAt(cfg, events, n)
  {
    RunOrdered(cfg, EMPTY_SYSTEM, events, n);
    RunSnoc(cfg, EMPTY_SYSTEM, events, n);
    EventSlidesExactly(cfg, Run(cfg, EMPTY_SYSTEM, events[..n]), events[n]);
  }

  /** In any run whatever, every event slides the window exactly if every commit raises the watermark. */
  lemma SlidesExactly(cfg: Config, events: seq<Event>)
    ensures (forall n | 0 <= n < |events| :: SlidesAt(cfg, events, n)) <==> AllCommitsRaise(cfg, events)
  {
    forall n | 0 <= n < |events|
      ensures SlidesAt(cfg, events, n) <==> RaisesAt(cfg, events, n)
    {
      SlidesAtExactly(cfg, events, n);
    }
  }

  /** And then it slides between any two moments. */
  lemma {:induction false} RunSlides(cfg: Config, events: seq<Event>, m: nat, n: nat)
    requires AllCommitsRaise(cfg, events) && m <= n <= |events|
    ensures Slides(TablesAt(cfg, events, m), TablesAt(cfg, events, n))
  {
    if m == n {
      RunOrdered(cfg, EMPTY_SYSTEM, events, m);
      SameIdsSlide(TablesAt(cfg, events, m), TablesAt(cfg, events, m));
    } else {
      RunSlides(cfg, events, m, n - 1);
      assert RaisesAt(cfg, events, n - 1);
      SlidesAtExactly(cfg, events, n - 1);
      SlidesOn(TablesAt(cfg, events, m), TablesAt(cfg, events, n - 1), TablesAt(cfg, events, n));
    }
  }

  /**
   No silent gap from retention: between any two moments of a run in which every commit raises the
   watermark, a request accepted at the second with cursor c has no row above c missing that was there
   at the first.
   */
  lemma NothingDeletedAbove(cfg: Config, first: seq<Event>, later: seq<Event>, c: nat, filter: Filter, limit: nat,
                            r: Row)
    requires AllCommitsRaise(cfg, first + later) && limit > 0
    requires r in Run(cfg, EMPTY_SYSTEM, first).world.tables.rows && c < r.id
    requires Replay.ReplayEvents(Run(cfg, EMPTY_SYSTEM, first + later).world.tables, Some(c), filter, limit).Ok?
    ensures Sequential.HasId(Run(cfg, EMPTY_SYSTEM, first + later).world.tables.rows, r.id)
  {
    assert (first + later)[..|first|] == first && (first + later)[..|first + later|] == first + later;
    RunSlides(cfg, first + later, |first|, |first + later|);
  }

  /**
   With anything at all between the floor check and the page: a row above the cursor that was there for
   the check is gone for the page only if the same request made whole by then would be refused.
   */
  lemma GoneBetweenTheReads(cfg: Config, events: seq<Event>, m: nat, n: nat, c: nat, filter: Filter, limit: nat, r: Row)
    requires AllCommitsRaise(cfg, events) && m <= n <= |events| && limit > 0
    requires r in TablesAt(cfg, events, m).rows && c < r.id
    requires TwoReads(TablesAt(cfg, events, m), TablesAt(cfg, events, n), Some(c), filter, limit).Ok?
    ensures Sequential.HasId(TablesAt(cfg, events, n).rows, r.id)
            || Replay.ReplayEvents(TablesAt(cfg, events, n), Some(c), filter, limit).Err?
  {
    RunSlides(cfg, events, m, n);
  }

  /* ---------- A consumer of such a run ---------- */

  /** Calls that may fall between any two store calls, after the cuts[i]-th event. */
  function VisitsOf(cfg: Config, events: seq<Event>, cuts: seq<nat>, limits: seq<nat>): (visits: seq<Visit>)
    requires |cuts| == |limits| && forall i | 0 <= i < |cuts| :: cuts[i] <= |events| && limits[i] > 0
    ensures |visits| == |cuts| && forall v | v in visits :: v.limit > 0
  {
    seq(|cuts|, i requires 0 <= i < |cuts| => Visit(Run(cfg, EMPTY_SYSTEM, events[..cuts[i]]).world, limits[i]))
  }

  lemma VisitsAreOk(cfg: Config, events: seq<Event>, cuts: seq<nat>, limits: seq<nat>)
    requires |cuts| == |limits| && forall i | 0 <= i < |cuts| :: cuts[i] <= |events| && limits[i] > 0
    ensures AllOk(VisitsOf(cfg, events, cuts, limits))
  {
    var visits := VisitsOf(cfg, events, cuts, limits);
    forall i | 0 <= i < |visits|
      ensures TablesOk(visits[i].world.tables)
    {
      RunOrdered(cfg, EMPTY_SYSTEM, events, cuts[i]);
    }
  }

  /** A visit that passes an id was accepted, so no row that was there before it and has that id is missing. */
  lemma PassedIsThere(before: Consumer, visit: Visit, filter: Filter, earlier: Tables, r: Row)
    requires visit.limit > 0 && Slides(earlier, visit.world.tables)
    requires r in earlier.rows && before.cursor < r.id <= Serve(before, visit, filter).cursor
    ensures Sequential.HasId(visit.world.tables.rows, r.id)
  {
  }

  /**
   No silent gap under concurrency. In any run in which every commit raises the watermark, with calls at
   any moments of it, take a row that was in the ledger at some moment and that the cursor has gone past.
   Some call passed it; unless the row was inserted only after that call it was still there, and it was
   given out exactly if it was stored and matched then.
   */
  lemma NoSilentGap(cfg: Config, events: seq<Event>, cuts: seq<nat>, limits: seq<nat>, filter: Filter, start: nat,
                    m: nat, r: Row) returns (i: nat)
    requires AllCommitsRaise(cfg, events) && m <= |events| && r in TablesAt(cfg, events, m).rows
    requires |cuts| == |limits| && (forall k | 0 <= k < |cuts| :: cuts[k] <= |events| && limits[k] > 0)
    requires start < r.id <= Consume(VisitsOf(cfg, events, cuts, limits), filter, start, |cuts|).cursor
    ensures var visits := VisitsOf(cfg, events, cuts, limits);
            && i < |cuts|
            && Consume(visits, filter, start, i).cursor < r.id <= Consume(visits, filter, start, i + 1).cursor
            && (m <= cuts[i] ==>
                  exists s :: s in visits[i].world.tables.rows && s.id == r.id
                              && Decided(Consume(visits, filter, start, |cuts|), filter, s))
  {
    var visits := VisitsOf(cfg, events, cuts, limits);
    VisitsAreOk(cfg, events, cuts, limits);
    i := PassingVisit(visits, filter, start, |cuts|, r.id);
    if m <= cuts[i] {
      RunSlides(cfg, events, m, cuts[i]);
      PassedIsThere(Consume(visits, filter, start, i), visits[i], filter, TablesAt(cfg, events, m), r);
      var s :| s in visits[i].world.tables.rows && s.id == r.id;
      MissedMeansNotStored(visits, filter, start, i, |cuts|, s);
    }
  }

  /* ---------- Retention runs that do not overlap ---------- */

  ghost predicate Retains(s: System, id: nat) {
    id in s.procs && s.procs[id].Retaining? && !s.procs[id].Finished()
  }

  ghost predicate AtMostOne(s: System) {
    forall i, j | Retains(s, i) && Retains(s, j) :: i == j
  }

  ghost predicate RetentionAlone(cfg: Config, s: System, events: seq<Event>) {
    forall n | 0 <= n <= |events| :: AtMostOne(Run(cfg, s, events[..n]))
  }

  ghost predicate SystemOk(s: System) {
    && TablesOk(s.world.tables)
    && (forall id | Retains(s, id) :: Sequential.RetainOk(s.world, s.procs[id].rpc))
  }

  lemma CommitSlides(w: World, confirmed: seq<nat>)
    requires TablesOk(w.tables) && Sequential.RetainOk(w, Committing(confirmed, 0))
    ensures var after := Retain(w.tables, confirmed, Last(confirmed));
            TablesOk(after) && Slides(w.tables, after) && DeletingRaises(w.tables, after)
  {
    RetainKeepsTables(w.tables, confirmed, Last(confirmed));
    var after := Retain(w.tables, confirmed, Last(confirmed));
    assert Last(confirmed) in confirmed;
    forall r | r in after.rows
      ensures Sequential.HasId(w.tables.rows, r.id)
    {
    }
    forall r | r in w.tables.rows && !Sequential.HasId(after.rows, r.id)
      ensures r.id in confirmed
    {
      assert r !in after.rows;
    }
  }

  lemma RetainSlides(cfg: Config, through: nat, limit: int, w: World, pc: RetainPc, fault: Fault)
    requires TablesOk(w.tables) && Sequential.RetainOk(w, pc)
    ensures var (w', pc') := RetainStep(cfg, through, limit, w, pc, fault);
            && TablesOk(w'.tables) && Slides(w.tables, w'.tables) && DeletingRaises(w.tables, w'.tables)
            && Sequential.RetainOk(w', pc')
  {
    SameIdsSlide(w.tables, w.tables);
    if pc.Committing? {
      CommitSlides(w, pc.confirmed);
    } else {
      Sequential.NextRetainOk(cfg, through, limit, w, pc, fault);
    }
  }

  lemma ApplySlides(cfg: Config, s: System, e: Event)
    requires SystemOk(s) && AtMostOne(s)
    ensures var s' := Apply(cfg, s, e);
            SystemOk(s') && Slides(s.world.tables, s'.world.tables) && DeletingRaises(s.world.tables, s'.world.tables)
  {
    SameIdsSlide(s.world.tables, s.world.tables);
    if e.Advance? && e.id in s.procs {
      AdvanceSlides(cfg, s, e.id, e.fault);
    }
  }

  lemma AdvanceSlides(cfg: Config, s: System, id: nat, fault: Fault)
    requires SystemOk(s) && AtMostOne(s) && id in s.procs
    ensures var s' := Apply(cfg, s, Advance(id, fault));
            SystemOk(s') && Slides(s.world.tables, s'.world.tables) && DeletingRaises(s.world.tables, s'.world.tables)
  {
    var s' := Apply(cfg, s, Advance(id, fault));
    SameIdsSlide(s.world.tables, s.world.tables);
    match s.procs[id] {
      case Ingesting(q, pc) =>
        IngestSlides(cfg, q, s.world, pc, fault);
        forall other | Retains(s', other)
          ensures Sequential.RetainOk(s'.world, s'.procs[other].rpc)
        {
          assert Retains(s, other);
        }
      case Retaining(through, limit, pc) =>
        if !pc.Retained? {
          RetainSlides(cfg, through, limit, s.world, pc, fault);
          assert Retains(s, id);
          forall other | Retains(s', other)
            ensures other == id
          {
            assert other != id ==> Retains(s, other);
          }
        }
    }
  }

  lemma {:induction false} RunAloneOk(cfg: Config, events: seq<Event>, n: nat)
    requires RetentionAlone(cfg, EMPTY_SYSTEM, events) && n <= |events|
    ensures SystemOk(Run(cfg, EMPTY_SYSTEM, events[..n]))
  {
    if n > 0 {
      RunAloneOk(cfg, events, n - 1);
      RunSnoc(cfg, EMPTY_SYSTEM, events, n - 1);
      ApplySlides(cfg, Run(cfg, EMPTY_SYSTEM, events[..n - 1]), events[n - 1]);
    }
  }

  /** Then every commit raises the watermark, so all of the above holds. */
  lemma AloneCommitsRaise(cfg: Config, events: seq<Event>)
    requires RetentionAlone(cfg, EMPTY_SYSTEM, events)
    ensures AllCommitsRaise(cfg, events)
  {
    forall n | 0 <= n < |events|
      ensures RaisesAt(cfg, events, n)
    {
      RunAloneOk(cfg, events, n);
      var s := Run(cfg, EMPTY_SYSTEM, events[..n]);
      if events[n].Advance? && events[n].id in s.procs
         && s.procs[events[n].id].Retaining? && s.procs[events[n].id].rpc.Committing? {
        assert Retains(s, events[n].id);
        var confirmed := s.procs[events[n].id].rpc.confirmed;
        assert confirmed != [] && Last(confirmed) in confirmed;
      }
    }
  }

  /** Every single event: a row that goes is covered by a watermark that has strictly risen. */
  lemma EveryDeletionRaises(cfg: Config, events: seq<Event>, e: Event)
    requires RetentionAlone(cfg, EMPTY_SYSTEM, events)
    ensures DeletingRaises(Run(cfg, EMPTY_SYSTEM, events).world.tables,
                           Run(cfg, EMPTY_SYSTEM, events + [e]).world.tables)
  {
    RunAloneOk(cfg, events, |events|);
    assert AtMostOne(Run(cfg, EMPTY_SYSTEM, events[..|events|])) && events[..|events|] == events;
    ApplySlides(cfg, Run(cfg, EMPTY_SYSTEM, events), e);
    RunThen(cfg, EMPTY_SYSTEM, events, e);
  }
}
