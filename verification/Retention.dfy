/**
 What a retention run running alone does: it deletes an archive-confirmed prefix of the stored rows
 above the watermark, all of it unless a store call failed, and raises the watermark to the last.
 */
module Retention {
  import opened Wrappers
  import opened Faults
  import opened Ledger
  import opened LedgerFacts
  import opened Machine
  import Sequential

  function Ids(rows: seq<Row>): (ids: seq<nat>)
    ensures |ids| == |rows| && forall i | 0 <= i < |rows| :: ids[i] == rows[i].id
  {
    seq(|rows|, i requires 0 <= i < |rows| => rows[i].id)
  }

  /** The stored rows in (watermark, through], in order. */
  function InRange(t: Tables, through: nat): seq<Row> {
    StoredBetween(t.rows, t.watermark, through)
  }

  function Candidates(t: Tables, through: nat, limit: int): seq<Row> {
    Take(InRange(t, through), EffectiveLimit(limit))
  }

  ghost predicate AllConfirmed(cfg: Config, w: World, rows: seq<Row>) {
    forall r | r in rows :: Confirmed(cfg, w.objects, r)
  }

  /** The first n candidates are deleted, and the watermark is the last of them. */
  function Committed(w: World, c: seq<Row>, n: nat): World
    requires n <= |c|
  {
    if n == 0 then w else w.(tables := Retain(w.tables, Ids(c[..n]), c[n - 1].id))
  }

  function ResultOf(through: nat, c: seq<Row>, n: nat): RetentionResult
    requires n <= |c|
  {
    RetentionResult(through, if n == 0 then None else Some(c[n - 1].id), n, n, if n < |c| then 1 else 0)
  }

  /** The run stopped after n candidates; without faults only an unconfirmed one stops it. */
  ghost predicate StopsAt(cfg: Config, w: World, c: seq<Row>, n: nat, clean: bool) {
    && n <= |c| && AllConfirmed(cfg, w, c[..n])
    && (clean && n < |c| ==> !Confirmed(cfg, w.objects, c[n]))
  }

  /** Where a run that began in w may be, and what it has done to the stores by then. */
  ghost predicate RetainAt(cfg: Config, w: World, through: nat, limit: int, v: World, pc: RetainPc, clean: bool) {
    var c := Candidates(w.tables, through, limit);
    match pc
    case ReadingFloor => v == w
    case ReadingCandidates(floor) => v == w && floor == w.tables.watermark
    case ConfirmingRow(rest, confirmed) =>
      && v == w && |confirmed| < |c| && rest == c[|confirmed|..] && confirmed == Ids(c[..|confirmed|])
      && AllConfirmed(cfg, w, c[..|confirmed|])
    case Committing(confirmed, skipped) =>
      && v == w && 0 < |confirmed| && StopsAt(cfg, w, c, |confirmed|, clean)
      && confirmed == Ids(c[..|confirmed|]) && skipped == ResultOf(through, c, |confirmed|).skipped
    case Retained(None) => !clean && (v == w || exists n :: StopsAt(cfg, w, c, n, false) && v == Committed(w, c, n))
    case Retained(Some(result)) =>
      exists n :: StopsAt(cfg, w, c, n, clean) && v == Committed(w, c, n) && result == ResultOf(through, c, n)
  }

  /** Deleting stored rows by their ids takes exactly those rows. */
  lemma DeletesExactly(rows: seq<Row>, chosen: seq<Row>)
    requires Ascending(rows) && Ascending(chosen) && forall r | r in chosen :: r in rows && r.status.Stored?
    ensures Deleted(rows, Ids(chosen)) == chosen
    ensures |Delete(rows, Ids(chosen))| == |rows| - |chosen|
    ensures forall r :: r in Delete(rows, Ids(chosen)) <==> r in rows && r !in chosen
  {
    var gone := Deleted(rows, Ids(chosen));
    DeletedAscends(rows, Ids(chosen));
    forall r
      ensures r in gone <==> r in chosen
    {
      if r in gone {
        var i :| 0 <= i < |chosen| && chosen[i].id == r.id;
        SameId(rows, r, chosen[i]);
      }
      if r in chosen {
        var i :| 0 <= i < |chosen| && chosen[i] == r;
        assert Ids(chosen)[i] == r.id;
      }
    }
    AscendingSame(gone, chosen);
    forall r | r in rows
      ensures r in Delete(rows, Ids(chosen)) <==> r !in gone
    {
    }
  }

  lemma RangeIsStored(t: Tables, through: nat, n: nat)
    requires TablesOk(t) && n <= |InRange(t, through)|
    ensures var chosen := InRange(t, through)[..n];
            Ascending(chosen) && forall r | r in chosen :: r in t.rows && r.status.Stored?
  {
    StoredBetweenAscends(t.rows, t.watermark, through);
    assert forall r | r in InRange(t, through)[..n] :: r in InRange(t, through);
  }

  /** Every step of a run that has stopped at n so far, or goes on, stays on the path described. */
  lemma StopKeeps(cfg: Config, w: World, through: nat, limit: int, n: nat, skipped: nat, clean: bool)
    requires var c := Candidates(w.tables, through, limit);
             StopsAt(cfg, w, c, n, clean) && skipped == ResultOf(through, c, n).skipped
    ensures var ids := Ids(Candidates(w.tables, through, limit)[..n]);
            RetainAt(cfg, w, through, limit, w, StopConfirming(through, ids, skipped), clean)
  {
  }

  lemma NextKeeps(cfg: Config, w: World, through: nat, limit: int, n: nat, clean: bool)
    requires var c := Candidates(w.tables, through, limit); n <= |c| && AllConfirmed(cfg, w, c[..n])
    ensures var c := Candidates(w.tables, through, limit);
            RetainAt(cfg, w, through, limit, w, NextCandidate(cfg, through, c[n..], Ids(c[..n])), clean)
  {
    var c := Candidates(w.tables, through, limit);
    if n == |c| {
      StopKeeps(cfg, w, through, limit, n, 0, clean);
    } else if cfg.read(c[n].text).None? {
      StopKeeps(cfg, w, through, limit, n, 1, clean);
    }
  }

  lemma StepKeeps(cfg: Config, w: World, through: nat, limit: int, v: World, pc: RetainPc, fault: Fault, clean: bool)
    requires TablesOk(w.tables) && RetainAt(cfg, w, through, limit, v, pc, clean) && !pc.Retained?
    ensures var (v', pc') := RetainStep(cfg, through, limit, v, pc, fault);
            RetainAt(cfg, w, through, limit, v', pc', clean && fault.Works?)
  {
    var c := Candidates(w.tables, through, limit);
    match pc {
      case ReadingFloor =>
      case ReadingCandidates(_) =>
        assert c[0..] == c && Ids(c[..0]) == [];
        NextKeeps(cfg, w, through, limit, 0, clean && fault.Works?);
      case ConfirmingRow(rest, confirmed) =>
        var n := |confirmed|;
        assert rest[0] == c[n] && rest[1..] == c[n + 1..];
        if fault.Works? && Confirmed(cfg, w.objects, c[n]) {
          assert c[..n + 1] == c[..n] + [c[n]];
          assert confirmed + [c[n].id] == Ids(c[..n + 1]);
          NextKeeps(cfg, w, through, limit, n + 1, clean && fault.Works?);
        } else {
          StopKeeps(cfg, w, through, limit, n, 1, clean && fault.Works?);
        }
      case Committing(confirmed, skipped) =>
        CommitKeeps(cfg, w, through, limit, |confirmed|, fault, clean);
    }
  }

  lemma DeletesCandidates(t: Tables, through: nat, limit: int, n: nat)
    requires TablesOk(t) && 0 < n <= |Candidates(t, through, limit)|
    ensures var ids := Ids(Candidates(t, through, limit)[..n]);
            |Retain(t, ids, Last(ids)).rows| == |t.rows| - n && Last(ids) == Candidates(t, through, limit)[n - 1].id
  {
    var c := Candidates(t, through, limit);
    RangeIsStored(t, through, n);
    assert c[..n] == InRange(t, through)[..n];
    DeletesExactly(t.rows, c[..n]);
  }

  /** What the step does with the first n rows of any list, if the DELETE takes that many. */
  lemma CommitStep(cfg: Config, w: World, through: nat, limit: int, c: seq<Row>, n: nat, fault: Fault)
    requires 0 < n <= |c|
    requires |Retain(w.tables, Ids(c[..n]), Last(Ids(c[..n]))).rows| == |w.tables.rows| - n
    ensures RetainStep(cfg, through, limit, w, Committing(Ids(c[..n]), ResultOf(through, c, n).skipped), fault)
            == (if fault.TakesEffect() then Committed(w, c, n) else w,
                Retained(if fault.Works? then Some(ResultOf(through, c, n)) else None))
  {
  }

  lemma CommitExact(cfg: Config, w: World, through: nat, limit: int, n: nat, fault: Fault)
    requires TablesOk(w.tables) && 0 < n <= |Candidates(w.tables, through, limit)|
    ensures var c := Candidates(w.tables, through, limit);
            RetainStep(cfg, through, limit, w, Committing(Ids(c[..n]), ResultOf(through, c, n).skipped), fault)
            == (if fault.TakesEffect() then Committed(w, c, n) else w,
                Retained(if fault.Works? then Some(ResultOf(through, c, n)) else None))
  {
    DeletesCandidates(w.tables, through, limit, n);
    CommitStep(cfg, w, through, limit, Candidates(w.tables, through, limit), n, fault);
  }

  lemma CommitKeeps(cfg: Config, w: World, through: nat, limit: int, n: nat, fault: Fault, clean: bool)
    requires TablesOk(w.tables) && 0 < n && StopsAt(cfg, w, Candidates(w.tables, through, limit), n, clean)
    ensures var c := Candidates(w.tables, through, limit);
            var committing := Committing(Ids(c[..n]), ResultOf(through, c, n).skipped);
            var (v, pc) := RetainStep(cfg, through, limit, w, committing, fault);
            RetainAt(cfg, w, through, limit, v, pc, clean && fault.Works?)
  {
    CommitExact(cfg, w, through, limit, n, fault);
    var c := Candidates(w.tables, through, limit);
    assert StopsAt(cfg, w, c, n, clean && fault.Works?) && StopsAt(cfg, w, c, n, false);
  }

  ghost predicate Clean(faults: seq<Fault>) {
    forall f | f in faults :: f.Works?
  }

  /** A run alone, under any faults, from any consistent tables. */
  lemma {:induction false} RetainWalk(cfg: Config, w: World, through: nat, limit: int, faults: seq<Fault>)
    requires TablesOk(w.tables)
    ensures var end := Walk(cfg, w, Retaining(through, limit, ReadingFloor), faults);
            end.Some? ==>
              && end.value.1.Retaining? && end.value.1.through == through && end.value.1.limit == limit
              && RetainAt(cfg, w, through, limit, end.value.0, end.value.1.rpc, Clean(faults))
  {
    if faults != [] {
      var init, last := faults[..|faults| - 1], faults[|faults| - 1];
      RetainWalk(cfg, w, through, limit, init);
      assert Clean(faults) == (Clean(init) && last.Works?) by {
        assert faults == init + [last];
      }
      var before := Walk(cfg, w, Retaining(through, limit, ReadingFloor), init);
      if before.Some? && !before.value.1.Finished() {
        StepKeeps(cfg, w, through, limit, before.value.0, before.value.1.rpc, last, Clean(init));
      }
    }
  }

  /** How many candidates in a row the archive confirms. */
  function ConfirmedPrefix(cfg: Config, w: World, c: seq<Row>): (n: nat)
    ensures n <= |c| && AllConfirmed(cfg, w, c[..n]) && (n < |c| ==> !Confirmed(cfg, w.objects, c[n]))
  {
    if c == [] || !Confirmed(cfg, w.objects, c[0]) then 0
    else
      var n := 1 + ConfirmedPrefix(cfg, w, c[1..]);
      assert c[..n] == [c[0]] + c[1..][..n - 1];
      n
  }

  /** What a finished run without faults has done: it took exactly the longest confirmed prefix of its candidates. */
  lemma CleanRun(cfg: Config, w: World, through: nat, limit: int, faults: seq<Fault>)
    requires TablesOk(w.tables) && Clean(faults)
    ensures var end := Walk(cfg, w, Retaining(through, limit, ReadingFloor), faults);
            var c := Candidates(w.tables, through, limit);
            var n := ConfirmedPrefix(cfg, w, c);
            end.Some? && end.value.1.Finished() ==>
              end.value == (Committed(w, c, n), Retaining(through, limit, Retained(Some(ResultOf(through, c, n)))))
  {
    RetainWalk(cfg, w, through, limit, faults);
    var end := Walk(cfg, w, Retaining(through, limit, ReadingFloor), faults);
    var c := Candidates(w.tables, through, limit);
    if end.Some? && end.value.1.Finished() {
      var result := end.value.1.rpc.result.value;
      var n :| StopsAt(cfg, w, c, n, true) && end.value.0 == Committed(w, c, n) && result == ResultOf(through, c, n);
      StopsOnce(cfg, w, c, n, ConfirmedPrefix(cfg, w, c));
    }
  }

  /** How many store calls a run can still make. */
  function RetainRank(w: World, pc: RetainPc): nat {
    match pc
    case ReadingFloor => |w.tables.rows| + 4
    case ReadingCandidates(_) => |w.tables.rows| + 3
    case ConfirmingRow(rest, _) => |rest| + 2
    case Committing(_, _) => 1
    case Retained(_) => 0
  }

  lemma RetainDescends(cfg: Config, through: nat, limit: int, w: World, pc: RetainPc, fault: Fault)
    requires !pc.Retained?
    ensures var (v, next) := RetainStep(cfg, through, limit, w, pc, fault); RetainRank(v, next) < RetainRank(w, pc)
  {
    if pc.ReadingCandidates? {
      StoredBetweenIsShorter(w.tables.rows, pc.floor, through);
    }
  }

  /** Left alone with working stores a run comes to its end. */
  lemma {:induction false} RetainFinishes(cfg: Config, w: World, through: nat, limit: int, pc: RetainPc)
    returns (n: nat)
    ensures n <= RetainRank(w, pc)
    ensures var end := Walk(cfg, w, Retaining(through, limit, pc), seq(n, _ => Works));
            end.Some? && end.value.1.Finished()
    decreases RetainRank(w, pc)
  {
    n := 0;
    var p := Retaining(through, limit, pc);
    if !pc.Retained? {
      RetainDescends(cfg, through, limit, w, pc, Works);
      var (v, next) := RetainStep(cfg, through, limit, w, pc, Works);
      var m := RetainFinishes(cfg, v, through, limit, next);
      n := m + 1;
      var one, rest: seq<Fault> := [Works], seq(m, _ => Works);
      assert one + rest == seq(n, _ => Works);
      assert one[..0] == [];
      assert Walk(cfg, w, p, []) == Some((w, p));
      assert Walk(cfg, w, p, one) == Some((v, Retaining(through, limit, next)));
      WalkAppend(cfg, w, p, one, rest);
    }
  }

  /**
   Without faults a run ends, within a number of store calls bounded by the rows, and has deleted
   exactly the longest confirmed prefix of its candidates.
   */
  lemma FaultFreeRun(cfg: Config, w: World, through: nat, limit: int) returns (n: nat)
    requires TablesOk(w.tables)
    ensures n <= |w.tables.rows| + 4
    ensures var c := Candidates(w.tables, through, limit);
            var k := ConfirmedPrefix(cfg, w, c);
            Walk(cfg, w, Retaining(through, limit, ReadingFloor), seq(n, _ => Works))
            == Some((Committed(w, c, k), Retaining(through, limit, Retained(Some(ResultOf(through, c, k))))))
  {
    n := RetainFinishes(cfg, w, through, limit, ReadingFloor);
    CleanRun(cfg, w, through, limit, seq(n, _ => Works));
  }

  lemma StopsOnce(cfg: Config, w: World, c: seq<Row>, n: nat, m: nat)
    requires StopsAt(cfg, w, c, n, true) && StopsAt(cfg, w, c, m, true)
    ensures n == m
  {
  }

  /** Whatever fails, a run either leaves the stores alone or commits a confirmed prefix. */
  lemma AnyRun(cfg: Config, w: World, through: nat, limit: int, faults: seq<Fault>)
    requires TablesOk(w.tables) && Walk(cfg, w, Retaining(through, limit, ReadingFloor), faults).Some?
    ensures var v := Walk(cfg, w, Retaining(through, limit, ReadingFloor), faults).value.0;
            var c := Candidates(w.tables, through, limit);
            v == w || exists n :: 0 < n && StopsAt(cfg, w, c, n, false) && v == Committed(w, c, n)
  {
    RetainWalk(cfg, w, through, limit, faults);
    var (v, p) := Walk(cfg, w, Retaining(through, limit, ReadingFloor), faults).value;
    var c := Candidates(w.tables, through, limit);
    if v != w {
      if p.rpc.result.None? {
        var n :| StopsAt(cfg, w, c, n, false) && v == Committed(w, c, n);
        assert 0 < n;
      } else {
        var n :| StopsAt(cfg, w, c, n, Clean(faults)) && v == Committed(w, c, n)
                 && p.rpc.result.value == ResultOf(through, c, n);
        assert 0 < n && StopsAt(cfg, w, c, n, false);
      }
    }
  }

  /**
   What a commit means: the watermark strictly rises, to the last deleted row, and the rows gone are
   exactly the stored rows between the old watermark and the new.
   */
  lemma CommittedMeans(w: World, through: nat, limit: int, n: nat)
    requires TablesOk(w.tables) && 0 < n <= |Candidates(w.tables, through, limit)|
    ensures var c := Candidates(w.tables, through, limit);
            var after := Committed(w, c, n).tables;
            && after.watermark == Some(c[n - 1].id) && c[n - 1].id <= through
            && Sequential.AboveFloor(w.tables.watermark, c[n - 1].id)
            && |after.rows| == |w.tables.rows| - n
            && (forall r :: r in after.rows <==>
                  r in w.tables.rows
                  && !(r.status.Stored? && Sequential.AboveFloor(w.tables.watermark, r.id) && r.id <= c[n - 1].id))
  {
    var c := Candidates(w.tables, through, limit);
    var range := InRange(w.tables, through);
    var after := Committed(w, c, n).tables;
    RangeIsStored(w.tables, through, n);
    assert c[..n] == range[..n];
    DeletesExactly(w.tables.rows, c[..n]);
    assert c[n - 1] in range;
    StoredBetweenAscends(w.tables.rows, w.tables.watermark, through);
    forall r | r in w.tables.rows
      ensures r in c[..n] <==>
              r.status.Stored? && Sequential.AboveFloor(w.tables.watermark, r.id) && r.id <= c[n - 1].id
    {
      InPrefix(range, n, r);
    }
  }

  lemma InPrefix(range: seq<Row>, n: nat, r: Row)
    requires Ascending(range) && 0 < n <= |range|
    ensures r in range[..n] <==> r in range && r.id <= range[n - 1].id
  {
  }

  /* ---------- How much a run takes ---------- */

  /**
   What a result says of what was done: as many rows confirmed as deleted, which was the last, and whether one
   was skipped, which ends a run before its range or its limit does.
   */
  ghost predicate Reports(w: World, v: World, through: nat, limit: int, result: RetentionResult) {
    && result.requestedThrough == through
    && result.confirmed == result.deleted == |w.tables.rows| - |v.tables.rows|
    && result.skipped <= 1
    && (result.skipped == 0 <==> result.confirmed == |InRange(w.tables, through)| || Reaches(result.confirmed, limit))
    && (result.deleted == 0 ==> result.retainedThrough.None? && v == w)
    && (result.deleted > 0 ==> result.retainedThrough == v.tables.watermark && v.tables.watermark.Some?)
  }

  /** Under any faults a run deletes at most as many rows as the limit allows, and reports what it deleted. */
  lemma AtMostLimit(cfg: Config, w: World, through: nat, limit: int, faults: seq<Fault>)
    requires TablesOk(w.tables) && Walk(cfg, w, Retaining(through, limit, ReadingFloor), faults).Some?
    ensures var (v, p) := Walk(cfg, w, Retaining(through, limit, ReadingFloor), faults).value;
            && Within(|w.tables.rows| - |v.tables.rows|, limit)
            && (p == Retaining(through, limit, Retained(None)) ==> !Clean(faults))
            && (p.Retaining? && p.rpc.Retained? && p.rpc.result.Some? ==>
                  Reports(w, v, through, limit, p.rpc.result.value))
  {
    RetainWalk(cfg, w, through, limit, faults);
    TakeIsFront(InRange(w.tables, through), limit);
    var (v, p) := Walk(cfg, w, Retaining(through, limit, ReadingFloor), faults).value;
    var c := Candidates(w.tables, through, limit);
    if p.rpc.Retained? && p.rpc.result.Some? {
      var n :| StopsAt(cfg, w, c, n, Clean(faults)) && v == Committed(w, c, n)
               && p.rpc.result.value == ResultOf(through, c, n);
      CommittedCounts(w, through, limit, n);
    } else if v != w {
      var n :| StopsAt(cfg, w, c, n, false) && v == Committed(w, c, n);
      CommittedCounts(w, through, limit, n);
    }
  }

  /** A call that a run cannot do without: the two reads and the commit. */
  predicate NeededCall(pc: RetainPc) {
    pc.ReadingFloor? || pc.ReadingCandidates? || pc.Committing?
  }

  ghost predicate ErrsAt(cfg: Config, w: World, start: Process, faults: seq<Fault>, i: nat) {
    && i < |faults| && !faults[i].Works?
    && var before := Walk(cfg, w, start, faults[..i]);
       before.Some? && before.value.1.Retaining? && NeededCall(before.value.1.rpc)
  }

  lemma ErrsOnce(cfg: Config, w: World, start: Process, init: seq<Fault>, last: Fault)
    requires Walk(cfg, w, start, init).Some? && Walk(cfg, w, start, init).value.1.Retaining?
    ensures (exists i :: ErrsAt(cfg, w, start, init + [last], i))
            <==> (exists i :: ErrsAt(cfg, w, start, init, i))
                 || (!last.Works? && NeededCall(Walk(cfg, w, start, init).value.1.rpc))
  {
    var faults := init + [last];
    assert faults[..|init|] == init;
    forall i: nat | i < |init|
      ensures ErrsAt(cfg, w, start, faults, i) <==> ErrsAt(cfg, w, start, init, i)
    {
      assert faults[..i] == init[..i];
    }
    if !last.Works? && NeededCall(Walk(cfg, w, start, init).value.1.rpc) {
      assert ErrsAt(cfg, w, start, faults, |init|);
    }
    if i: nat :| ErrsAt(cfg, w, start, init, i) {
      assert ErrsAt(cfg, w, start, faults, i);
    }
  }

  /**
   A run ends in an error exactly if one of its reads or its commit did not work; an archive that cannot be
   asked only ends the confirmed prefix.
   */
  lemma {:induction false} ErrorsExactly(cfg: Config, w: World, through: nat, limit: int, faults: seq<Fault>)
    requires TablesOk(w.tables) && Walk(cfg, w, Retaining(through, limit, ReadingFloor), faults).Some?
    ensures var start := Retaining(through, limit, ReadingFloor);
            Walk(cfg, w, start, faults).value.1 == Retaining(through, limit, Retained(None))
            <==> exists i :: ErrsAt(cfg, w, start, faults, i)
  {
    if faults != [] {
      var init, last := faults[..|faults| - 1], faults[|faults| - 1];
      assert faults == init + [last];
      ErrorsExactly(cfg, w, through, limit, init);
      RetainWalk(cfg, w, through, limit, init);
      ErrsOnce(cfg, w, Retaining(through, limit, ReadingFloor), init, last);
    }
  }

  lemma CommittedCounts(w: World, through: nat, limit: int, n: nat)
    requires TablesOk(w.tables) && n <= |Candidates(w.tables, through, limit)|
    ensures |Committed(w, Candidates(w.tables, through, limit), n).tables.rows| == |w.tables.rows| - n
  {
    if n > 0 {
      DeletesCandidates(w.tables, through, limit, n);
    }
  }

  /**
   Without faults a run takes exactly the rows that the archive confirms from the front of the range on, as
   many as the limit allows: no more, and no fewer.
   */
  lemma TakesExactly(cfg: Config, w: World, through: nat, limit: int)
    returns (n: nat, k: nat, v: World, result: RetentionResult)
    requires TablesOk(w.tables)
    ensures Walk(cfg, w, Retaining(through, limit, ReadingFloor), seq(n, _ => Works))
            == Some((v, Retaining(through, limit, Retained(Some(result)))))
    ensures Reports(w, v, through, limit, result) && result.deleted == k && Within(k, limit)
    ensures k <= |InRange(w.tables, through)| && AllConfirmed(cfg, w, InRange(w.tables, through)[..k])
    ensures k == |InRange(w.tables, through)| || Reaches(k, limit)
            || !Confirmed(cfg, w.objects, InRange(w.tables, through)[k])
    ensures forall r :: r in v.tables.rows <==> r in w.tables.rows && r !in InRange(w.tables, through)[..k]
  {
    var c, range := Candidates(w.tables, through, limit), InRange(w.tables, through);
    n := FaultFreeRun(cfg, w, through, limit);
    k := ConfirmedPrefix(cfg, w, c);
    v, result := Committed(w, c, k), ResultOf(through, c, k);
    TakeIsFront(InRange(w.tables, through), limit);
    AtMostLimit(cfg, w, through, limit, seq(n, _ => Works));
    CommittedCounts(w, through, limit, k);
    CommittedTakes(w, through, limit, k);
  }

  lemma CommittedTakes(w: World, through: nat, limit: int, k: nat)
    requires TablesOk(w.tables) && k <= |Candidates(w.tables, through, limit)|
    ensures var c, range := Candidates(w.tables, through, limit), InRange(w.tables, through);
            && |c| <= |range| && c[..k] == range[..k]
            && (forall r :: r in Committed(w, c, k).tables.rows <==> r in w.tables.rows && r !in range[..k])
  {
    TakeIsFront(InRange(w.tables, through), limit);
    var c, range := Candidates(w.tables, through, limit), InRange(w.tables, through);
    assert c[..k] == range[..k];
    if k > 0 {
      RangeIsStored(w.tables, through, k);
      DeletesExactly(w.tables.rows, range[..k]);
      assert Committed(w, c, k).tables.rows == Delete(w.tables.rows, Ids(range[..k]));
    }
  }

  /* ---------- Draining a range ---------- */

  /** Commits of all candidates, one after another, until there are none. */
  function Drain(w: World, through: nat, limit: int): World
    requires TablesOk(w.tables)
    decreases |w.tables.rows|
  {
    var c := Candidates(w.tables, through, limit);
    if c == [] then w
    else
      CommittedMeans(w, through, limit, |c|);
      RetainKeepsTables(w.tables, Ids(c[..|c|]), c[|c| - 1].id);
      Drain(Committed(w, c, |c|), through, limit)
  }

  /** When every row of the range is archived, a fault-free run commits all its candidates. */
  lemma DrainStepIsRun(cfg: Config, w: World, through: nat, limit: int) returns (job: Sequential.Job)
    requires TablesOk(w.tables) && AllConfirmed(cfg, w, InRange(w.tables, through))
    ensures FaultFreeJob(job, through, limit)
    ensures var c := Candidates(w.tables, through, limit);
            Sequential.PlayJob(cfg, w, job)
            == (Committed(w, c, |c|), Retaining(through, limit, Retained(Some(ResultOf(through, c, |c|)))))
  {
    var n := FaultFreeRun(cfg, w, through, limit);
    job := Sequential.Job(Retaining(through, limit, ReadingFloor), seq(n, _ => Works));
  }

  ghost predicate FaultFreeJob(j: Sequential.Job, through: nat, limit: int) {
    j.start == Retaining(through, limit, ReadingFloor) && Clean(j.faults)
  }

  /** Draining takes every stored row of the range and no other. */
  lemma {:induction false} DrainTakesRange(w: World, through: nat, limit: int)
    requires TablesOk(w.tables)
    ensures var end := Drain(w, through, limit);
            && end.objects == w.objects && InRange(end.tables, through) == []
            && (forall r :: r in end.tables.rows <==>
                  r in w.tables.rows
                  && !(r.status.Stored? && Sequential.AboveFloor(w.tables.watermark, r.id) && r.id <= through))
    decreases |w.tables.rows|
  {
    var c := Candidates(w.tables, through, limit);
    if c == [] {
      assert InRange(w.tables, through) == [];
      forall r | r in w.tables.rows
        ensures !(r.status.Stored? && Sequential.AboveFloor(w.tables.watermark, r.id) && r.id <= through)
      {
        assert r !in InRange(w.tables, through);
      }
    } else {
      CommittedMeans(w, through, limit, |c|);
      RetainKeepsTables(w.tables, Ids(c[..|c|]), c[|c| - 1].id);
      DrainTakesRange(Committed(w, c, |c|), through, limit);
    }
  }

  lemma CommitLeavesConfirmed(cfg: Config, w: World, through: nat, limit: int)
    requires TablesOk(w.tables) && AllConfirmed(cfg, w, InRange(w.tables, through))
    requires Candidates(w.tables, through, limit) != []
    ensures var c := Candidates(w.tables, through, limit);
            var v := Committed(w, c, |c|);
            TablesOk(v.tables) && |v.tables.rows| < |w.tables.rows| && AllConfirmed(cfg, v, InRange(v.tables, through))
  {
    var c := Candidates(w.tables, through, limit);
    CommittedMeans(w, through, limit, |c|);
    RetainKeepsTables(w.tables, Ids(c[..|c|]), c[|c| - 1].id);
  }

  /**
   Repeating fault-free runs of the service drains the range when every row of it is archived: after
   at most as many runs as there are rows no stored row of the range is left, and nothing else is gone.
   */
  lemma {:induction false} DrainIsRuns(cfg: Config, w: World, through: nat, limit: int)
    returns (jobs: seq<Sequential.Job>)
    requires TablesOk(w.tables) && AllConfirmed(cfg, w, InRange(w.tables, through))
    ensures |jobs| <= |w.tables.rows| && forall j | j in jobs :: FaultFreeJob(j, through, limit)
    ensures Sequential.Play(cfg, w, jobs) == Drain(w, through, limit)
    decreases |w.tables.rows|
  {
    var c := Candidates(w.tables, through, limit);
    if c == [] {
      jobs := [];
    } else {
      var job := DrainStepIsRun(cfg, w, through, limit);
      CommitLeavesConfirmed(cfg, w, through, limit);
      var rest := DrainIsRuns(cfg, Committed(w, c, |c|), through, limit);
      jobs := [job] + rest;
      assert [job][..0] == [];
      assert Sequential.Play(cfg, w, []) == w;
      assert Sequential.Play(cfg, w, [job]) == Committed(w, c, |c|);
      Sequential.PlayAppend(cfg, w, [job], rest);
    }
  }

  /** The whole of it, in terms of the runs alone. */
  lemma RunsDrainRange(cfg: Config, w: World, through: nat, limit: int) returns (jobs: seq<Sequential.Job>)
    requires TablesOk(w.tables) && AllConfirmed(cfg, w, InRange(w.tables, through))
    ensures |jobs| <= |w.tables.rows| && forall j | j in jobs :: FaultFreeJob(j, through, limit)
    ensures var end := Sequential.Play(cfg, w, jobs);
            && end.objects == w.objects && InRange(end.tables, through) == []
            && (forall r :: r in end.tables.rows <==>
                  r in w.tables.rows
                  && !(r.status.Stored? && Sequential.AboveFloor(w.tables.watermark, r.id) && r.id <= through))
  {
    jobs := DrainIsRuns(cfg, w, through, limit);
    DrainTakesRange(w, through, limit);
  }
}
