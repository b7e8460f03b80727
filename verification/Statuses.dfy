/**
 What the statuses of a batch mean: under any faults each status says something about the stores that its item
 met, and an item whose own calls work gets exactly the status that is due.
 */
module Statuses {
  import opened Wrappers
  import opened Faults
  import opened Events
  import opened Requests
  import opened Storage
  import opened Ledger
  import opened LedgerFacts
  import opened Machine
  import opened Batch
  import opened Answers
  import opened Retention
  import Repair
  import Sequential

  /** Why an item can fail: it does not decode, its hashes do not check, or a call of its own does not work. */
  ghost predicate MayFail(cfg: Config, item: Text, faults: seq<Fault>) {
    cfg.read(item).None? || !cfg.read(item).value.verified || !Clean(faults)
  }

  /** What a status says of the stores before the item. */
  ghost predicate Means(cfg: Config, w: World, item: Text, faults: seq<Fault>, status: ItemStatus) {
    match status
    case ItemFailed => MayFail(cfg, item, faults)
    case _ =>
      && cfg.read(item).Some? && cfg.read(item).value.verified
      && var q := cfg.read(item).value;
         var row := Find(w.tables.rows, q.eventId);
         match status
         case ItemStored => !OtherHashes(row, q) && !StoredAlready(row)
         case ItemDuplicate => !OtherHashes(row, q) && StoredAlready(row)
         case _ => Beaten(row, w.objects, q)
  }

  /** Under any faults a status means what it says, for the item's own event id once it has decoded. */
  lemma ItemMeans(cfg: Config, w: World, item: Text, faults: seq<Fault>)
    requires ItemWalk(cfg, w, item, faults).Some?
    ensures var result := ItemWalk(cfg, w, item, faults).value.1;
            && Means(cfg, w, item, faults, result.status)
            && result.eventId == (if cfg.read(item).Some? then Some(cfg.read(item).value.eventId) else None)
            && (cfg.read(item).None? || !cfg.read(item).value.verified ==> result.status.ItemFailed?)
  {
    if cfg.read(item).Some? {
      var q := cfg.read(item).value;
      var (v, p) := Walk(cfg, w, Ingesting(q, Begin(q)), faults).value;
      WalkIsAt(cfg, w, q, faults);
      WalkSays(cfg, w, q, faults, v, p.pc.outcome);
      if Clean(faults) {
        NothingFailed(cfg, w, q, faults);
      }
    }
  }

  /* ---------- An item whose calls work ---------- */

  /** A list of faults that all work is determined by its length. */
  lemma CleanIsWorks(faults: seq<Fault>)
    requires Clean(faults)
    ensures faults == seq(|faults|, _ => Works)
  {
    forall i | 0 <= i < |faults|
      ensures faults[i] == Works
    {
      assert faults[i] in faults;
    }
  }

  /** A walk that ended makes no call more, so two that end agree. */
  lemma EndsOnce(cfg: Config, w: World, p: Process, m: nat, n: nat)
    requires Walk(cfg, w, p, seq(m, _ => Works)).Some? && Walk(cfg, w, p, seq(m, _ => Works)).value.1.Finished()
    requires Walk(cfg, w, p, seq(n, _ => Works)).Some?
    ensures n <= m
  {
    if m < n {
      var one, rest: seq<Fault> := seq(m, _ => Works), seq(n - m, _ => Works);
      assert one + rest == seq(n, _ => Works);
      WalkAppend(cfg, w, p, one, rest);
      WalkOfFinished(cfg, Walk(cfg, w, p, one).value.0, Walk(cfg, w, p, one).value.1, rest);
    }
  }

  lemma CleanWalkIsFinish(cfg: Config, w: World, q: Request, faults: seq<Fault>)
    requires Clean(faults) && Walk(cfg, w, Ingesting(q, Begin(q)), faults).Some?
    requires Walk(cfg, w, Ingesting(q, Begin(q)), faults).value.1.Finished()
    ensures var (end, outcome) := Repair.Finish(cfg, w, q, Begin(q));
            Walk(cfg, w, Ingesting(q, Begin(q)), faults) == Some((end, Ingesting(q, Done(outcome))))
  {
    var n := Repair.FinishIsWalk(cfg, w, q, Begin(q));
    CleanIsWorks(faults);
    SameEnd(cfg, w, Ingesting(q, Begin(q)), |faults|, n);
  }

  lemma SameEnd(cfg: Config, w: World, p: Process, m: nat, n: nat)
    requires Walk(cfg, w, p, seq(m, _ => Works)).Some? && Walk(cfg, w, p, seq(m, _ => Works)).value.1.Finished()
    requires Walk(cfg, w, p, seq(n, _ => Works)).Some? && Walk(cfg, w, p, seq(n, _ => Works)).value.1.Finished()
    ensures m == n
  {
    EndsOnce(cfg, w, p, m, n);
    EndsOnce(cfg, w, p, n, m);
  }

  /** What is due to a verified item: a conflict if other content has its event id, and else by the row. */
  ghost predicate Due(w: World, q: Request, status: ItemStatus) {
    if Repair.Taken(w, q) then status.ItemConflict?
    else if HasStored(w.tables, q.eventId) then status.ItemDuplicate?
    else status.ItemStored?
  }

  /** Where the event id is not taken, neither hashes nor objects stand against the request. */
  lemma UntakenIsFree(cfg: Config, w: World, q: Request)
    requires Sequential.WorldOk(cfg, w) && WellFormed(cfg, q) && !Repair.Taken(w, q)
    ensures !Beaten(Find(w.tables.rows, q.eventId), w.objects, q)
  {
  }

  /** An item whose own calls work gets what is due. */
  lemma CleanItem(cfg: Config, w: World, item: Text, faults: seq<Fault>)
    requires CollisionFree(cfg) && Sequential.WorldOk(cfg, w) && Clean(faults) && ItemWalk(cfg, w, item, faults).Some?
    requires cfg.read(item).Some? && cfg.read(item).value.verified && WellFormed(cfg, cfg.read(item).value)
    ensures Due(w, cfg.read(item).value, ItemWalk(cfg, w, item, faults).value.1.status)
  {
    var q := cfg.read(item).value;
    ItemMeans(cfg, w, item, faults);
    if Repair.Taken(w, q) {
      TakenIsConflict(cfg, w, q, item, faults);
    } else {
      UntakenIsFree(cfg, w, q);
    }
  }

  lemma TakenIsConflict(cfg: Config, w: World, q: Request, item: Text, faults: seq<Fault>)
    requires CollisionFree(cfg) && Sequential.WorldOk(cfg, w) && Clean(faults) && ItemWalk(cfg, w, item, faults).Some?
    requires cfg.read(item) == Some(q) && q.verified && WellFormed(cfg, q) && Repair.Taken(w, q)
    ensures ItemWalk(cfg, w, item, faults).value.1.status.ItemConflict?
  {
    CleanWalkIsFinish(cfg, w, q, faults);
    Repair.SequentialTaken(cfg, w, q);
  }

  /* ---------- Items of other event ids ---------- */

  /** Rows and objects of an event id are the same. */
  ghost predicate Alike(v: World, w: World, e: EventId) {
    && Find(v.tables.rows, e) == Find(w.tables.rows, e)
    && (forall k: Key | k.eventId == e :: (k in v.objects <==> k in w.objects))
    && (forall k: Key | k.eventId == e && k in v.objects :: v.objects[k] == w.objects[k])
  }

  lemma AbsentStays(t: Tables, q: Request, uri: Uri, e: EventId)
    requires Find(t.rows, e).None? && q.eventId != e
    ensures Find(Create(t, q).rows, e).None?
    ensures Find(SetStored(t, q.eventId, uri).rows, e).None? && Find(SetFailed(t, q.eventId).rows, e).None?
  {
  }

  lemma StoreAlike(q: Request, objects: Objects, pc: StorePc, fault: Fault, k: Key)
    requires q.finalKey.eventId == q.eventId && k.eventId != q.eventId
    ensures var after := StoreStep(q, objects, pc, fault).0;
            (k in after <==> k in objects) && (k in objects ==> after[k] == objects[k])
  {
  }

  lemma RowAlike(cfg: Config, w: World, q: Request, pc: Pc, fault: Fault, e: EventId)
    requires TablesOk(w.tables) && q.eventId != e
    ensures Find(IngestStep(cfg, q, w, pc, fault).0.tables.rows, e) == Find(w.tables.rows, e)
  {
    var row := Find(w.tables.rows, e);
    if row.Some? {
      OthersUntouched(cfg, q, w, pc, fault, row.value);
    } else if pc.Creating? || pc.Marking? || pc.MarkingFailed? {
      AbsentStays(w.tables, q, if pc.Marking? then pc.written else Uri(q.finalKey), e);
    }
  }

  lemma StepAlike(cfg: Config, w: World, q: Request, pc: Pc, fault: Fault, e: EventId)
    requires TablesOk(w.tables) && q.eventId != e && q.finalKey.eventId == q.eventId
    ensures Alike(IngestStep(cfg, q, w, pc, fault).0, w, e)
  {
    RowAlike(cfg, w, q, pc, fault, e);
    if pc.Writing? {
      forall k: Key | k.eventId == e
        ensures var after := StoreStep(q, w.objects, pc.store, fault).0;
                (k in after <==> k in w.objects) && (k in w.objects ==> after[k] == w.objects[k])
      {
        StoreAlike(q, w.objects, pc.store, fault, k);
      }
    }
  }

  lemma {:induction false} WalkAlike(cfg: Config, w: World, q: Request, faults: seq<Fault>, e: EventId)
    requires TablesOk(w.tables) && q.eventId != e && q.finalKey.eventId == q.eventId
    requires Walk(cfg, w, Ingesting(q, Begin(q)), faults).Some?
    ensures Alike(Walk(cfg, w, Ingesting(q, Begin(q)), faults).value.0, w, e)
  {
    if faults != [] {
      var init := faults[..|faults| - 1];
      WalkAlike(cfg, w, q, init, e);
      WalkStores(cfg, w, q, init, e);
      var (v, p) := Walk(cfg, w, Ingesting(q, Begin(q)), init).value;
      StepAlike(cfg, v, q, p.pc, faults[|faults| - 1], e);
    }
  }

  /** Items that are no verified item of an event id leave it alone, whatever happens to them. */
  ghost predicate NoneBefore(cfg: Config, items: seq<Text>, n: nat, e: EventId)
    requires n <= |items|
  {
    forall j | 0 <= j < n && cfg.read(items[j]).Some? && cfg.read(items[j]).value.verified ::
      cfg.read(items[j]).value.eventId != e
  }

  lemma ItemAlike(cfg: Config, w: World, item: Text, faults: seq<Fault>, e: EventId)
    requires TablesOk(w.tables) && ItemWalk(cfg, w, item, faults).Some?
    requires cfg.read(item).Some? ==>
               WellFormed(cfg, cfg.read(item).value)
               && (cfg.read(item).value.verified ==> cfg.read(item).value.eventId != e)
    ensures Alike(ItemWalk(cfg, w, item, faults).value.0, w, e)
  {
    if cfg.read(item).Some? {
      var q := cfg.read(item).value;
      if q.verified {
        WalkAlike(cfg, w, q, faults, e);
      } else {
        WalkOfRefused(cfg, w, q, faults);
      }
    }
  }

  lemma {:induction false} BatchAlike(cfg: Config, w: World, items: seq<Text>, faults: seq<seq<Fault>>, n: nat,
                                      e: EventId)
    requires TablesOk(w.tables) && ItemsOk(cfg, items) && |faults| == |items| && n <= |items|
    requires BatchWalk(cfg, w, items, faults).Some? && NoneBefore(cfg, items, n, e)
    ensures Alike(Batch.At(cfg, w, items, faults, n), w, e)
  {
    if n > 0 {
      BatchAlike(cfg, w, items, faults, n - 1, e);
      ItemOfBatch(cfg, w, items, faults, n - 1);
      TablesOkAt(cfg, w, items, faults, n - 1);
      assert items[n - 1] in items;
      ItemAlike(cfg, Batch.At(cfg, w, items, faults, n - 1), items[n - 1], faults[n - 1], e);
    }
  }

  lemma AlikeDue(v: World, w: World, q: Request, status: ItemStatus)
    requires TablesOk(v.tables) && TablesOk(w.tables) && Alike(v, w, q.eventId) && Due(v, q, status)
    ensures Due(w, q, status)
  {
  }

  /**
   The first verified item of an event id, if its own calls work, gets what was due to it before the batch,
   whatever happened to the items before it.
   */
  lemma FirstItem(cfg: Config, w: World, items: seq<Text>, faults: seq<seq<Fault>>, i: nat)
    requires CollisionFree(cfg) && Sequential.WorldOk(cfg, w) && ItemsOk(cfg, items)
    requires |faults| == |items| && BatchWalk(cfg, w, items, faults).Some? && i < |items| && Clean(faults[i])
    requires cfg.read(items[i]).Some? && cfg.read(items[i]).value.verified
    requires NoneBefore(cfg, items, i, cfg.read(items[i]).value.eventId)
    ensures |BatchWalk(cfg, w, items, faults).value.1| == |items|
    ensures var q, result := cfg.read(items[i]).value, BatchWalk(cfg, w, items, faults).value.1[i];
            Due(w, q, result.status) && result.eventId == Some(q.eventId)
  {
    var q, v := cfg.read(items[i]).value, Batch.At(cfg, w, items, faults, i);
    ItemOfBatch(cfg, w, items, faults, i);
    WorldOkAt(cfg, w, items, faults, i);
    BatchAlike(cfg, w, items, faults, i, q.eventId);
    assert items[i] in items;
    CleanItem(cfg, v, items[i], faults[i]);
    ItemMeans(cfg, v, items[i], faults[i]);
    AlikeDue(v, w, q, BatchWalk(cfg, w, items, faults).value.1[i].status);
  }

  /**
   Hence a batch reports exactly one `stored` for an event id that nobody had claimed or stored: at its first
   verified item, if the calls of that item work.
   */
  lemma OneStoredEach(cfg: Config, w: World, items: seq<Text>, faults: seq<seq<Fault>>, i: nat, j: nat)
    requires CollisionFree(cfg) && Sequential.WorldOk(cfg, w) && ItemsOk(cfg, items)
    requires |faults| == |items| && BatchWalk(cfg, w, items, faults).Some? && i < |items| && Clean(faults[i])
    requires cfg.read(items[i]).Some? && cfg.read(items[i]).value.verified
    requires NoneBefore(cfg, items, i, cfg.read(items[i]).value.eventId)
    requires !Repair.Taken(w, cfg.read(items[i]).value) && !HasStored(w.tables, cfg.read(items[i]).value.eventId)
    requires j < |items|
    ensures |BatchWalk(cfg, w, items, faults).value.1| == |items|
    ensures var result := BatchWalk(cfg, w, items, faults).value.1[j];
            result.status.ItemStored? && result.eventId == Some(cfg.read(items[i]).value.eventId) <==> j == i
  {
    FirstItem(cfg, w, items, faults, i);
    if i < j {
      AtMostOneStored(cfg, w, items, faults, i, j);
    } else if j < i {
      ItemOfBatch(cfg, w, items, faults, j);
      ItemMeans(cfg, Batch.At(cfg, w, items, faults, j), items[j], faults[j]);
    }
  }
}
