/**
 A batch is its items ingested one after another. At most one item of an event id is ever reported
 stored, whatever fails; and once one has been accepted, the later ones are duplicates or conflicts.
 */
module Batch {
  import opened Wrappers
  import opened Faults
  import opened Events
  import opened Requests
  import opened Ledger
  import opened LedgerFacts
  import opened Machine
  import opened Answers
  import Retention
  import Keys
  import Sequential

  datatype ItemStatus = ItemStored | ItemDuplicate | ItemConflict | ItemFailed

  /** The event id is known once the item has decoded. */
  datatype ItemResult = ItemResult(eventId: Option<EventId>, status: ItemStatus)

  /** A refused conflict and a reported one read the same in a batch. */
  function StatusOf(outcome: Outcome): ItemStatus {
    match outcome
    case Accepted(VerdictStored, _, _) => ItemStored
    case Accepted(VerdictDuplicate, _, _) => ItemDuplicate
    case Accepted(VerdictConflict, _, _) => ItemConflict
    case Refused(HashConflictError) => ItemConflict
    case Refused(_) => ItemFailed
  }

  /** One item under exactly these faults: it must run to its end. */
  function ItemWalk(cfg: Config, w: World, item: Text, faults: seq<Fault>): Option<(World, ItemResult)> {
    var q := cfg.read(item);
    if q.None? then (if faults == [] then Some((w, ItemResult(None, ItemFailed))) else None)
    else
      var end := Walk(cfg, w, Ingesting(q.value, Begin(q.value)), faults);
      if end.Some? && end.value.1.Ingesting? && end.value.1.pc.Done?
      then Some((end.value.0, ItemResult(Some(q.value.eventId), StatusOf(end.value.1.pc.outcome))))
      else None
  }

  /** The items folded in order, each under its own faults. */
  function BatchWalk(cfg: Config, w: World, items: seq<Text>, faults: seq<seq<Fault>>): Option<(World, seq<ItemResult>)>
    requires |faults| == |items|
  {
    if items == [] then Some((w, []))
    else
      var n := |items| - 1;
      match BatchWalk(cfg, w, items[..n], faults[..n])
      case None => None
      case Some((v, results)) =>
        var last := ItemWalk(cfg, v, items[n], faults[n]);
        if last.None? then None else Some((last.value.0, results + [last.value.1]))
  }

  lemma BatchSnoc(cfg: Config, w: World, items: seq<Text>, faults: seq<seq<Fault>>, v: World, results: seq<ItemResult>,
                  item: Text, calls: seq<Fault>, u: World, result: ItemResult)
    requires |faults| == |items| && BatchWalk(cfg, w, items, faults) == Some((v, results))
    requires ItemWalk(cfg, v, item, calls) == Some((u, result))
    ensures BatchWalk(cfg, w, items + [item], faults + [calls]) == Some((u, results + [result]))
  {
  }

  lemma ItemRan(cfg: Config, w: World, item: Text, q: Request, log: seq<Fault>, v: World, outcome: Outcome,
                log': seq<Fault>)
    requires cfg.read(item) == Some(q)
    requires Ran(cfg, w, Ingesting(q, Begin(q)), log, v, Ingesting(q, Done(outcome)), log')
    ensures log <= log' && log' == log + log'[|log|..]
    ensures ItemWalk(cfg, w, item, log'[|log|..]) == Some((v, ItemResult(Some(q.eventId), StatusOf(outcome))))
  {
  }

  lemma {:induction false} OneResultPerItem(cfg: Config, w: World, items: seq<Text>, faults: seq<seq<Fault>>)
    requires |faults| == |items| && BatchWalk(cfg, w, items, faults).Some?
    ensures |BatchWalk(cfg, w, items, faults).value.1| == |items|
  {
    if items != [] {
      OneResultPerItem(cfg, w, items[..|items| - 1], faults[..|items| - 1]);
    }
  }

  /* ---------- A stored row, and the ingests after it ---------- */

  ghost predicate HasStored(t: Tables, e: EventId) {
    StoredAlready(Find(t.rows, e))
  }

  /** What an ingest that reports `stored` has seen, and what it leaves. */
  ghost predicate Seen(t: Tables, q: Request, pc: Pc) {
    match pc
    case Confirming => Find(t.rows, q.eventId).Some? ==> HasStored(t, q.eventId)
    case Logging(_, Done(Accepted(VerdictStored, _, _))) => HasStored(t, q.eventId)
    case Logging(_, next) => next.Done? || next.MarkingFailed?
    case Done(Accepted(VerdictStored, _, _)) => HasStored(t, q.eventId)
    case _ => true
  }

  /** An UPDATE reaches only the rows of its own event id. */
  lemma UpdatesSpare(t: Tables, q: Request, uri: Uri, row: Row)
    requires TablesOk(t) && row.eventId != q.eventId && row in t.rows
    ensures TablesOk(SetStored(t, q.eventId, uri)) && Find(SetStored(t, q.eventId, uri).rows, row.eventId) == Some(row)
    ensures TablesOk(SetFailed(t, q.eventId)) && Find(SetFailed(t, q.eventId).rows, row.eventId) == Some(row)
  {
    UpdatesKeepTables(t, q.eventId, uri);
    UpdatedRow(t, q.eventId, uri, row);
    FindUnique(SetStored(t, q.eventId, uri).rows, row);
    FindUnique(SetFailed(t, q.eventId).rows, row);
  }

  lemma CreateSpares(t: Tables, q: Request, row: Row)
    requires TablesOk(t) && row in t.rows
    ensures TablesOk(Create(t, q)) && Find(Create(t, q).rows, row.eventId) == Some(row)
  {
    CreateKeepsTables(t, q);
    FindUnique(Create(t, q).rows, row);
  }

  /** The rows after a call: as they were, or what one of three statements makes of them. */
  lemma RowsAfter(cfg: Config, q: Request, w: World, pc: Pc, fault: Fault)
    ensures var rows := IngestStep(cfg, q, w, pc, fault).0.tables.rows;
            || rows == w.tables.rows || rows == Create(w.tables, q).rows
            || (pc.Marking? && rows == SetStored(w.tables, q.eventId, pc.written).rows)
            || rows == SetFailed(w.tables, q.eventId).rows
  {
  }

  lemma OthersUntouched(cfg: Config, q: Request, w: World, pc: Pc, fault: Fault, row: Row)
    requires TablesOk(w.tables) && row.eventId != q.eventId && row in w.tables.rows
    ensures Find(IngestStep(cfg, q, w, pc, fault).0.tables.rows, row.eventId) == Some(row)
  {
    RowsAfter(cfg, q, w, pc, fault);
    FindUnique(w.tables.rows, row);
    CreateSpares(w.tables, q, row);
    UpdatesSpare(w.tables, q, if pc.Marking? then pc.written else Uri(q.finalKey), row);
  }

  lemma SeenStep(cfg: Config, q: Request, w: World, pc: Pc, fault: Fault)
    requires TablesOk(w.tables) && Seen(w.tables, q, pc)
    ensures var (v, next) := IngestStep(cfg, q, w, pc, fault); Seen(v.tables, q, next)
  {
  }

  /** An ingest alone: other events stay stored, and a `stored` verdict leaves its own event stored. */
  lemma {:induction false} WalkStores(cfg: Config, w: World, q: Request, faults: seq<Fault>, e: EventId)
    requires TablesOk(w.tables) && Walk(cfg, w, Ingesting(q, Begin(q)), faults).Some?
    ensures var (v, p) := Walk(cfg, w, Ingesting(q, Begin(q)), faults).value;
            && TablesOk(v.tables) && p.Ingesting? && p.q == q && Seen(v.tables, q, p.pc)
            && (e != q.eventId && HasStored(w.tables, e) ==> Find(v.tables.rows, e) == Find(w.tables.rows, e))
  {
    if faults != [] {
      var init := faults[..|faults| - 1];
      WalkStores(cfg, w, q, init, e);
      var (v, p) := Walk(cfg, w, Ingesting(q, Begin(q)), init).value;
      var fault := faults[|faults| - 1];
      SeenStep(cfg, q, v, p.pc, fault);
      CreateKeepsTables(v.tables, q);
      UpdatesKeepTables(v.tables, q.eventId, if p.pc.Marking? then p.pc.written else Uri(q.finalKey));
      if e != q.eventId && HasStored(w.tables, e) {
        OthersUntouched(cfg, q, v, p.pc, fault, Find(w.tables.rows, e).value);
      }
    }
  }

  /** Where an ingest of an event id with a stored row can be. */
  ghost predicate Answered(cfg: Config, q: Request, row: Row, pc: Pc, clean: bool) {
    var answer := HandleExisting(cfg, q, row);
    || pc.Looking?
    || pc == answer || (answer.Logging? && pc == answer.next)
    || (!clean && pc == Done(Refused(LedgerError)))
  }

  lemma {:induction false} WalkAfterStored(cfg: Config, w: World, q: Request, row: Row, faults: seq<Fault>)
    requires q.verified && Find(w.tables.rows, q.eventId) == Some(row) && row.status.Stored? && row.uri.Some?
    requires Walk(cfg, w, Ingesting(q, Begin(q)), faults).Some?
    ensures var (v, p) := Walk(cfg, w, Ingesting(q, Begin(q)), faults).value;
            && v.tables.rows == w.tables.rows && p.Ingesting? && p.q == q
            && Answered(cfg, q, row, p.pc, Retention.Clean(faults))
  {
    if faults != [] {
      var init, last := faults[..|faults| - 1], faults[|faults| - 1];
      assert faults == init + [last];
      WalkAfterStored(cfg, w, q, row, init);
    }
  }

  /** An event id that is stored is never reported stored again. */
  lemma NeverStoredAgain(cfg: Config, w: World, item: Text, faults: seq<Fault>)
    requires cfg.read(item).Some? && HasStored(w.tables, cfg.read(item).value.eventId)
    requires ItemWalk(cfg, w, item, faults).Some?
    ensures !ItemWalk(cfg, w, item, faults).value.1.status.ItemStored?
    ensures HasStored(ItemWalk(cfg, w, item, faults).value.0.tables, cfg.read(item).value.eventId)
  {
    var q := cfg.read(item).value;
    if q.verified {
      WalkAfterStored(cfg, w, q, Find(w.tables.rows, q.eventId).value, faults);
    } else {
      WalkOfFinished(cfg, w, Ingesting(q, Begin(q)), faults);
    }
  }

  /** A process that has finished makes no store call. */
  lemma {:induction false} WalkOfFinished(cfg: Config, w: World, p: Process, faults: seq<Fault>)
    requires p.Finished()
    ensures Walk(cfg, w, p, faults) == if faults == [] then Some((w, p)) else None
  {
    if faults != [] {
      WalkOfFinished(cfg, w, p, faults[..|faults| - 1]);
    }
  }

  /** What earlier items have stored stays stored to the end of the batch. */
  lemma {:induction false} BatchStores(cfg: Config, w: World, items: seq<Text>, faults: seq<seq<Fault>>)
    requires |faults| == |items| && BatchWalk(cfg, w, items, faults).Some? && TablesOk(w.tables)
    ensures var (v, results) := BatchWalk(cfg, w, items, faults).value;
            && |results| == |items| && TablesOk(v.tables)
            && (forall i | 0 <= i < |items| :: results[i].status.ItemStored? ==>
                  results[i].eventId.Some? && HasStored(v.tables, results[i].eventId.value))
            && (forall i, j | 0 <= i < j < |items| && results[i].status.ItemStored? && results[j].status.ItemStored? ::
                  results[i].eventId != results[j].eventId)
  {
    if items != [] {
      var n := |items| - 1;
      BatchStores(cfg, w, items[..n], faults[..n]);
      var (v, results) := BatchWalk(cfg, w, items[..n], faults[..n]).value;
      LastItem(cfg, v, items[n], faults[n], results);
    }
  }

  lemma LastItem(cfg: Config, v: World, item: Text, faults: seq<Fault>, results: seq<ItemResult>)
    requires TablesOk(v.tables) && ItemWalk(cfg, v, item, faults).Some?
    requires forall r | r in results && r.status.ItemStored? :: r.eventId.Some? && HasStored(v.tables, r.eventId.value)
    ensures var (u, last) := ItemWalk(cfg, v, item, faults).value;
            && TablesOk(u.tables)
            && (last.status.ItemStored? ==> last.eventId.Some? && HasStored(u.tables, last.eventId.value))
            && (forall r | r in results && r.status.ItemStored? ::
                  HasStored(u.tables, r.eventId.value) && (last.status.ItemStored? ==> r.eventId != last.eventId))
  {
    if cfg.read(item).Some? {
      var q := cfg.read(item).value;
      WalkStores(cfg, v, q, faults, q.eventId);
      forall r | r in results && r.status.ItemStored?
        ensures HasStored(ItemWalk(cfg, v, item, faults).value.0.tables, r.eventId.value)
        ensures ItemWalk(cfg, v, item, faults).value.1.status.ItemStored? ==> r.eventId != Some(q.eventId)
      {
        if r.eventId.value == q.eventId {
          NeverStoredAgain(cfg, v, item, faults);
        } else {
          WalkStores(cfg, v, q, faults, r.eventId.value);
        }
      }
    }
  }

  /** Under any faults, no two items of one event id are both reported stored. */
  lemma AtMostOneStored(cfg: Config, w: World, items: seq<Text>, faults: seq<seq<Fault>>, i: nat, j: nat)
    requires |faults| == |items| && BatchWalk(cfg, w, items, faults).Some? && TablesOk(w.tables)
    requires i < j < |items|
    ensures var results := BatchWalk(cfg, w, items, faults).value.1;
            && |results| == |items|
            && (results[i].status.ItemStored? && results[j].status.ItemStored? ==>
                  results[i].eventId != results[j].eventId)
  {
    BatchStores(cfg, w, items, faults);
  }

  /* ---------- After an item has been accepted ---------- */

  /** Items that decode make well-formed requests; ServiceItemsOk says that they always do. */
  ghost predicate ItemsOk(cfg: Config, items: seq<Text>) {
    forall item | item in items && cfg.read(item).Some? :: WellFormed(cfg, cfg.read(item).value)
  }

  lemma ServiceItemsOk(archiveFirst: bool, reject: bool, h: Keys.Hashing, items: seq<Text>)
    ensures ItemsOk(Keys.ServiceConfig(archiveFirst, reject, h), items)
  {
    var cfg := Keys.ServiceConfig(archiveFirst, reject, h);
    forall item | item in items && cfg.read(item).Some?
      ensures WellFormed(cfg, cfg.read(item).value)
    {
      Keys.RequestRoundTrip(archiveFirst, reject, h, DecodeEnvelope(item).value);
    }
  }

  /** The stores when the n-th item begins. */
  function At(cfg: Config, w: World, items: seq<Text>, faults: seq<seq<Fault>>, n: nat): World
    requires |faults| == |items| && n <= |items|
  {
    var end := BatchWalk(cfg, w, items[..n], faults[..n]);
    if end.Some? then end.value.0 else w
  }

  /** A batch is its items, each run from where the one before it ended. */
  lemma {:induction false} ItemOfBatch(cfg: Config, w: World, items: seq<Text>, faults: seq<seq<Fault>>, i: nat)
    requires |faults| == |items| && BatchWalk(cfg, w, items, faults).Some? && i < |items|
    ensures |BatchWalk(cfg, w, items, faults).value.1| == |items|
    ensures ItemWalk(cfg, At(cfg, w, items, faults, i), items[i], faults[i])
            == Some((At(cfg, w, items, faults, i + 1), BatchWalk(cfg, w, items, faults).value.1[i]))
  {
    var n := |items| - 1;
    OneResultPerItem(cfg, w, items, faults);
    OneResultPerItem(cfg, w, items[..n], faults[..n]);
    if i == n {
      assert items[..n + 1] == items && faults[..n + 1] == faults;
    } else {
      ItemOfBatch(cfg, w, items[..n], faults[..n], i);
      assert items[..n][..i] == items[..i] && faults[..n][..i] == faults[..i];
      assert items[..n][..i + 1] == items[..i + 1] && faults[..n][..i + 1] == faults[..i + 1];
    }
  }

  lemma {:induction false} WorldOkAt(cfg: Config, w: World, items: seq<Text>, faults: seq<seq<Fault>>, n: nat)
    requires CollisionFree(cfg) && Sequential.WorldOk(cfg, w) && ItemsOk(cfg, items)
    requires |faults| == |items| && BatchWalk(cfg, w, items, faults).Some? && n <= |items|
    ensures Sequential.WorldOk(cfg, At(cfg, w, items, faults, n))
  {
    if n > 0 {
      WorldOkAt(cfg, w, items, faults, n - 1);
      ItemOfBatch(cfg, w, items, faults, n - 1);
      var item := items[n - 1];
      if cfg.read(item).Some? {
        var job := Sequential.IngestJob(cfg.read(item).value, faults[n - 1]);
        Sequential.PlayJobKeeps(cfg, At(cfg, w, items, faults, n - 1), job);
      }
    }
  }

  lemma {:induction false} TablesOkAt(cfg: Config, w: World, items: seq<Text>, faults: seq<seq<Fault>>, n: nat)
    requires TablesOk(w.tables) && |faults| == |items| && BatchWalk(cfg, w, items, faults).Some? && n <= |items|
    ensures TablesOk(At(cfg, w, items, faults, n).tables)
  {
    if n > 0 {
      TablesOkAt(cfg, w, items, faults, n - 1);
      ItemOfBatch(cfg, w, items, faults, n - 1);
      var q := cfg.read(items[n - 1]);
      if q.Some? {
        WalkStores(cfg, At(cfg, w, items, faults, n - 1), q.value, faults[n - 1], q.value.eventId);
      }
    }
  }

  lemma RowStep(cfg: Config, w: World, items: seq<Text>, faults: seq<seq<Fault>>, n: nat, row: Row)
    requires TablesOk(w.tables) && |faults| == |items| && BatchWalk(cfg, w, items, faults).Some? && n < |items|
    requires row.status.Stored? && row.uri.Some?
    requires Find(At(cfg, w, items, faults, n).tables.rows, row.eventId) == Some(row)
    ensures Find(At(cfg, w, items, faults, n + 1).tables.rows, row.eventId) == Some(row)
  {
    ItemOfBatch(cfg, w, items, faults, n);
    TablesOkAt(cfg, w, items, faults, n);
    OneItemKeepsRow(cfg, At(cfg, w, items, faults, n), items[n], faults[n], row);
  }

  /** A stored row outlives every item after it, of its own event id or another. */
  lemma {:induction false} RowStays(cfg: Config, w: World, items: seq<Text>, faults: seq<seq<Fault>>, i: nat, n: nat,
                                    row: Row)
    requires TablesOk(w.tables) && |faults| == |items| && BatchWalk(cfg, w, items, faults).Some? && i <= n <= |items|
    requires row.status.Stored? && row.uri.Some?
    requires Find(At(cfg, w, items, faults, i).tables.rows, row.eventId) == Some(row)
    ensures Find(At(cfg, w, items, faults, n).tables.rows, row.eventId) == Some(row)
  {
    if i < n {
      RowStays(cfg, w, items, faults, i, n - 1, row);
      RowStep(cfg, w, items, faults, n - 1, row);
    }
  }

  lemma OneItemKeepsRow(cfg: Config, w: World, item: Text, faults: seq<Fault>, row: Row)
    requires TablesOk(w.tables) && ItemWalk(cfg, w, item, faults).Some?
    requires Find(w.tables.rows, row.eventId) == Some(row) && row.status.Stored? && row.uri.Some?
    ensures Find(ItemWalk(cfg, w, item, faults).value.0.tables.rows, row.eventId) == Some(row)
  {
    if cfg.read(item).Some? {
      IngestKeepsRow(cfg, w, cfg.read(item).value, faults, row);
    }
  }

  lemma IngestKeepsRow(cfg: Config, w: World, q: Request, faults: seq<Fault>, row: Row)
    requires TablesOk(w.tables) && Walk(cfg, w, Ingesting(q, Begin(q)), faults).Some?
    requires Find(w.tables.rows, row.eventId) == Some(row) && row.status.Stored? && row.uri.Some?
    ensures Find(Walk(cfg, w, Ingesting(q, Begin(q)), faults).value.0.tables.rows, row.eventId) == Some(row)
  {
    if row.eventId != q.eventId {
      WalkStores(cfg, w, q, faults, row.eventId);
    } else if q.verified {
      WalkAfterStored(cfg, w, q, row, faults);
    } else {
      WalkOfFinished(cfg, w, Ingesting(q, Begin(q)), faults);
    }
  }

  predicate AcceptedItem(status: ItemStatus) {
    status.ItemStored? || status.ItemDuplicate?
  }

  /** The row an accepted item leaves: its own text, stored. */
  lemma AcceptedLeavesRow(cfg: Config, w: World, items: seq<Text>, faults: seq<seq<Fault>>, i: nat) returns (row: Row)
    requires CollisionFree(cfg) && Sequential.WorldOk(cfg, w) && ItemsOk(cfg, items)
    requires |faults| == |items| && BatchWalk(cfg, w, items, faults).Some? && i < |items|
    requires i < |BatchWalk(cfg, w, items, faults).value.1|
    requires AcceptedItem(BatchWalk(cfg, w, items, faults).value.1[i].status)
    ensures cfg.read(items[i]).Some? && row.eventId == cfg.read(items[i]).value.eventId
    ensures row.text == cfg.read(items[i]).value.text && row.status.Stored? && row.uri.Some? && RowFaithful(cfg, row)
    ensures Find(At(cfg, w, items, faults, i + 1).tables.rows, row.eventId) == Some(row)
  {
    ItemOfBatch(cfg, w, items, faults, i);
    WorldOkAt(cfg, w, items, faults, i);
    WorldOkAt(cfg, w, items, faults, i + 1);
    var q := cfg.read(items[i]).value;
    var before := At(cfg, w, items, faults, i);
    assert Sequential.PlayJob(cfg, before, Sequential.IngestJob(q, faults[i])).0 == At(cfg, w, items, faults, i + 1);
    Sequential.AcknowledgedIsStored(cfg, before, q, faults[i]);
    row := Find(At(cfg, w, items, faults, i + 1).tables.rows, q.eventId).value;
    assert Sequential.RowOk(cfg, At(cfg, w, items, faults, i + 1).objects, row);
  }

  lemma SameRowSameHashes(cfg: Config, q: Request, row: Row)
    requires CollisionFree(cfg) && WellFormed(cfg, q) && q.verified && RowFaithful(cfg, row)
    ensures row.eventHash == q.eventHash && row.payloadHash == q.payloadHash <==> row.text == q.text
  {
  }

  lemma ItemAfterStored(cfg: Config, w: World, item: Text, faults: seq<Fault>, row: Row)
    requires CollisionFree(cfg) && RowFaithful(cfg, row) && row.status.Stored? && row.uri.Some?
    requires cfg.read(item).Some? && WellFormed(cfg, cfg.read(item).value) && cfg.read(item).value.verified
    requires Find(w.tables.rows, cfg.read(item).value.eventId) == Some(row) && ItemWalk(cfg, w, item, faults).Some?
    ensures var status := ItemWalk(cfg, w, item, faults).value.1.status;
            || status == (if cfg.read(item).value.text == row.text then ItemDuplicate else ItemConflict)
            || (!Retention.Clean(faults) && status == ItemFailed)
  {
    var q := cfg.read(item).value;
    WalkAfterStored(cfg, w, q, row, faults);
    SameRowSameHashes(cfg, q, row);
  }

  /**
   Once an item has been accepted, a later verified item of its event id is a duplicate if it has the
   same content and a conflict if not, whichever way conflicts are reported; the one other thing it
   can be is failed, and only if a store call of its own failed.
   */
  lemma AfterAccepted(cfg: Config, w: World, items: seq<Text>, faults: seq<seq<Fault>>, i: nat, j: nat)
    requires CollisionFree(cfg) && Sequential.WorldOk(cfg, w) && ItemsOk(cfg, items)
    requires |faults| == |items| && BatchWalk(cfg, w, items, faults).Some? && i < j < |items|
    requires cfg.read(items[i]).Some? && cfg.read(items[j]).Some? && cfg.read(items[j]).value.verified
    requires cfg.read(items[i]).value.eventId == cfg.read(items[j]).value.eventId
    requires j < |BatchWalk(cfg, w, items, faults).value.1|
    requires AcceptedItem(BatchWalk(cfg, w, items, faults).value.1[i].status)
    ensures var status := BatchWalk(cfg, w, items, faults).value.1[j].status;
            || status == (if cfg.read(items[j]).value.text == cfg.read(items[i]).value.text
                          then ItemDuplicate else ItemConflict)
            || (!Retention.Clean(faults[j]) && status == ItemFailed)
  {
    var row := AcceptedLeavesRow(cfg, w, items, faults, i);
    RowStays(cfg, w, items, faults, i + 1, j, row);
    ItemOfBatch(cfg, w, items, faults, j);
    assert items[j] in items;
    ItemAfterStored(cfg, At(cfg, w, items, faults, j), items[j], faults[j], row);
  }
}
