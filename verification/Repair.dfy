/**
 Repair: whatever crashes and outages went before, one ingest that meets no fault settles its event.
 */
module Repair {
  import opened Wrappers
  import opened Faults
  import opened Requests
  import opened Storage
  import opened Ledger
  import opened LedgerFacts
  import opened Machine
  import opened System
  import AF = ArchiveFirst
  import LF = LedgerFirst
  import Sequential

  /** An ingest from here on, alone and with every store call working. */
  function Finish(cfg: Config, w: World, q: Request, pc: Pc): (World, Outcome)
    decreases Rank(pc)
  {
    if pc.Done? then (w, pc.outcome)
    else
      StepDescends(cfg, q, w, pc, Works);
      var (w', pc') := IngestStep(cfg, q, w, pc, Works);
      Finish(cfg, w', q, pc')
  }

  /** `Finish` is the walk of the process under a list of faults that are all `Works`. */
  lemma {:induction false} FinishIsWalk(cfg: Config, w: World, q: Request, pc: Pc) returns (n: nat)
    ensures n <= Rank(pc)
    ensures Walk(cfg, w, Ingesting(q, pc), seq(n, _ => Works))
            == Some((Finish(cfg, w, q, pc).0, Ingesting(q, Done(Finish(cfg, w, q, pc).1))))
    decreases Rank(pc)
  {
    n := 0;
    if !pc.Done? {
      StepDescends(cfg, q, w, pc, Works);
      var (w', pc') := IngestStep(cfg, q, w, pc, Works);
      var m := FinishIsWalk(cfg, w', q, pc');
      n := m + 1;
      var one, rest: seq<Fault> := [Works], seq(m, _ => Works);
      assert one + rest == seq(n, _ => Works);
      assert one[..0] == [];
      assert Walk(cfg, w, Ingesting(q, pc), []) == Some((w, Ingesting(q, pc)));
      assert Walk(cfg, w, Ingesting(q, pc), one) == Some((w', Ingesting(q, pc')));
      WalkAppend(cfg, w, Ingesting(q, pc), one, rest);
    }
  }

  /** Some object or row of the event id carries other content. */
  ghost predicate Taken(w: World, q: Request) {
    || (exists k :: k in w.objects && k.eventId == q.eventId && w.objects[k] != q.text)
    || (exists r :: r in w.tables.rows && r.eventId == q.eventId && r.text != q.text)
  }

  function Agreed(q: Request, objects: Objects): Objects {
    objects[GuardKey(q.eventId) := q.text][q.finalKey := q.text]
  }

  lemma FinishStep(cfg: Config, w: World, q: Request, markFailed: bool, store: StorePc)
    requires !store.Returned?
    ensures Finish(cfg, w, q, Writing(markFailed, store))
            == var (o, next) := StoreStep(q, w.objects, store, Works);
               Finish(cfg, w.(objects := o), q, Resume(cfg, q, markFailed, next))
  {
  }

  /** One object of a write that meets nothing else there. */
  lemma {:induction false} FinishPut(cfg: Config, w: World, q: Request, markFailed: bool, target: Target)
    requires TargetKey(q, target) in w.objects ==> w.objects[TargetKey(q, target)] == q.text
    ensures Finish(cfg, w, q, Writing(markFailed, Put(target)))
            == Finish(cfg, w.(objects := w.objects[TargetKey(q, target) := q.text]), q,
                      Resume(cfg, q, markFailed, AfterObject(q, target)))
  {
    FinishStep(cfg, w, q, markFailed, Put(target));
    if TargetKey(q, target) in w.objects {
      FinishStep(cfg, w, q, markFailed, Get(target));
      assert w.objects[TargetKey(q, target) := q.text] == w.objects;
    }
  }

  lemma {:induction false} FinishFile(cfg: Config, w: World, q: Request, markFailed: bool, target: Target,
                                      guardCreated: bool)
    requires TargetKey(q, target) in w.objects ==> w.objects[TargetKey(q, target)] == q.text
    ensures Finish(cfg, w, q, Writing(markFailed, Check(target, guardCreated)))
            == Finish(cfg, w.(objects := w.objects[TargetKey(q, target) := q.text]), q,
                      Resume(cfg, q, markFailed, AfterFile(target, TargetKey(q, target) !in w.objects)))
  {
    FinishStep(cfg, w, q, markFailed, Check(target, guardCreated));
    if TargetKey(q, target) in w.objects {
      assert w.objects[TargetKey(q, target) := q.text] == w.objects;
    } else {
      FinishStep(cfg, w, q, markFailed, Link(target, guardCreated));
    }
  }

  /** Neither key of the request holds anything else. */
  ghost predicate Open(objects: Objects, q: Request) {
    && (GuardKey(q.eventId) in objects ==> objects[GuardKey(q.eventId)] == q.text)
    && (q.finalKey in objects ==> objects[q.finalKey] == q.text)
  }

  lemma UntakenIsOpen(w: World, q: Request)
    requires !Taken(w, q) && q.finalKey.eventId == q.eventId
    ensures Open(w.objects, q)
  {
  }

  lemma {:induction false} FinishWritingOnS3(cfg: Config, w: World, q: Request, markFailed: bool)
    requires q.finalKey.FinalKey? && Open(w.objects, q)
    ensures Finish(cfg, w, q, Writing(markFailed, Put(Guard)))
            == Finish(cfg, w.(objects := Agreed(q, w.objects)), q,
                      AfterWrite(cfg, q, markFailed, Written(Uri(q.finalKey))))
  {
    FinishPut(cfg, w, q, markFailed, Guard);
    FinishPut(cfg, w.(objects := w.objects[GuardKey(q.eventId) := q.text]), q, markFailed, Final);
  }

  lemma {:induction false} FinishFinalFile(cfg: Config, w: World, q: Request, markFailed: bool, guardCreated: bool)
    requires q.finalKey in w.objects ==> w.objects[q.finalKey] == q.text
    ensures Finish(cfg, w, q, Writing(markFailed, Check(Final, guardCreated)))
            == Finish(cfg, w.(objects := w.objects[q.finalKey := q.text]), q,
                      AfterWrite(cfg, q, markFailed, Written(Uri(q.finalKey))))
  {
    FinishFile(cfg, w, q, markFailed, Final, guardCreated);
    FinishStep(cfg, w.(objects := w.objects[q.finalKey := q.text]), q, markFailed, Naming);
  }

  lemma {:induction false} FinishWritingOnDisk(cfg: Config, w: World, q: Request, markFailed: bool)
    requires q.finalKey.FinalKey? && Open(w.objects, q)
    ensures Finish(cfg, w, q, Writing(markFailed, Check(Guard, false)))
            == Finish(cfg, w.(objects := Agreed(q, w.objects)), q,
                      AfterWrite(cfg, q, markFailed, Written(Uri(q.finalKey))))
  {
    var guarded := w.(objects := w.objects[GuardKey(q.eventId) := q.text]);
    FinishFile(cfg, w, q, markFailed, Guard, false);
    FinishFinalFile(cfg, guarded, q, markFailed, GuardKey(q.eventId) !in w.objects);
  }

  /** Both objects are there, with the request's text, after a write that met nothing else. */
  lemma FinishWriting(cfg: Config, w: World, q: Request, markFailed: bool)
    requires q.finalKey.FinalKey? && Open(w.objects, q)
    ensures Finish(cfg, w, q, Writing(markFailed, StoreBegin(cfg.archiveFirst)))
            == Finish(cfg, w.(objects := Agreed(q, w.objects)), q,
                      AfterWrite(cfg, q, markFailed, Written(Uri(q.finalKey))))
  {
    if cfg.archiveFirst {
      FinishWritingOnS3(cfg, w, q, markFailed);
    } else {
      FinishWritingOnDisk(cfg, w, q, markFailed);
    }
  }

  /** The end of a successful run: the row of the event id is stored under the request's own key. */
  ghost predicate Settled(w: World, q: Request) {
    var row := Find(w.tables.rows, q.eventId);
    && row.Some? && row.value.text == q.text && row.value.status.Stored? && row.value.uri == Some(Uri(q.finalKey))
    && LF.FinalHolds(w.objects, q)
  }

  /** The stores after the row of the event id has been marked and the attempt logged. */
  function MarkedStored(w: World, q: Request): World {
    w.(tables := LogAttempt(SetStored(w.tables, q.eventId, Uri(q.finalKey)), q.eventId, AttemptStored))
  }

  lemma MarkedRow(w: World, q: Request, row: Row)
    requires TablesOk(w.tables) && Find(w.tables.rows, q.eventId) == Some(row)
    ensures Find(MarkedStored(w, q).tables.rows, q.eventId) == Some(StoredRow(row, Uri(q.finalKey)))
    ensures TablesOk(MarkedStored(w, q).tables)
  {
    UpdatedRow(w.tables, q.eventId, Uri(q.finalKey), row);
    UpdatesKeepTables(w.tables, q.eventId, Uri(q.finalKey));
    FindUnique(SetStored(w.tables, q.eventId, Uri(q.finalKey)).rows, StoredRow(row, Uri(q.finalKey)));
  }

  lemma MarkedSettles(w: World, q: Request, row: Row)
    requires TablesOk(w.tables) && Find(w.tables.rows, q.eventId) == Some(row) && row.text == q.text
    requires LF.FinalHolds(w.objects, q)
    ensures Settled(MarkedStored(w, q), q) && MarkedStored(w, q).objects == w.objects
  {
    MarkedRow(w, q, row);
  }

  lemma FinishMarking(cfg: Config, w: World, q: Request)
    requires TablesOk(w.tables) && Find(w.tables.rows, q.eventId).Some?
    ensures Finish(cfg, w, q, Marking(Uri(q.finalKey)))
            == (MarkedStored(w, q), Accepted(VerdictStored, q.eventId, Some(Uri(q.finalKey))))
  {
    var uri, row := Uri(q.finalKey), Find(w.tables.rows, q.eventId).value;
    var marked := w.(tables := SetStored(w.tables, q.eventId, uri));
    MarkedRow(w, q, row);
    assert Finish(cfg, w, q, Marking(uri)) == Finish(cfg, marked, q, Confirming);
    FinishConfirming(cfg, marked, q, StoredRow(row, uri));
  }

  lemma FinishConfirming(cfg: Config, w: World, q: Request, row: Row)
    requires Find(w.tables.rows, q.eventId) == Some(row)
    ensures Finish(cfg, w, q, Confirming)
            == (w.(tables := LogAttempt(w.tables, q.eventId, AttemptStored)),
                Accepted(VerdictStored, q.eventId, row.uri))
  {
  }

  /** INSERT and re-read for an event id that has no row. */
  lemma FinishCreating(cfg: Config, w: World, q: Request, uri: Option<Uri>)
    requires TablesOk(w.tables) && Find(w.tables.rows, q.eventId).None?
    ensures var created := w.(tables := Create(w.tables, q));
            && TablesOk(created.tables)
            && Find(created.tables.rows, q.eventId) == Some(NewRow(w.tables.nextId, q))
            && Finish(cfg, w, q, Creating(uri))
               == Finish(cfg, created, q,
                         if uri.Some? then Marking(uri.value) else Writing(true, StoreBegin(cfg.archiveFirst)))
  {
    var created := w.(tables := Create(w.tables, q));
    CreateKeepsTables(w.tables, q);
    FindUnique(created.tables.rows, NewRow(w.tables.nextId, q));
    assert Finish(cfg, w, q, Creating(uri)) == Finish(cfg, created, q, Rereading(uri));
  }

  /** The row is stored already: the same content is a duplicate. */
  lemma FinishStored(cfg: Config, w: World, q: Request, row: Row)
    requires Find(w.tables.rows, q.eventId) == Some(row) && row.status.Stored? && row.uri.Some?
    requires row.eventHash == q.eventHash && row.payloadHash == q.payloadHash
    ensures Finish(cfg, w, q, Looking)
            == (w.(tables := LogAttempt(w.tables, q.eventId, AttemptDuplicate)),
                Accepted(VerdictDuplicate, q.eventId, row.uri))
  {
  }

  /** The row is there and not stored: the write is taken up again. */
  lemma FinishPending(cfg: Config, w: World, q: Request, row: Row)
    requires WellFormed(cfg, q) && TablesOk(w.tables) && Open(w.objects, q)
    requires Find(w.tables.rows, q.eventId) == Some(row) && !row.status.Stored?
    requires row.eventHash == q.eventHash && row.payloadHash == q.payloadHash
    ensures Finish(cfg, w, q, Looking)
            == (MarkedStored(World(w.tables, Agreed(q, w.objects)), q),
                Accepted(VerdictStored, q.eventId, Some(Uri(q.finalKey))))
  {
    assert Finish(cfg, w, q, Looking) == Finish(cfg, w, q, Writing(true, StoreBegin(cfg.archiveFirst)));
    FinishWriting(cfg, w, q, true);
    FinishMarking(cfg, w.(objects := Agreed(q, w.objects)), q);
  }

  /** No row yet: one is inserted, before or after the archive is written, and marked. */
  lemma FinishNew(cfg: Config, w: World, q: Request)
    requires WellFormed(cfg, q) && TablesOk(w.tables) && Open(w.objects, q) && Find(w.tables.rows, q.eventId).None?
    ensures Finish(cfg, w, q, Looking)
            == (MarkedStored(World(Create(w.tables, q), Agreed(q, w.objects)), q),
                Accepted(VerdictStored, q.eventId, Some(Uri(q.finalKey))))
    ensures TablesOk(Create(w.tables, q))
    ensures Find(Create(w.tables, q).rows, q.eventId) == Some(NewRow(w.tables.nextId, q))
  {
    FinishCreating(cfg, w, q, None);
    if cfg.archiveFirst {
      FinishNewOnS3(cfg, w, q);
    } else {
      FinishNewOnDisk(cfg, w, q);
    }
    FinishMarking(cfg, World(Create(w.tables, q), Agreed(q, w.objects)), q);
  }

  lemma FinishNewOnS3(cfg: Config, w: World, q: Request)
    requires cfg.archiveFirst && WellFormed(cfg, q) && TablesOk(w.tables) && Open(w.objects, q)
    requires Find(w.tables.rows, q.eventId).None?
    ensures Finish(cfg, w, q, Looking)
            == Finish(cfg, World(Create(w.tables, q), Agreed(q, w.objects)), q, Marking(Uri(q.finalKey)))
  {
    assert Finish(cfg, w, q, Looking) == Finish(cfg, w, q, Writing(false, StoreBegin(true)));
    FinishWriting(cfg, w, q, false);
    FinishCreating(cfg, w.(objects := Agreed(q, w.objects)), q, Some(Uri(q.finalKey)));
  }

  lemma FinishNewOnDisk(cfg: Config, w: World, q: Request)
    requires !cfg.archiveFirst && WellFormed(cfg, q) && TablesOk(w.tables) && Open(w.objects, q)
    requires Find(w.tables.rows, q.eventId).None?
    ensures Finish(cfg, w, q, Looking)
            == Finish(cfg, World(Create(w.tables, q), Agreed(q, w.objects)), q, Marking(Uri(q.finalKey)))
  {
    assert Finish(cfg, w, q, Looking) == Finish(cfg, w, q, Creating(None));
    FinishCreating(cfg, w, q, None);
    FinishWriting(cfg, w.(tables := Create(w.tables, q)), q, true);
  }

  /** An unclaimed or rightly claimed event id: the ingest is accepted, whatever was half done before. */
  lemma FinishFree(cfg: Config, w: World, q: Request)
    requires WellFormed(cfg, q) && q.verified && TablesOk(w.tables) && !Taken(w, q)
    requires forall r | r in w.tables.rows :: RowFaithful(cfg, r)
    requires forall r | r in w.tables.rows && r.uri.Some? && r.text == q.text :: LF.FinalHolds(w.objects, q)
    ensures var (end, outcome) := Finish(cfg, w, q, Looking);
            var row := Find(w.tables.rows, q.eventId);
            && Settled(end, q)
            && end.objects == (if row.Some? && row.value.status.Stored? then w.objects else Agreed(q, w.objects))
            && outcome == Accepted(if row.Some? && row.value.status.Stored? then VerdictDuplicate else VerdictStored,
                                   q.eventId, Some(Uri(q.finalKey)))
  {
    var found := Find(w.tables.rows, q.eventId);
    UntakenIsOpen(w, q);
    if found.Some? {
      assert found.value.text == q.text && RowFaithful(cfg, found.value);
      if found.value.status.Stored? {
        FinishStored(cfg, w, q, found.value);
      } else {
        FinishPending(cfg, w, q, found.value);
        MarkedSettles(World(w.tables, Agreed(q, w.objects)), q, found.value);
      }
    } else {
      FinishNew(cfg, w, q);
      MarkedSettles(World(Create(w.tables, q), Agreed(q, w.objects)), q, NewRow(w.tables.nextId, q));
    }
  }

  ghost predicate ConflictOutcome(cfg: Config, outcome: Outcome) {
    if cfg.reject then outcome == Refused(HashConflictError) else outcome.Accepted? && outcome.verdict.VerdictConflict?
  }

  ghost predicate OnlyAttempts(before: World, after: World) {
    after == before.(tables := before.tables.(attempts := after.tables.attempts))
  }

  lemma FinishConflict(cfg: Config, w: World, q: Request, uri: Option<Uri>)
    ensures var (end, outcome) := Finish(cfg, w, q, Conflict(cfg, q, uri));
            ConflictOutcome(cfg, outcome) && OnlyAttempts(w, end)
  {
  }

  /** A row with other content has another hash, so the lookup already ends in a conflict. */
  lemma FinishTakenByRow(cfg: Config, w: World, q: Request)
    requires CollisionFree(cfg) && WellFormed(cfg, q) && q.verified
    requires Find(w.tables.rows, q.eventId).Some? && Find(w.tables.rows, q.eventId).value.text != q.text
    requires RowFaithful(cfg, Find(w.tables.rows, q.eventId).value)
    ensures var (end, outcome) := Finish(cfg, w, q, Looking); ConflictOutcome(cfg, outcome) && OnlyAttempts(w, end)
  {
  }

  ghost predicate GuardDiffers(objects: Objects, q: Request) {
    GuardKey(q.eventId) in objects && objects[GuardKey(q.eventId)] != q.text
  }

  /** A guard with other content stops the first write. */
  lemma FinishTakenByGuard(cfg: Config, w: World, q: Request, markFailed: bool)
    requires GuardDiffers(w.objects, q)
    ensures var (end, outcome) := Finish(cfg, w, q, Writing(markFailed, StoreBegin(cfg.archiveFirst)));
            ConflictOutcome(cfg, outcome) && OnlyAttempts(w, end)
  {
    FinishStep(cfg, w, q, markFailed, StoreBegin(cfg.archiveFirst));
    if cfg.archiveFirst {
      FinishStep(cfg, w, q, markFailed, Get(Guard));
    }
    FinishConflict(cfg, w, q, None);
  }

  /** Archive-first an event id without a row goes straight to the guard. */
  lemma FinishGuardedOnS3(cfg: Config, w: World, q: Request)
    requires cfg.archiveFirst && Find(w.tables.rows, q.eventId).None? && GuardDiffers(w.objects, q)
    ensures var (end, outcome) := Finish(cfg, w, q, Looking); ConflictOutcome(cfg, outcome) && OnlyAttempts(w, end)
  {
  }

  /** A row that is not stored goes there too. */
  lemma FinishGuardedPending(cfg: Config, w: World, q: Request, row: Row)
    requires Find(w.tables.rows, q.eventId) == Some(row) && !row.status.Stored? && GuardDiffers(w.objects, q)
    requires row.eventHash == q.eventHash && row.payloadHash == q.payloadHash
    ensures var (end, outcome) := Finish(cfg, w, q, Looking); ConflictOutcome(cfg, outcome) && OnlyAttempts(w, end)
  {
    assert Finish(cfg, w, q, Looking) == Finish(cfg, w, q, Writing(true, StoreBegin(cfg.archiveFirst)));
    FinishTakenByGuard(cfg, w, q, true);
  }

  /**
   Ledger-first, an event id whose row retention has taken: other content is rejected by the guard,
   but only after a `received` row with that content has been inserted.
   */
  lemma ReceivedBeforeRejected(cfg: Config, w: World, q: Request)
    requires !cfg.archiveFirst && TablesOk(w.tables) && Find(w.tables.rows, q.eventId).None?
    requires GuardDiffers(w.objects, q)
    ensures var (end, outcome) := Finish(cfg, w, q, Looking);
            && ConflictOutcome(cfg, outcome)
            && OnlyAttempts(w.(tables := Create(w.tables, q)), end)
            && end.tables.rows == w.tables.rows + [NewRow(w.tables.nextId, q)]
  {
    FinishCreating(cfg, w, q, None);
    assert Finish(cfg, w, q, Looking) == Finish(cfg, w, q, Creating(None));
    FinishTakenByGuard(cfg, w.(tables := Create(w.tables, q)), q, true);
  }

  ghost predicate Repaired(cfg: Config, w: World, q: Request) {
    var (end, outcome) := Finish(cfg, w, q, Begin(q));
    if Taken(w, q) then ConflictOutcome(cfg, outcome) && OnlyAttempts(w, end)
    else
      var row := Find(w.tables.rows, q.eventId);
      && Settled(end, q)
      && outcome == Accepted(if row.Some? && row.value.status.Stored? then VerdictDuplicate else VerdictStored,
                             q.eventId, Some(Uri(q.finalKey)))
  }

  /** A row that is found by its event id is the only one, so a differing row is the one found. */
  lemma TakenByRow(cfg: Config, w: World, q: Request)
    requires CollisionFree(cfg) && WellFormed(cfg, q) && q.verified && TablesOk(w.tables)
    requires forall r | r in w.tables.rows :: RowFaithful(cfg, r)
    requires exists r :: r in w.tables.rows && r.eventId == q.eventId && r.text != q.text
    ensures Repaired(cfg, w, q)
  {
    var r :| r in w.tables.rows && r.eventId == q.eventId && r.text != q.text;
    FindUnique(w.tables.rows, r);
    FinishTakenByRow(cfg, w, q);
  }

  /** The conditions of FinishFree, as archive-first worlds meet them. */
  lemma ArchiveFirstRows(cfg: Config, w: World, q: Request)
    requires AF.WorldOk(cfg, w) && WellFormed(cfg, q)
    ensures forall r | r in w.tables.rows :: RowFaithful(cfg, r)
    ensures forall r | r in w.tables.rows && r.text == q.text :: AF.Archived(w.objects, q)
  {
  }

  lemma ArchiveFirstFree(cfg: Config, w: World, q: Request)
    requires cfg.archiveFirst && AF.WorldOk(cfg, w) && WellFormed(cfg, q) && q.verified && !Taken(w, q)
    ensures Repaired(cfg, w, q) && AF.Archived(Finish(cfg, w, q, Begin(q)).0.objects, q)
  {
    ArchiveFirstRows(cfg, w, q);
    FinishFree(cfg, w, q);
  }

  /** No row differs but an object does: then the guard does, and there is no row. */
  lemma ArchiveFirstTakenByObject(cfg: Config, w: World, q: Request, k: Key)
    requires cfg.archiveFirst && AF.WorldOk(cfg, w) && WellFormed(cfg, q) && q.verified
    requires k in w.objects && k.eventId == q.eventId && w.objects[k] != q.text
    requires forall r | r in w.tables.rows && r.eventId == q.eventId :: r.text == q.text
    ensures Repaired(cfg, w, q)
  {
    assert AF.ObjectOk(cfg, w.objects, k);
    ArchiveFirstRows(cfg, w, q);
    FinishGuardedOnS3(cfg, w, q);
  }

  /**
   Archive-first, after any run at all: a fault-free ingest is stored or duplicate exactly when no
   other content has claimed the event id, and otherwise a conflict that leaves rows and archive alone.
   */
  lemma ArchiveFirstRepair(cfg: Config, events: seq<Event>, q: Request)
    requires cfg.archiveFirst && CollisionFree(cfg) && WellFormedEvents(cfg, events)
    requires WellFormed(cfg, q) && q.verified
    ensures var w := Run(cfg, EMPTY_SYSTEM, events).world;
            Repaired(cfg, w, q) && (!Taken(w, q) ==> AF.Archived(Finish(cfg, w, q, Begin(q)).0.objects, q))
  {
    AF.RunKeeps(cfg, EMPTY_SYSTEM, events);
    var w := Run(cfg, EMPTY_SYSTEM, events).world;
    if !Taken(w, q) {
      ArchiveFirstFree(cfg, w, q);
    } else if exists r :: r in w.tables.rows && r.eventId == q.eventId && r.text != q.text {
      ArchiveFirstRows(cfg, w, q);
      TakenByRow(cfg, w, q);
    } else {
      var k :| k in w.objects && k.eventId == q.eventId && w.objects[k] != q.text;
      ArchiveFirstTakenByObject(cfg, w, q, k);
    }
  }

  /** In a ledger-first world whatever is taken is taken by a row. */
  lemma LedgerFirstRows(cfg: Config, w: World, q: Request)
    requires LF.WorldOk(cfg, w) && WellFormed(cfg, q)
    ensures forall r | r in w.tables.rows :: RowFaithful(cfg, r)
    ensures forall r | r in w.tables.rows && r.uri.Some? && r.text == q.text :: LF.FinalHolds(w.objects, q)
    ensures Taken(w, q) ==> exists r :: r in w.tables.rows && r.eventId == q.eventId && r.text != q.text
  {
  }

  /** Ledger-first, after any run without retention: the same. */
  lemma LedgerFirstRepair(cfg: Config, events: seq<Event>, q: Request)
    requires !cfg.archiveFirst && CollisionFree(cfg) && WellFormedEvents(cfg, events) && LF.NoRetention(events)
    requires WellFormed(cfg, q) && q.verified
    ensures Repaired(cfg, Run(cfg, EMPTY_SYSTEM, events).world, q)
  {
    LF.RunKeeps(cfg, EMPTY_SYSTEM, events);
    var w := Run(cfg, EMPTY_SYSTEM, events).world;
    LedgerFirstRows(cfg, w, q);
    if Taken(w, q) {
      TakenByRow(cfg, w, q);
    } else {
      FinishFree(cfg, w, q);
    }
  }

  /* ---------- Sequential histories, retention included ---------- */

  /** The conditions of FinishFree, and whose guard a foreign object comes with. */
  lemma SequentialRows(cfg: Config, w: World, q: Request)
    requires Sequential.WorldOk(cfg, w) && WellFormed(cfg, q)
    ensures forall r | r in w.tables.rows :: RowFaithful(cfg, r)
    ensures forall r | r in w.tables.rows && r.uri.Some? && r.text == q.text :: AF.Archived(w.objects, q)
    ensures (exists k :: k in w.objects && k.eventId == q.eventId && w.objects[k] != q.text) ==>
              GuardDiffers(w.objects, q)
  {
  }

  /** A conflict that leaves rows and archive alone, except for the claim of a ledger-first newcomer. */
  ghost predicate Rejected(cfg: Config, w: World, q: Request, end: World, outcome: Outcome) {
    && ConflictOutcome(cfg, outcome)
    && OnlyAttempts(
         if cfg.archiveFirst || Find(w.tables.rows, q.eventId).Some? then w else w.(tables := Create(w.tables, q)),
         end)
  }

  lemma SequentialTaken(cfg: Config, w: World, q: Request)
    requires CollisionFree(cfg) && Sequential.WorldOk(cfg, w) && WellFormed(cfg, q) && q.verified && Taken(w, q)
    ensures var (end, outcome) := Finish(cfg, w, q, Looking); Rejected(cfg, w, q, end, outcome)
  {
    SequentialRows(cfg, w, q);
    var found := Find(w.tables.rows, q.eventId);
    if exists r :: r in w.tables.rows && r.eventId == q.eventId && r.text != q.text {
      TakenByRow(cfg, w, q);
      var r :| r in w.tables.rows && r.eventId == q.eventId && r.text != q.text;
      FindUnique(w.tables.rows, r);
    } else if found.Some? {
      assert found.value.text == q.text && RowFaithful(cfg, found.value);
      FinishGuardedPending(cfg, w, q, found.value);
    } else if cfg.archiveFirst {
      FinishGuardedOnS3(cfg, w, q);
    } else {
      ReceivedBeforeRejected(cfg, w, q);
    }
  }

  /**
   Either adapter, after any sequential history with retention, faults and crashes: a fault-free ingest
   is stored or duplicate exactly when no other content has claimed the event id, and otherwise a
   conflict that leaves the archive alone and the rows too, save that ledger-first an event id without
   a row gets one.
   */
  lemma SequentialRepair(cfg: Config, jobs: seq<Sequential.Job>, q: Request)
    requires CollisionFree(cfg) && (forall j | j in jobs :: Sequential.JobOk(cfg, j)) && WellFormed(cfg, q)
    requires q.verified
    ensures var w := Sequential.Play(cfg, EMPTY_WORLD, jobs);
            var (end, outcome) := Finish(cfg, w, q, Begin(q));
            if Taken(w, q) then Rejected(cfg, w, q, end, outcome) else Repaired(cfg, w, q)
  {
    Sequential.PlayKeeps(cfg, EMPTY_WORLD, jobs);
    var w := Sequential.Play(cfg, EMPTY_WORLD, jobs);
    if Taken(w, q) {
      SequentialTaken(cfg, w, q);
    } else {
      SequentialRows(cfg, w, q);
      FinishFree(cfg, w, q);
    }
  }

  /* ---------- What a hash decides ---------- */

  /**
   A stored row answers every later request of its event id by hashes alone: a duplicate exactly when
   both agree. So without required event hashes other content can be acknowledged as a duplicate.
   */
  lemma StoredRowAnswers(cfg: Config, w: World, q: Request, row: Row)
    requires Find(w.tables.rows, q.eventId) == Some(row) && row.status.Stored? && row.uri.Some?
    ensures var (end, outcome) := Finish(cfg, w, q, Looking);
            && OnlyAttempts(w, end)
            && (outcome == Accepted(VerdictDuplicate, q.eventId, row.uri) <==>
                  row.eventHash == q.eventHash && row.payloadHash == q.payloadHash)
            && (outcome == Accepted(VerdictDuplicate, q.eventId, row.uri) || ConflictOutcome(cfg, outcome))
  {
  }

  /** A retry whose event hash is that of the row never meets a conflict in the archive. */
  lemma RetryMeetsNoConflict(cfg: Config, w: World, q: Request, row: Row, pc: StorePc, fault: Fault)
    requires CollisionFree(cfg) && AF.WorldOk(cfg, w) && WellFormed(cfg, q) && q.verified
    requires row in w.tables.rows && row.eventId == q.eventId && row.eventHash == q.eventHash
    requires pc.Put? || pc.Get?
    ensures StoreStep(q, w.objects, pc, fault).1 != Returned(Conflicting)
    ensures AF.Archived(StoreStep(q, w.objects, pc, fault).0, q)
  {
  }
}
