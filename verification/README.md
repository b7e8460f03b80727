# Durable ingest: a verified model

This project models the durable-ingest protocol of the `sigint` service and proves what it promises.
The service takes event envelopes over HTTP and keeps each of them twice: as a row of a SQL ledger
(unique event id, auto-increment id that serves as replay cursor, status `received`, `failed` or
`stored`, the canonical raw text) and as write-once objects of an archive (a *guard* object and a
*final* object per event id). Either store can fail at every call, a call may fail after it took
effect, and a request may die between any two calls. With S3 the archive is written before the ledger
row (*archive-first*); with the filesystem the row comes first (*ledger-first*).

## How it is modelled

* **The code.** `S3.dfy`, `Filesystem.dfy`, `Gorm.dfy`, `Service.dfy`, `Controller.dfy`, `Bus.dfy` and
  the canonical map in `Events.dfy` are classes and methods in the form of the Go code: the same calls
  in the same order, the same early returns and loops. Every store call draws a `Fault` from an
  `Oracle`, which records it.
* **The machine.** `Storage.dfy` and `Machine.dfy` give the same protocol as a transition system with
  one program counter per request and one store call per step. Each service method ensures that it is
  exactly a walk of that machine under the faults it drew (`Ran`), so theorems about walks are about
  the methods. `System.dfy` runs any number of requests and retention runs in any interleaving, with
  any faults, deaths and restarts.
* **The theorems.** `ArchiveFirst`, `LedgerFirst`, `Agreement`, `Guards`, `Acknowledged`, `Lasting`,
  `Deletions`, `Contents` and `Window` are about all interleavings; `Sequential`, `Repair`, `Retention` and
  `Batch` about whole sequential histories with faults and crashes at any point; `Answers` and `Statuses`
  about what each answer says of the stores that a request met, and which failed call a refusal owns up
  to; `Replay` about pages and about a consumer over a ledger that changes under it; `Witness` shows, by
  short runs of well-formed requests from empty stores (`Reachable`), where each guarantee ends. A
  guarantee that fails so is stated with its exact condition: `Guards.GuardStaysExactly`, `Acknowledged.StoredStaysExactly`, `Lasting.StoredStaysExactly`,
  `Agreement.LedgerFirstAgreesExactly`, `Lasting.AnswersAreRightExactly`, `Window.SlidesExactly`,
  `Replay.RefusedExactly`, `Replay.MissedMeansNotStored`, `Witness.RowsUntouchedExactly`.
* **The values.** A raw text is the canonical JSON object it prints, a map from envelope fields to
  JSON values; `Keys`, `Times` and `Cursors` work on real strings. SHA-256 is an uninterpreted function.
  Where a theorem needs equal hashes to mean equal texts it says so (`CollisionFree`). No hash is free of
  collisions on all texts, so `Arriving` restates the main theorems for a service in which only the
  texts that arrive in the run do not collide, and `Keys.NoCollisions` derives that from
  `RequireEventHash` and a SHA-256 without collisions among them.

A finite list of faults that stops before a request is done is a crash at that point. `Works` is the
fault of a call that works.

The code and its own prose differ in two places, and the model follows the code. README.md lines 63-64
of the repository make the event hash alone decide about duplicates and speak of conflicts only when
rejection is enabled; `handleExisting` compares the payload hash too, and a conflict is a conflict either
way, `RejectHashConflicts` only choosing between an error and a result.

## Model

| member | source | states |
|---|---|---|
| ArchiveFirst.StoreStepKeeps | internal/storage/s3.go:84-133 | every PUT and GET, under any fault, leaves each object a well-formed text at a key of its own with its guard beside it, and replaces nothing |
| ArchiveFirst.IngestStepKeeps | internal/ingest/service.go:93-271 | every store call of an archive-first ingest keeps that, keeps every row's text archived, and earns its next program point |
| ArchiveFirst.RetainStepKeeps | internal/ingest/retention.go:24-62 | so does every store call of a retention run, and it never touches the archive |
| ArchiveFirst.RunKeeps | internal/ingest/service.go:93-271 | the invariant holds after any interleaving of requests, retention runs, faults and deaths, and the archive only grows |
| ArchiveFirst.OneContent | internal/storage/s3.go:84-90 | all objects of one event id have one content, and there is at most one final key |
| ArchiveFirst.Safety | internal/ingest/service.go:185-215 | between any two moments of any archive-first run: the same content for an event id under any of its keys, and every row, even `received`, has its text archived |
| LedgerFirst.StoreStepKeeps | internal/storage/filesystem.go:57-133 | while the row is the claim, no disk write of a claimant meets a conflict, and what it writes, rolls back or leaves is the claimed text |
| LedgerFirst.LedgerStepKeeps | internal/ledger/gorm.go:163-236 | every ledger call keeps rows faithful and every claim's text in place |
| LedgerFirst.RunKeeps | internal/ingest/service.go:103-123 | both, after any interleaving without retention |
| LedgerFirst.Safety | internal/ledger/gorm.go:191-202 | between any two moments of such a run the claiming row keeps its text, and every object archived for its event id is that text |
| Agreement.StoreStepKeeps | internal/storage/filesystem.go:57-133 | whatever the disk holds already, a written final is the writer's text and no final is ever removed or replaced |
| Agreement.RunKeeps | internal/ledger/gorm.go:205-217 | ledger-first, any interleaving in which no retention run is under way while an ingest is: rows stay faithful and every URI points at the row's text |
| Agreement.ArchiveFirstAgrees | internal/ingest/service.go:185-215 | archive-first, any interleaving: each stored row has the URI of its own key, and its text is there |
| Agreement.LedgerFirstAgrees | internal/ingest/service.go:217-271 | ledger-first, as long as retention never overlaps ingest: the same |
| Agreement.MarkAgreesExactly | internal/ledger/gorm.go:205-217 | a mark keeps the agreement exactly if the event id has no row or its row has the marking request's text |
| Agreement.LedgerFirstAgreesExactly | internal/ledger/gorm.go:205-217 | any ledger-first run, overlaps included: ledger and archive agree at every moment exactly if no mark ever hits a row with other content |
| Agreement.SequentialAgrees | internal/ingest/service.go:217-271 | either adapter, one ingest or retention run after another with any faults and crashes: the same |
| Agreement.ReplayedIsArchived | internal/ledger/gorm.go:260-268 | every event that replay gives out is an archived text under its URI |
| Window.IngestSlides | internal/ledger/gorm.go:163-236 | no store call of an ingest deletes a row or moves the watermark |
| Window.RetainSlides | internal/ingest/retention.go:24-62 | a retention run that is the only one keeps what it has confirmed above the watermark until it commits |
| Window.CommitSlidesExactly | internal/ledger/gorm.go:358-368 | a commit deletes only below the new watermark and does not lower it exactly if its last id is not below the present one |
| Window.SlidesExactly | internal/ledger/gorm.go:303-317 | in any run whatever, every event slides the window exactly if every retention commit raises the watermark |
| Window.RunSlides | internal/ingest/retention.go:24-62 | and then, between any two moments, rows go only below the watermark, which only rises, and ids do not come back |
| Window.AloneCommitsRaise | internal/ingest/retention.go:24-62 | retention runs that do not overlap each other always commit that way |
| Window.EveryDeletionRaises | internal/ledger/gorm.go:303-317 | any single event of a run without overlapping retention: a row that goes is covered by a watermark that has strictly risen |
| Window.NothingDeletedAbove | internal/ingest/service.go:80-88 | when every commit raises the watermark, a request accepted with cursor c has no row above c missing that was there at any earlier moment |
| Window.NoSilentGap | internal/ingest/service.go:74-91 | any interleaving in which every commit raises the watermark, with calls between any two store calls: a row that was ever in the ledger and that the cursor has gone past was still there for the call that passed it, unless inserted after it, and was given out exactly if stored and matching then |
| Window.GoneBetweenTheReads | internal/ingest/service.go:76-90 | with anything at all between floor check and page: a row above the cursor is gone for the page only if the whole request made by then would be refused |
| Deletions.RunKeeps | internal/ingest/retention.go:24-62 | any adapter, any interleaving: whatever the ids that a retention run has confirmed stand for is archived |
| Deletions.DeletedIsArchived | internal/ingest/retention.go:35-62 | in any run whatever, overlapping retention included: a row that an event deletes was stored, and its exact text is under its own event's key, then and for good |
| Contents.RunKeeps | internal/ledger/gorm.go:163-203 | in any run: each row repeats the verified request that its text decodes to, whatever its status and URI, and each object is the text of a verified request |
| Contents.ArchiveIsAttested | internal/ingest/service.go:126-146 | after any run of the service every archived object is the canonical text of an event whose required hashes are right, SHA-256 of payload and of event written out |
| Contents.RowsAreEvents | internal/ledger/gorm.go:163-188 | and every row is that of such an event, hashes and filter columns field by field |
| Contents.SelectsByFields | internal/ledger/gorm.go:343-356 | the query selects a row exactly if it is stored, above the cursor, and every filter given equals that field of its event |
| Contents.PagesFilterByFields | internal/ledger/gorm.go:238-269 | after any run of the service, with or without a cursor: a page is exactly the stored events above the cursor whose own fields match, up to where the consumer goes on |
| Guards.RunKeeps | internal/storage/filesystem.go:57-72 | any adapter, any interleaving: at most one request per event id can still take a guard back, and that guard is there with its content |
| Guards.EventSpares | internal/storage/filesystem.go:129-133 | while none can, no event whatever removes or replaces the guard, or makes a request able to |
| Guards.OwnerStrikes | internal/storage/filesystem.go:64-70 | a request that created the guard and has no final yet can still fail and take it back |
| Guards.GuardStaysExactly | internal/storage/filesystem.go:57-133 | after any run: a guard stays with its content through whatever may follow exactly if no request of its event id stands between having created it and having its final, or in the rollback |
| Guards.OwnerHolds | internal/storage/filesystem.go:129-133 | what such a request can take back is its own content |
| Sequential.RollbackExactly | internal/storage/filesystem.go:129-133 | one removal of a guard leaves the archive consistent exactly if its event id has no final at that moment |
| Sequential.StoreStepKeeps | internal/storage/filesystem.go:57-133 | every disk or S3 call, rollback included, keeps "a final has a guard with equal content" |
| Sequential.StepKeeps | internal/ingest/service.go:93-271 | every store call of an ingest or retention run keeps the stores consistent, and only lets them evolve: stored rows stay or are covered by the watermark, ids are not reused, finals stay |
| Sequential.PlayKeeps | internal/ingest/service.go:93-271 | the same for whole histories with faults and crashes anywhere |
| Sequential.OneFinal | internal/storage/filesystem.go:57-72 | after any history a final has its guard with equal content, and conflicting content never makes a second final path |
| Sequential.AcknowledgedIsStored | internal/ingest/service.go:171-182 | a `stored` or `duplicate` answer means: the row is stored under the event's own URI and guard and final hold its text |
| Sequential.Durability | internal/ingest/service.go:256-271 | after such an answer and any later history, the bytes are still archived, and the row is as it was or deleted with the watermark at or above its cursor |
| Acknowledged.RunBacks | internal/ingest/service.go:93-271 | archive-first, at every moment of any interleaving: a request about to answer, or having answered, `stored` or `duplicate` has its bytes under guard and final |
| Acknowledged.AcknowledgedIsArchived | internal/ingest/service.go:171-214 | archive-first under any interleaving: a request answered `stored` or `duplicate` has its bytes archived then and at every later moment |
| Acknowledged.AnswersHold | internal/ingest/service.go:153-271 | archive-first under any interleaving: an answer has the request's event id; a URI with `stored` or `duplicate` is its own with its bytes there, one with a conflict holds other content of that event id, now and for good |
| Acknowledged.EventSpares | internal/ledger/gorm.go:205-227 | while no request of its event id is on its way to MarkFailed, any event leaves a stored row as it is and brings no request onto that way, or retention takes the row |
| Acknowledged.ThreatStrikes | internal/ingest/service.go:249-253 | a request that is on its way there can still turn the stored row to `failed` |
| Acknowledged.StoredStaysExactly | internal/ingest/service.go:229-254 | archive-first, after any run: a stored row stays as it is until retention takes it, through whatever may follow, exactly if no request of its event id is on its way to MarkFailed |
| Lasting.RunKeepsFinals | internal/storage/filesystem.go:57-133 | nothing that may happen removes or replaces a final |
| Lasting.AcknowledgedIsArchived | internal/ingest/service.go:171-227 | ledger-first under any interleaving in which no mark has hit other content: a request answered `stored` or `duplicate` has its bytes in its final then and at every later moment, whatever follows |
| Lasting.AnswersHold | internal/ingest/service.go:153-271 | likewise: accepted bytes are in the final, and a URI given with a conflict holds other content of the event id, now and for good |
| Lasting.MarksMeetWithoutRetention | internal/ledger/gorm.go:205-217 | without retention no mark ever hits other content |
| Lasting.MarksMeetApart | internal/ledger/gorm.go:205-217 | nor as long as retention and ingest do not overlap |
| Lasting.AnswersAreRightExactly | internal/ingest/service.go:171-180 | any ledger-first run, overlaps included: at every moment a fault-free request that is answered `stored` or `duplicate` is told a URI where its bytes are, exactly if no mark in the run hits other content |
| Lasting.EventSpares | internal/ledger/gorm.go:205-227 | ledger-first, while no request of its event id is on a way to change it, any event leaves a stored row as it is and brings no request onto such a way, or retention takes the row |
| Lasting.ThreatStrikes | internal/ingest/service.go:114-123 | a request on such a way, be it only about to insert, can still change the stored row |
| Lasting.StoredStaysExactly | internal/ingest/service.go:103-123 | ledger-first, after any run: a stored row stays as it is until retention takes it, through whatever may follow, exactly if no request of its event id is on a way to mark it anew or failed; after its INSERT a request with the row's event hash is on one, because it writes without a look at the status |
| Repair.FinishIsWalk | internal/ingest/service.go:93-124 | the fault-free ingest of the repair theorems is the machine's own walk when every call works, and ends within a bounded number of calls |
| Repair.FinishFree | internal/ingest/service.go:171-271 | whatever was half done for an unclaimed or rightly claimed event id, one fault-free ingest ends `stored`, or `duplicate` exactly if the row was stored, and settles row and archive |
| Repair.ArchiveFirstRepair | internal/ingest/service.go:153-254 | archive-first, after any run at all: accepted exactly when no other content has claimed the event id, otherwise a conflict that leaves rows and archive alone |
| Repair.LedgerFirstRepair | internal/ingest/service.go:153-254 | ledger-first, after any run without retention: the same |
| Repair.SequentialRepair | internal/ingest/service.go:93-254 | either adapter, after any sequential history, retention included: the same, save that a ledger-first conflict over an event id without a row leaves a `received` row |
| Repair.ReceivedBeforeRejected | internal/ingest/service.go:114-123 | that row: other content is rejected by the guard only after it was inserted |
| Repair.RetryMeetsNoConflict | internal/storage/s3.go:111-117 | archive-first, a verified retry with the row's event hash never gets a storage conflict |
| Answers.WalkSays | internal/ingest/service.go:93-271 | an ingest alone, under any faults, from any stores: `stored` means the row was not against it and not stored, `duplicate` that it was stored with these hashes, a conflict that other content was there first, in the row or at its keys; a conflict names the row's URI if it lost to the row and none if it lost in the archive; a ledger error is the answer exactly if a statement it needed failed, a storage error only if an archive call did |
| Answers.OneAttempt | internal/ledger/gorm.go:229-236 | and the attempt table gains that outcome's attempt, once, or nothing; surely the one if every call worked; nothing after a failed hash check or lookup |
| Answers.FinishSays | internal/ingest/service.go:153-271 | the fault-free ingest: the same, and no failure is its answer |
| Answers.StoredIsWritten | internal/storage/filesystem.go:57-72 | `stored` only if the last archive call worked, the naming of the file included |
| Answers.RaceAnswers | internal/ingest/service.go:195-214 | archive-first, when another request has inserted the row meanwhile: a conflict by its hashes, a duplicate exactly if it is stored already |
| Answers.RaceAnswersOnDisk | internal/ingest/service.go:114-123 | ledger-first the event hash alone decides then, and the row is marked again |
| Answers.AnswerAfterHistory | internal/ingest/service.go:153-254 | after any sequential history: what the answer says, and that a URI given with a conflict holds the row's bytes |
| Retention.RetainWalk | internal/ingest/retention.go:24-62 | where a run alone can be after any faults, and what it has done by then |
| Retention.RetainFinishes | internal/ingest/retention.go:24-62 | left alone with working stores a run comes to its end within a bounded number of calls |
| Retention.FaultFreeRun | internal/ingest/retention.go:33-62 | without faults a run ends and has deleted exactly the longest archive-confirmed prefix of its candidates, with deleted = confirmed and skipped at most 1 |
| Retention.AnyRun | internal/ingest/retention.go:24-62 | with faults or a crash it leaves the stores alone or commits some confirmed prefix |
| Retention.AtMostLimit | internal/ingest/retention.go:20-62 | under any faults a run deletes at most `limit` rows, at most 1000 if that is not positive, and a result reports exactly what was done, with a row skipped unless range or limit was reached |
| Retention.TakesExactly | internal/ingest/retention.go:30-53 | without faults it takes the confirmed front of the whole range, exactly as far as the limit allows |
| Retention.ErrorsExactly | internal/ingest/retention.go:24-62 | it ends in an error exactly if one of its two reads or its commit failed; an archive that cannot be asked only ends the front |
| Retention.DeletesExactly | internal/ledger/gorm.go:290-297 | deleting stored rows by their ids takes exactly those rows |
| Retention.CommittedMeans | internal/ledger/gorm.go:303-317 | a commit strictly raises the watermark, to the last deleted id, and the rows gone are exactly the stored ones between the two |
| Retention.ConfirmedPrefix | internal/ingest/retention.go:35-53 | the loop's cut: everything before it is confirmed, what stands at it is not |
| Retention.DrainStepIsRun | internal/ingest/retention.go:11-63 | when every row of the range is archived, one fault-free run, to its end, takes all its candidates |
| Retention.RunsDrainRange | internal/ingest/retention.go:11-63 | then finitely many such runs of the service, at most one per row, leave no stored row of the range and take nothing else |
| Ledger.TakeIsFront | internal/ledger/gorm.go:271-275 | what a limit leaves of a list is its front: all of it, or exactly `limit` rows, or 1000 if that is not positive |
| Ledger.Find | internal/ledger/gorm.go:150-161 | the row of an event id, or the certainty that there is none |
| Ledger.Delete | internal/ledger/gorm.go:295 | what stays is exactly what is not stored or not among the ids |
| Ledger.StoredBetween | internal/ledger/gorm.go:275-281 | the candidates are exactly the stored rows above the floor and up to the bound |
| LedgerFacts.CreateKeepsTables | internal/ledger/gorm.go:191 | INSERT .. ON CONFLICT DO NOTHING keeps event ids unique and ids ascending and unused |
| LedgerFacts.UpdatesChangeOne | internal/ledger/gorm.go:213-223 | an UPDATE by event id changes that one row, into this, and no other |
| LedgerFacts.RetainKeepsTables | internal/ledger/gorm.go:308-315 | the retention transaction keeps the tables in order |
| Replay.Select | internal/ledger/gorm.go:343-356 | the rows a query selects are exactly the stored ones above the cursor that match every filter |
| Replay.NextPage | internal/ledger/gorm.go:244-258 | a page is never longer than its limit; it and what lies above its next cursor make up the selection, and there is a cursor exactly when something does |
| Replay.PagesAreTheFilter | internal/ledger/gorm.go:238-269 | following next cursors under any limits ends, and the pages concatenate to the plain filter: ascending, each row once |
| Replay.PageCovers | internal/ledger/gorm.go:250-268 | a page holds exactly the selected rows up to the cursor a consumer goes on from |
| Replay.DeliveredAscends | internal/ledger/gorm.go:244-258 | over a changing ledger a consumer's cursors rise strictly and no row comes twice |
| Replay.MissedMeansNotStored | internal/ledger/gorm.go:238-269 | a consumer was given a row it has passed exactly if that row was stored and matched when it was passed |
| Replay.PassedIsGiven | internal/ingest/service.go:74-91 | a row stored and matching at any earlier moment, seen by a call or not, is given out by the call that passes its id |
| Replay.NoSilentGap | internal/ingest/service.go:74-91 | in any sequential history, with calls between its jobs: a row that was ever stored and matching and that the cursor has gone past was given out, unless it was stored only after the call that passed it |
| Replay.BetweenTheReads | internal/ingest/service.go:76-90 | with runs between floor check and page, a selected row is missed only if it was deleted in between, and then the whole request made afterwards is refused |
| Replay.RefusedExactly | internal/ingest/service.go:76-89 | in any sequential history: a request accepted once and made again later, whole, is refused then exactly if a row above its cursor that was stored at some moment in between is gone |
| Batch.ItemOfBatch | internal/api/controller/controller.go:126-147 | a batch is its items, each ingested from where the one before it ended |
| Batch.OneResultPerItem | internal/api/controller/controller.go:125-148 | exactly one result per item |
| Batch.NeverStoredAgain | internal/ingest/service.go:171-180 | an item whose event id is stored is never reported stored again, under any faults |
| Batch.AtMostOneStored | internal/api/controller/controller.go:126-147 | under any faults no two items of one event id are both `stored` |
| Batch.AfterAccepted | internal/ingest/service.go:153-183 | after an accepted item, a later verified item of its event id is `duplicate` when equal and `hash_conflict` when different, whichever way conflicts are reported; `failed` only if a call of its own failed |
| Batch.ServiceItemsOk | internal/api/controller/controller.go:127-131 | every item that decodes makes a well-formed request |
| Statuses.ItemMeans | internal/api/controller/controller.go:126-147 | under any faults: `stored`, `duplicate` and `hash_conflict` say of the stores before the item what they say, and an item fails only if it does not decode, its hashes do not check, or a call of its own did not work; if one of the first two, it always does |
| Statuses.CleanItem | internal/api/controller/controller.go:126-147 | an item whose own calls work: a conflict if other content has its event id, else `duplicate` if that is stored, else `stored` |
| Statuses.FirstItem | internal/api/controller/controller.go:126-147 | the first verified item of an event id gets what was due before the batch, whatever happened to the items before it |
| Statuses.OneStoredEach | internal/api/controller/controller.go:126-147 | an event id that nobody had claimed or stored is reported `stored` exactly once, at that item |
| Keys.SafeSegmentMeans | internal/storage/filesystem.go:164-171 | a segment is nonempty, within the safe alphabet, bare of dots and underscores at its ends, and unchanged exactly if it was so already; hence idempotent |
| Keys.SquashRun | internal/storage/filesystem.go:164-165 | a run of unsafe characters after safe ones becomes one underscore, and the rest likewise |
| Keys.JoinedByUnderscore | internal/storage/filesystem.go:164-171 | sound parts with unsafe characters between them are joined by one underscore |
| Keys.UuidIsSound | internal/storage/filesystem.go:147-152 | UUID text is its own segment |
| Keys.NormalizedPrefixMeans | internal/storage/s3.go:197-203 | a prefix is never empty and neither starts nor ends with a slash |
| Keys.PrefixOf | internal/storage/s3.go:197-203 | slashes around a prefix do not count, and an empty one is `raw` |
| Keys.PathOf | internal/storage/filesystem.go:147-162 | the paths of guard and final, segment by segment |
| Keys.RenderInjective | internal/storage/s3.go:179-195 | different keys have different paths: archive keys of different event ids never collide, and no guard path is an archive path |
| Keys.EnvelopeKeys | internal/storage/filesystem.go:147-162 | a valid envelope's keys are proper and carry its event id |
| Keys.RequestRoundTrip | internal/ingest/retention.go:40-45 | decoding a row's text gives the request back, so retention checks the key that ingest wrote, with the date in the event's own offset |
| Keys.HashAndRest | internal/events/envelope.go:144-148 | the hash and the event without it determine the event |
| Keys.NoCollisions | internal/ingest/service.go:136-144 | with event hashes required and no SHA-256 collision among some texts, equal event hashes of verified ones mean equal texts |
| Events.AddStringPtr | internal/events/envelope.go:192-196 | the map gains exactly the entry the envelope has for that field |
| Events.RequiredEntries | internal/events/envelope.go:162-171 | the entries every event has |
| Events.AddProducerAndTimes | internal/events/envelope.go:172-177 | the map covers four more fields |
| Events.AddObservedAt | internal/events/envelope.go:174-176 | and observed_at |
| Events.AddReferences | internal/events/envelope.go:178-183 | and the six references |
| Events.AddActor | internal/events/envelope.go:184-188 | and the actor, with or without its id |
| Events.CanonicalEventMap | internal/events/envelope.go:161-190 | entry by entry, the map of exactly the fields the envelope has, each with its value |
| Events.CanonicalEventWithoutEventHash | internal/events/envelope.go:144-148 | the same map without the event hash |
| Events.EnvelopeRoundTrip | internal/events/envelope.go:83-89 | strict decoding and validation undo the canonical form, for every combination of absent and present fields |
| Events.CanonicalInjective | internal/events/envelope.go:150-190 | different envelopes have different canonical forms |
| Events.Validate | internal/events/envelope_validation.go:14-88 | rule after rule in the source's order: passes exactly if the envelope is valid |
| Events.DecodesExactly | internal/events/envelope.go:83-89 | strict decoding, both ways: a text decodes to an event if and only if the event is valid and the text spells it field by field, with no unknown field, nothing of another type, and null for absence only |
| Times.TimeRoundTrip | internal/events/envelope.go:198-200 | a printed RFC 3339 timestamp, with fraction and offset, reads back as itself |
| Times.PrintedForm | internal/events/envelope.go:198-200 | the printed form: year, month and day in this order, a fraction without trailing zeros, `Z` exactly for UTC |
| Times.ReadsAnySpelling | internal/events/envelope.go:83-89 | any fraction and any numeric offset are read, digits after the ninth being cut |
| Times.ReadsWithoutFraction | internal/events/envelope.go:83-89 | and none, `+00:00` included |
| Cursors.CursorRoundTrip | internal/events/replay.go:18-35 | a printed cursor, however padded with spaces, reads back as itself |
| Cursors.DigitsInRange | internal/events/replay.go:23-30 | a string of digits is accepted exactly when its value is an int64, and then for that value |
| Cursors.OnlyNumerals | internal/events/replay.go:18-31 | nothing else is a cursor but an explicitly positive numeral in range or minus zero |
| Cursors.CursorErrors | internal/events/replay.go:18-31 | a blank cursor is missing, a negative number that fits is negative, and anything else refused is no integer |
| Cursors.NormalizeReplayLimit | internal/events/replay.go:70-72 | the ledger's own check: 0 to 1000, and 0 stands for 100 |
| Cursors.NormalizeReplayLimitWithBounds | internal/events/replay.go:74-91 | accepted exactly when the bounds are good and the limit lies in 0 to the maximum; the result is the limit, or the default for 0 |
| Cursors.LimitSettles | internal/events/replay.go:53-91 | an accepted limit is accepted again as it is, and by the ledger's own check exactly when it is at most 1000 |
| Cursors.QueryMeans | internal/events/replay.go:53-68 | a query is accepted exactly when its limit is and its cursor is blank or a cursor; it starts there, and with bounds up to 1000 its limit passes the ledger's check unchanged |
| Cursors.NextQuery | internal/events/replay.go:33-68 | a printed next cursor, however padded, asks for what lies above it |
| S3Adapter.S3.WriteRawEvent | internal/storage/s3.go:84-90 | guard then final, exactly the machine's walk under the faults drawn |
| S3Adapter.S3.WriteObjectAtKey | internal/storage/s3.go:92-118 | one conditional PUT, and a GET if the object is there, as a walk |
| S3Adapter.S3.ConfirmRawEventAtKey | internal/storage/s3.go:124-133 | confirmed exactly if the call worked and the object holds this text |
| FilesystemAdapter.Filesystem.WriteRawEvent | internal/storage/filesystem.go:57-72 | guard, final, and the rollback of a guard created here, as a walk |
| FilesystemAdapter.Filesystem.ConfirmExistingFile | internal/storage/filesystem.go:118-127 | same, different, missing or unreadable, exactly |
| FilesystemAdapter.Filesystem.WriteFileIfAbsent | internal/storage/filesystem.go:74-116 | read, then link a finished file, then read again if the link found the path occupied, as a walk; says whether the file was created here |
| FilesystemAdapter.Filesystem.RemoveFileIfContentMatches | internal/storage/filesystem.go:129-133 | the rollback as a walk: a guard goes only if it holds this content |
| FilesystemAdapter.Filesystem.ConfirmRawEvent | internal/storage/filesystem.go:135-145 | confirmed exactly if the read worked and the file holds this text |
| GormLedger.Gorm.constructor | internal/ledger/gorm.go:127-129 | empty tables |
| GormLedger.Gorm.GetEvent | internal/ledger/gorm.go:150-161 | the row of the event id, if any |
| GormLedger.Gorm.RequireEvent | internal/ledger/gorm.go:332-341 | the row, or an error if there is none |
| GormLedger.Gorm.InsertReceived | internal/ledger/gorm.go:163-203 | the new tables, and whichever row the event id then has |
| GormLedger.Gorm.MarkStored | internal/ledger/gorm.go:205-217 | the new tables and the row read back |
| GormLedger.Gorm.MarkFailed | internal/ledger/gorm.go:219-227 | the new tables and the row read back |
| GormLedger.Gorm.RecordAttempt | internal/ledger/gorm.go:229-236 | one attempt more, nothing else |
| GormLedger.Gorm.GetReplayWatermark | internal/ledger/gorm.go:319-330 | the watermark, if any |
| GormLedger.Gorm.RetentionCandidates | internal/ledger/gorm.go:271-288 | the front of the candidates in id order: all of them, or exactly `limit`, or 1000 if that is not positive |
| GormLedger.Gorm.DeleteStoredEvents | internal/ledger/gorm.go:290-297 | the rows left by the DELETE, in order |
| GormLedger.Gorm.RetainStoredEvents | internal/ledger/gorm.go:303-317 | watermark and rows change together or not at all, and the count is that of rows gone |
| GormLedger.Gorm.ReplayEvents | internal/ledger/gorm.go:238-269 | the limit check, and the page with its probe for more |
| GormLedger.Gorm.SelectSome | internal/ledger/gorm.go:343-356 | the first selected rows in id order |
| IngestService.Service.constructor | internal/ingest/service.go:50-52 | a service over one ledger and one adapter, reading texts by its own hashing |
| IngestService.Service.Ingest | internal/ingest/service.go:93-124 | exactly a walk of the machine from the envelope's request to the outcome returned, under the faults drawn; refused for its hashes exactly if a required one is wrong, and then nothing is called; a reported conflict has the envelope's event id and the URI of the row with other hashes, or none |
| IngestService.Service.ValidateHashes | internal/ingest/service.go:126-146 | valid exactly if every required hash is the SHA-256 of the payload, or of the event without its hash |
| IngestService.Service.FormRequest | internal/ingest/service.go:94-101 | hashes, canonical text and key of an envelope, and its filter columns field by field |
| IngestService.Service.IngestRequest | internal/ingest/service.go:103-123 | the walk from the verdict on the hashes on |
| IngestService.Service.InsertAndStore | internal/ingest/service.go:114-123 | ledger-first, the claim of an event id without a row, and what follows, as a walk |
| IngestService.Service.InsertReceived | internal/ingest/service.go:114-119 | InsertReceived with its error branch, as a walk |
| IngestService.Service.HandleExisting | internal/ingest/service.go:153-183 | conflict, duplicate or another attempt to store, as a walk; the first two answered with the existing row's URI |
| IngestService.Service.StoreInsertAndMark | internal/ingest/service.go:185-215 | the archive-first path as a walk |
| IngestService.Service.StoreAndMark | internal/ingest/service.go:217-227 | archive and mark as a walk |
| IngestService.Service.WriteRawEvent | internal/ingest/service.go:229-254 | the adapter's write with its error branches, as a walk |
| IngestService.Service.ReportWriteError | internal/ingest/service.go:235-253 | conflict or failure, the attempt, and MarkFailed, as a walk |
| IngestService.Service.MarkStored | internal/ingest/service.go:256-271 | MarkStored and its attempt as a walk |
| IngestService.Service.CheckFloor | internal/ingest/service.go:75-89 | refused exactly if the watermark is above the cursor asked for, or the read failed |
| IngestService.Service.ReplayEvents | internal/ingest/service.go:74-91 | a page given out is exact, a window refusal tells the true floor, and any other error a call that failed or a bad limit |
| IngestService.Service.RetainHotEvents | internal/ingest/retention.go:11-63 | exactly a walk of the machine from the floor read to the result returned; at most `limit` rows go, or 1000, and the result reports them |
| IngestService.Service.ConfirmCandidates | internal/ingest/retention.go:35-53 | the loop, stopping at the first candidate that does not decode or is not archived |
| IngestService.Service.ConfirmNext | internal/ingest/retention.go:45-52 | one candidate asked for in the archive |
| IngestService.Service.ConfirmRawEvent | internal/ingest/retention.go:45 | confirmed exactly if the call worked and the object holds the text |
| IngestService.Service.CommitRetention | internal/ingest/retention.go:54-62 | the commit, if anything was confirmed |
| BatchController.Controller.IngestBatch | internal/api/controller/controller.go:118-148 | the fold of its items in order, one result each, and no other store call |
| BatchController.Controller.IngestItem | internal/api/controller/controller.go:126-146 | decode, ingest, report; an item that does not decode costs no store call |
| Arriving.RunAmong | internal/ingest/retention.go:40-45 | a run decodes no text but those that arrived in it, so a service that could decode no others runs the same |
| Arriving.PlayAmong | internal/ingest/retention.go:40-45 | so does a sequential history |
| Arriving.FreeAmong | internal/ingest/service.go:136-144 | and for that service freedom from collisions is freedom from collisions among those texts |
| Arriving.LedgerFirstSafety | internal/ledger/gorm.go:191-202 | LedgerFirst.Safety if no two arriving texts collide |
| Arriving.ArchiveFirstAcknowledged | internal/ingest/service.go:171-214 | Acknowledged.AcknowledgedIsArchived if no two arriving texts collide |
| Arriving.LedgerFirstAcknowledged | internal/ingest/service.go:171-227 | Lasting.AcknowledgedIsArchived likewise |
| Arriving.ArchiveFirstAnswers | internal/ingest/service.go:153-271 | Acknowledged.AnswersHold likewise |
| Arriving.LedgerFirstAnswers | internal/ingest/service.go:153-271 | Lasting.AnswersHold likewise |
| Arriving.AnswersAreRightExactly | internal/ingest/service.go:171-180 | Lasting.AnswersAreRightExactly likewise, about requests with any texts that do not collide with those that arrive |
| Arriving.RunRepair | internal/ingest/service.go:153-254 | Repair.ArchiveFirstRepair and LedgerFirstRepair likewise |
| Arriving.LedgerFirstAgrees | internal/ingest/service.go:217-271 | Agreement.LedgerFirstAgrees likewise |
| Arriving.Durability | internal/ingest/service.go:256-271 | Sequential.Durability likewise |
| Arriving.SequentialRepair | internal/ingest/service.go:93-254 | Repair.SequentialRepair likewise |
| Arriving.SequentialAgrees | internal/ingest/service.go:217-271 | Agreement.SequentialAgrees likewise |
| Arriving.NoSilentGap | internal/ingest/service.go:74-91 | Replay.NoSilentGap likewise |
| Arriving.RefusedExactly | internal/ingest/service.go:76-89 | Replay.RefusedExactly likewise |
| Arriving.AfterAccepted | internal/ingest/service.go:153-183 | Batch.AfterAccepted, after any sequential history, likewise |
| Arriving.FirstItem | internal/api/controller/controller.go:126-147 | Statuses.FirstItem, after any sequential history, likewise |
| Machine.StepDescends | internal/ingest/service.go:93-271 | every store call brings an ingest nearer its end, so it makes boundedly many |
| Machine.WalkStore | internal/ingest/service.go:229-254 | a storage call inside an ingest is the storage call alone, and ends where the ingest goes on |
| DebugStream.LastOfIsSuffix | internal/debugstream/bus.go:65-68 | the window is the end of what was appended, as long as the bound or all of it |
| DebugStream.WindowSlides | internal/debugstream/bus.go:65-68 | cutting after each append keeps exactly the last lines of everything appended |
| DebugStream.SubsequenceIsShorter | internal/debugstream/bus.go:75-80 | a subsequence of full length is the whole: nothing dropped means nothing missing |
| DebugStream.SubsequenceKeepsOrder | internal/debugstream/bus.go:75-80 | lines received in an order were sent in that order |
| DebugStream.Channel.TrySend | internal/debugstream/bus.go:75-80 | a line is queued, or dropped exactly if the queue is full; order is kept and drops are counted |
| DebugStream.Channel.Receive | internal/debugstream/bus.go:25-26 | the reader takes the oldest line, and nothing is lost by it |
| DebugStream.Channel.Lossless | internal/debugstream/bus.go:75-80 | as long as nothing was dropped, received and queued lines are all the lines sent |
| DebugStream.Bus.constructor | internal/debugstream/bus.go:17-23 | queue and history bounds match |
| DebugStream.Bus.Subscribe | internal/debugstream/bus.go:25-42 | a new subscriber has the whole history queued; of a closed bus it gets a closed channel |
| DebugStream.Bus.Unsubscribe | internal/debugstream/bus.go:44-51 | only a subscriber is closed, and once |
| DebugStream.Bus.Record | internal/debugstream/bus.go:59-73 | the part under the lock: history grows, and the targets are the present subscribers |
| DebugStream.Bus.SendTo | internal/debugstream/bus.go:75-80 | the part after it: one send to each target, in no particular order |
| DebugStream.Bus.RecordThenUnsubscribe | internal/debugstream/bus.go:53-81 | with another subscriber leaving in between, every send still goes to an open channel exactly if that one was no target |
| DebugStream.Bus.Publish | internal/debugstream/bus.go:53-81 | history stays the last lines since the last clear; every subscriber is sent the line once and loses it exactly if its queue is full |
| DebugStream.Bus.PublishOverlapping | internal/debugstream/bus.go:53-81 | two calls that overlap can send their lines to every subscriber in the wrong order; the bus stays in step exactly if it has no subscriber or the lines are equal |
| DebugStream.Bus.RecordThenClose | internal/debugstream/bus.go:53-115 | with the bus closed in between, every send that follows goes to a closed channel |
| DebugStream.Bus.InOrder | internal/debugstream/bus.go:75-80 | when no sends are under way, what a subscriber has received and queued is a subsequence of everything published; every whole operation keeps it so |
| DebugStream.Bus.ClearHistory | internal/debugstream/bus.go:98-102 | the window starts again; queues are untouched |
| DebugStream.Bus.Close | internal/debugstream/bus.go:104-115 | every subscriber is closed with what it has queued |
| Witness.OverlapMovesTheWatermarkBack | internal/ledger/gorm.go:358-368 | from empty stores: the upsert has no maximum, so of two overlapping retention runs the shorter moves the watermark back, and a request below a deleted row is accepted |
| Witness.GapBetweenTheReads | internal/ingest/service.go:74-91 | from empty stores: a retention run between floor check and page makes an empty page where the row just was |
| Witness.FailedAfterAcknowledged | internal/ledger/gorm.go:219-227 | from empty stores: a request dies after its INSERT, two retries race, and the row is `failed` after one of them was answered `stored` |
| Witness.StoredTooLate | internal/ledger/gorm.go:244-258 | a history from empty stores in which a row with a low id is stored after a consumer has passed it, and is never given out |
| Witness.RowsUntouchedExactly | internal/ingest/service.go:103-123 | such an ingest leaves the rows alone exactly if the event id still has a row |
| Witness.NewerRowMarked | internal/ledger/gorm.go:205-217 | from empty stores, ledger-first with retention overlapping an ingest: the mark, by event id, makes a newer row with other content stored |
| Witness.OtherContentAcknowledged | internal/ingest/service.go:171-180 | from empty stores: without required event hashes, other content with a stored event's hashes is acknowledged as a duplicate and archived nowhere |
| Witness.SharedHashes | internal/ingest/service.go:136-144 | a service that does not require event hashes forms such a pair of requests |
| Witness.GuardTakenFromUnderAnother | internal/storage/filesystem.go:64-70 | from empty stores: a rollback races another request of the same content that is answered `stored`, and its final is left without a guard |
| Witness.GuardTakenBeforeFinal | internal/storage/filesystem.go:64-70 | the other order, from empty stores: the rollback itself meets no final, because the other request is only on its way there |

## Left out

- HTTP routing, bearer auth, OpenAPI documents, debug pages, the CLI, configuration files, server start, stop and readiness probes: plumbing.
- Request bodies: size limits, the 1 to 1000 items of a batch, and the body's own JSON are not modelled; a batch is a list of raw items, and the event id that a result echoes for an item that does not decode is left out.
- SQL, GORM, the AWS SDK and OS files: each is the primitive it is used as. An INSERT takes its id and becomes visible in one step, so a ledger whose rows become visible out of id order is only modelled as far as `Witness.StoredTooLate` goes.
- Raw text: a text is the canonical object it prints, not its bytes, so the JSON encoder's number and string escapes are not modelled; nor are duplicate or differently cased object keys in a request.
- UUID spellings: an event id is the text `uuid.UUID` prints; other accepted spellings of it are not modelled.
- String lengths count characters where the code counts bytes.
- URIs: scheme, bucket and root are fixed, so a URI is its key; a key prefix is taken as a clean path.
- SHA-256 is an uninterpreted function, and freedom from collisions, among the texts that arrive, a hypothesis wherever it is needed.
- Wall-clock values, error and attempt messages, `last_error`, S3 metadata, encryption options and timeouts.
- FilesystemAdapter.Filesystem.WriteFileIfAbsent: runs alone, so the read after an occupied link finds the file gone again; finding another writer's file there is in the machine only, where other requests write in between.
- DebugStream.Bus.Publish: runs its two parts with nothing in between; `PublishOverlapping`, `RecordThenUnsubscribe` and `RecordThenClose` are about what may fall there, one other call each.
- IngestService.Service.ReplayEvents: runs alone, so nothing falls between its two reads; `Replay.BetweenTheReads` and `Window.GoneBetweenTheReads` are about what does.
- Batch results carry event id and status; the event id a failed item is reported under when it does not decode is not modelled.
- `SetReplayWatermark` on its own has no caller in the service; `DeleteStoredEvents` is modelled only inside the retention transaction.
- Fairness: a crashed or refused request is repaired by the next ingest of its event, and nothing is said about when that comes.
