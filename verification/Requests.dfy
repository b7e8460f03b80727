/** What ingest derives from an envelope before its first store call, and where the bytes go. */
module Requests {
  import opened Wrappers
  import opened Events

  type EventId = string

  /** An object key, as the safe path segments it is joined from (Keys renders and parses it). */
  datatype Key =
    | GuardKey(eventId: EventId)
    | FinalKey(service: string, date: string, name: string, eventId: EventId)

  /** The storage URI of a key: scheme and bucket or root are fixed, so only the key varies. */
  datatype Uri = Uri(key: Key)

  /** The ledger columns that replay can filter on. */
  datatype Columns = Columns(
    producerService: string,
    eventName: string,
    subjectType: Option<string>,
    subjectId: Option<string>,
    aggregateType: Option<string>,
    aggregateId: Option<string>,
    correlationId: Option<string>)

  /** `verified` says whether the configured hash checks passed. */
  datatype Request = Request(
    eventId: EventId,
    columns: Columns,
    payloadHash: Hash,
    eventHash: Hash,
    text: Text,
    finalKey: Key,
    verified: bool)
}
