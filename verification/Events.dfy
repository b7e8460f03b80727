/**
 The event envelope, its canonical form, and the hashes over it.

 A raw text is represented by the canonical JSON object it prints: a map from recognised fields to
 JSON values. Two texts are equal exactly when these maps are.
 */
module Events {
  import opened Wrappers
  import opened TextFunctions
  import opened Times

  type Hash = string

  datatype Json =
    | JNull
    | JBool(b: bool)
    | JNumber(digits: string)
    | JString(s: string)
    | JArray(items: seq<Json>)
    | JObject(fields: map<string, Json>)

  /** The object keys an envelope may have. */
  datatype Field =
    | EventIdF | EventNameF | EventVersionF | ProducerServiceF | ProducerInstanceF | ProducerDeploymentF
    | OccurredAtF | ObservedAtF | PartitionIdF | SubjectTypeF | SubjectIdF | AggregateTypeF | AggregateIdF
    | CorrelationIdF | CausationIdF | ActorF | PayloadHashF | EventHashF | PayloadF
    | UnknownF(name: string)

  type Text = map<Field, Json>

  type Payload = map<string, Json>

  datatype Actor = Actor(kind: string, id: Option<string>)

  datatype Envelope = Envelope(
    eventId: string,
    eventName: string,
    eventVersion: string,
    producerService: string,
    producerInstance: Option<string>,
    producerDeployment: Option<string>,
    occurredAt: Time,
    observedAt: Option<Time>,
    partitionId: Option<string>,
    subjectType: Option<string>,
    subjectId: Option<string>,
    aggregateType: Option<string>,
    aggregateId: Option<string>,
    correlationId: Option<string>,
    causationId: Option<string>,
    actor: Option<Actor>,
    payloadHash: Hash,
    eventHash: Hash,
    payload: Payload)

  /* ---------- Validation ---------- */

  predicate IsHex(c: char) {
    '0' <= c <= '9' || 'a' <= c <= 'f'
  }

  /** The text of a UUID as uuid.UUID prints it. */
  predicate IsUuid(s: string) {
    |s| == 36 && forall i | 0 <= i < 36 :: if i in {8, 13, 18, 23} then s[i] == '-' else IsHex(s[i])
  }

  const NIL_UUID := "00000000-0000-0000-0000-000000000000"

  predicate IsSha256(s: string) {
    |s| == 64 && forall i | 0 <= i < 64 :: IsHex(s[i])
  }

  predicate Length(s: string, least: nat, most: nat) {
    least <= |s| <= most
  }

  predicate OptionalLength(s: Option<string>, most: nat) {
    s.Some? ==> |s.value| <= most
  }

  predicate NoSeparators(s: string) {
    '/' !in s && '\\' !in s
  }

  predicate NoTraversal(s: string) {
    forall i | 0 <= i < |s| - 1 :: !(s[i] == '.' && s[i + 1] == '.')
  }

  predicate Valid(e: Envelope) {
    && IsUuid(e.eventId) && e.eventId != NIL_UUID
    && Length(e.eventName, 1, 256) && NoSeparators(e.eventName)
    && Length(e.eventVersion, 1, 32)
    && Length(e.producerService, 1, 128) && NoSeparators(e.producerService) && NoTraversal(TrimSpace(e.producerService))
    && OptionalLength(e.producerInstance, 256) && OptionalLength(e.producerDeployment, 128)
    && ValidTime(e.occurredAt) && !IsZero(e.occurredAt)
    && (e.observedAt.Some? ==> ValidTime(e.observedAt.value))
    && OptionalLength(e.partitionId, 256)
    && OptionalLength(e.subjectType, 128) && OptionalLength(e.subjectId, 256)
    && OptionalLength(e.aggregateType, 128) && OptionalLength(e.aggregateId, 256)
    && OptionalLength(e.correlationId, 256) && OptionalLength(e.causationId, 256)
    && (e.actor.Some? ==> Length(e.actor.value.kind, 1, 64) && OptionalLength(e.actor.value.id, 256))
    && IsSha256(e.payloadHash) && IsSha256(e.eventHash)
  }

  /** What Go's types of an id and of a time guarantee before `Validate` looks at an envelope. */
  predicate Typed(e: Envelope) {
    IsUuid(e.eventId) && ValidTime(e.occurredAt) && (e.observedAt.Some? ==> ValidTime(e.observedAt.value))
  }

  method ValidateString(value: string, least: nat, most: nat) returns (ok: bool)
    ensures ok <==> least <= |value| <= most
  {
    if |value| < least {
      return false;
    }
    return |value| <= most;
  }

  method ValidateOptionalString(value: Option<string>, most: nat) returns (ok: bool)
    ensures ok <==> value.None? || |value.value| <= most
  {
    if value.None? {
      return true;
    }
    return |value.value| <= most;
  }

  /** The required fields: the first that breaks its rule, if any does. */
  method ValidateRequired(e: Envelope) returns (broken: Option<Field>)
    requires Typed(e)
    ensures broken.None? <==>
              && e.eventId != NIL_UUID
              && Length(e.eventName, 1, 256) && NoSeparators(e.eventName) && Length(e.eventVersion, 1, 32)
              && Length(e.producerService, 1, 128) && NoSeparators(e.producerService)
              && NoTraversal(TrimSpace(e.producerService)) && !IsZero(e.occurredAt)
  {
    if e.eventId == "00000000-0000-0000-0000-000000000000" {
      return Some(EventIdF);
    }
    var ok := ValidateString(e.eventName, 1, 256);
    if !ok || '/' in e.eventName || '\\' in e.eventName {
      return Some(EventNameF);
    }
    ok := ValidateString(e.eventVersion, 1, 32);
    if !ok {
      return Some(EventVersionF);
    }
    ok := ValidateString(e.producerService, 1, 128);
    if !ok || '/' in e.producerService || '\\' in e.producerService {
      return Some(ProducerServiceF);
    }
    var trimmed := TrimSpace(e.producerService);
    if exists i | 0 <= i < |trimmed| - 1 :: trimmed[i] == '.' && trimmed[i + 1] == '.' {
      return Some(ProducerServiceF);
    }
    return if IsZero(e.occurredAt) then Some(OccurredAtF) else None;
  }

  /** The optional strings, each against its own bound. */
  method ValidateOptional(e: Envelope) returns (broken: Option<Field>)
    ensures broken.None? <==>
              && OptionalLength(e.producerInstance, 256) && OptionalLength(e.producerDeployment, 128)
              && OptionalLength(e.partitionId, 256)
              && OptionalLength(e.subjectType, 128) && OptionalLength(e.subjectId, 256)
              && OptionalLength(e.aggregateType, 128) && OptionalLength(e.aggregateId, 256)
              && OptionalLength(e.correlationId, 256) && OptionalLength(e.causationId, 256)
  {
    var ok := ValidateOptionalString(e.producerInstance, 256);
    if !ok {
      return Some(ProducerInstanceF);
    }
    ok := ValidateOptionalString(e.producerDeployment, 128);
    if !ok {
      return Some(ProducerDeploymentF);
    }
    ok := ValidateOptionalString(e.partitionId, 256);
    if !ok {
      return Some(PartitionIdF);
    }
    ok := ValidateOptionalString(e.subjectType, 128);
    if !ok {
      return Some(SubjectTypeF);
    }
    ok := ValidateOptionalString(e.subjectId, 256);
    if !ok {
      return Some(SubjectIdF);
    }
    ok := ValidateOptionalString(e.aggregateType, 128);
    if !ok {
      return Some(AggregateTypeF);
    }
    ok := ValidateOptionalString(e.aggregateId, 256);
    if !ok {
      return Some(AggregateIdF);
    }
    ok := ValidateOptionalString(e.correlationId, 256);
    if !ok {
      return Some(CorrelationIdF);
    }
    ok := ValidateOptionalString(e.causationId, 256);
    if !ok {
      return Some(CausationIdF);
    }
    return None;
  }

  /** `Validate`: an envelope passes exactly if it is valid, and otherwise some field that breaks its rule is named. */
  method Validate(e: Envelope) returns (broken: Option<Field>)
    requires Typed(e)
    ensures broken.None? <==> Valid(e)
  {
    broken := ValidateRequired(e);
    if broken.Some? {
      return;
    }
    broken := ValidateOptional(e);
    if broken.Some? {
      return;
    }
    if e.actor.Some? {
      var kindOk := ValidateString(e.actor.value.kind, 1, 64);
      var idOk := ValidateOptionalString(e.actor.value.id, 256);
      if !kindOk || !idOk {
        return Some(ActorF);
      }
    }
    if !IsSha256(e.payloadHash) {
      return Some(PayloadHashF);
    }
    return if IsSha256(e.eventHash) then None else Some(EventHashF);
  }

  /* ---------- The canonical map ---------- */

  function Optional(s: Option<string>): Option<Json> {
    if s.Some? then Some(JString(s.value)) else None
  }

  function ActorJson(a: Actor): Json {
    JObject(if a.id.Some? then map["type" := JString(a.kind), "id" := JString(a.id.value)]
            else map["type" := JString(a.kind)])
  }

  /** What the canonical event says about a field, if anything. */
  function FieldOf(e: Envelope, f: Field): Option<Json> {
    match f
    case EventIdF => Some(JString(e.eventId))
    case EventNameF => Some(JString(e.eventName))
    case EventVersionF => Some(JString(e.eventVersion))
    case ProducerServiceF => Some(JString(e.producerService))
    case ProducerInstanceF => Optional(e.producerInstance)
    case ProducerDeploymentF => Optional(e.producerDeployment)
    case OccurredAtF => Some(JString(FormatTime(e.occurredAt)))
    case ObservedAtF => if e.observedAt.Some? then Some(JString(FormatTime(e.observedAt.value))) else None
    case PartitionIdF => Optional(e.partitionId)
    case SubjectTypeF => Optional(e.subjectType)
    case SubjectIdF => Optional(e.subjectId)
    case AggregateTypeF => Optional(e.aggregateType)
    case AggregateIdF => Optional(e.aggregateId)
    case CorrelationIdF => Optional(e.correlationId)
    case CausationIdF => Optional(e.causationId)
    case ActorF => if e.actor.Some? then Some(ActorJson(e.actor.value)) else None
    case PayloadHashF => Some(JString(e.payloadHash))
    case EventHashF => Some(JString(e.eventHash))
    case PayloadF => Some(JObject(e.payload))
    case UnknownF(_) => None
  }

  /** The entries of the canonical event among some fields. */
  function Entries(e: Envelope, fields: set<Field>): (t: Text)
    ensures forall f :: f in t <==> f in fields && FieldOf(e, f).Some?
    ensures forall f | f in t :: t[f] == FieldOf(e, f).value
  {
    map f | f in fields && FieldOf(e, f).Some? :: FieldOf(e, f).value
  }

  const REQUIRED_FIELDS: set<Field> :=
    {EventIdF, EventNameF, EventVersionF, ProducerServiceF, OccurredAtF, PayloadF, PayloadHashF, EventHashF}

  const OPTIONAL_FIELDS: set<Field> := {
    ProducerInstanceF, ProducerDeploymentF, ObservedAtF, PartitionIdF, SubjectTypeF, SubjectIdF,
    AggregateTypeF, AggregateIdF, CorrelationIdF, CausationIdF, ActorF}

  /** The canonical event: exactly the fields that the envelope has, each with its value. */
  function CanonicalEvent(e: Envelope): Text {
    Entries(e, REQUIRED_FIELDS + OPTIONAL_FIELDS)
  }

  ghost predicate Complete(fields: set<Field>) {
    forall f :: f in fields <==> !f.UnknownF?
  }

  lemma AllFields()
    ensures Complete(REQUIRED_FIELDS + OPTIONAL_FIELDS)
  {
  }

  function WithoutEventHash(t: Text): Text {
    t - {EventHashF}
  }

  /** `addStringPtr`: the map gains the key when there is a value. */
  method AddStringPtr(data: Text, key: Field, value: Option<string>, ghost e: Envelope, ghost fields: set<Field>)
    returns (data': Text)
    requires data == Entries(e, fields) && FieldOf(e, key) == Optional(value)
    ensures data' == Entries(e, fields + {key})
    ensures data' == if value.Some? then data[key := JString(value.value)] else data
  {
    data' := data;
    if value.Some? {
      data' := data'[key := JString(value.value)];
    }
  }

  /** The entries every event has. */
  method RequiredEntries(e: Envelope) returns (data: Text)
    ensures data == Entries(e, REQUIRED_FIELDS)
  {
    data := map[
      EventIdF := JString(e.eventId),
      EventNameF := JString(e.eventName),
      EventVersionF := JString(e.eventVersion),
      ProducerServiceF := JString(e.producerService),
      OccurredAtF := JString(FormatTime(e.occurredAt)),
      PayloadF := JObject(e.payload),
      PayloadHashF := JString(e.payloadHash),
      EventHashF := JString(e.eventHash)];
  }

  /** `canonicalEventMap`, entry by entry. */
  method CanonicalEventMap(e: Envelope) returns (data: Text)
    ensures data == CanonicalEvent(e)
  {
    data := RequiredEntries(e);
    ghost var fields := REQUIRED_FIELDS;
    data := AddProducerAndTimes(e, data, fields);
    fields := fields + {ProducerInstanceF, ProducerDeploymentF, ObservedAtF, PartitionIdF};
    data := AddReferences(e, data, fields);
    fields := fields + {SubjectTypeF, SubjectIdF, AggregateTypeF, AggregateIdF, CorrelationIdF, CausationIdF};
    data := AddActor(e, data, fields);
    EveryFieldAdded();
  }

  lemma EveryFieldAdded()
    ensures REQUIRED_FIELDS + {ProducerInstanceF, ProducerDeploymentF, ObservedAtF, PartitionIdF}
            + {SubjectTypeF, SubjectIdF, AggregateTypeF, AggregateIdF, CorrelationIdF, CausationIdF} + {ActorF}
            == REQUIRED_FIELDS + OPTIONAL_FIELDS
  {
  }

  method AddObservedAt(e: Envelope, data: Text, ghost fields: set<Field>) returns (data': Text)
    requires data == Entries(e, fields)
    ensures data' == Entries(e, fields + {ObservedAtF})
  {
    data' := data;
    if e.observedAt.Some? {
      data' := data'[ObservedAtF := JString(FormatTime(e.observedAt.value))];
    }
  }

  method AddActor(e: Envelope, data: Text, ghost fields: set<Field>) returns (data': Text)
    requires data == Entries(e, fields)
    ensures data' == Entries(e, fields + {ActorF})
  {
    data' := data;
    if e.actor.Some? {
      var actor := map["type" := JString(e.actor.value.kind)];
      if e.actor.value.id.Some? {
        actor := actor["id" := JString(e.actor.value.id.value)];
      }
      data' := data'[ActorF := JObject(actor)];
    }
  }

  method AddProducerAndTimes(e: Envelope, data: Text, ghost fields: set<Field>) returns (data': Text)
    requires data == Entries(e, fields)
    ensures data' == Entries(e, fields + {ProducerInstanceF, ProducerDeploymentF, ObservedAtF, PartitionIdF})
  {
    data' := AddStringPtr(data, ProducerInstanceF, e.producerInstance, e, fields);
    data' := AddStringPtr(data', ProducerDeploymentF, e.producerDeployment, e, fields + {ProducerInstanceF});
    ghost var added := fields + {ProducerInstanceF} + {ProducerDeploymentF};
    data' := AddObservedAt(e, data', added);
    data' := AddStringPtr(data', PartitionIdF, e.partitionId, e, added + {ObservedAtF});
    assert added + {ObservedAtF} + {PartitionIdF}
           == fields + {ProducerInstanceF, ProducerDeploymentF, ObservedAtF, PartitionIdF};
  }

  method AddReferences(e: Envelope, data: Text, ghost fields: set<Field>) returns (data': Text)
    requires data == Entries(e, fields)
    ensures data' == Entries(e, fields + {SubjectTypeF, SubjectIdF, AggregateTypeF, AggregateIdF,
                                          CorrelationIdF, CausationIdF})
  {
    ghost var added := fields;
    data' := AddStringPtr(data, SubjectTypeF, e.subjectType, e, added);
    added := added + {SubjectTypeF};
    data' := AddStringPtr(data', SubjectIdF, e.subjectId, e, added);
    added := added + {SubjectIdF};
    data' := AddStringPtr(data', AggregateTypeF, e.aggregateType, e, added);
    added := added + {AggregateTypeF};
    data' := AddStringPtr(data', AggregateIdF, e.aggregateId, e, added);
    added := added + {AggregateIdF};
    data' := AddStringPtr(data', CorrelationIdF, e.correlationId, e, added);
    added := added + {CorrelationIdF};
    data' := AddStringPtr(data', CausationIdF, e.causationId, e, added);
    assert added + {CausationIdF}
           == fields + {SubjectTypeF, SubjectIdF, AggregateTypeF, AggregateIdF, CorrelationIdF, CausationIdF};
  }

  /** `CanonicalEventWithoutEventHash`: the same map with one entry deleted. */
  method CanonicalEventWithoutEventHash(e: Envelope) returns (data: Text)
    ensures data == WithoutEventHash(CanonicalEvent(e))
  {
    data := CanonicalEventMap(e);
    data := data - {EventHashF};
  }

  /* ---------- Decoding ---------- */

  /** A string field: absent or null leaves the zero value. */
  function StringAt(t: Text, f: Field): Option<string> {
    if f !in t || t[f].JNull? then Some("")
    else if t[f].JString? then Some(t[f].s)
    else None
  }

  /** A pointer field: absent or null leaves nil. The outer None is a type error. */
  function OptionalAt(t: Text, f: Field): Option<Option<string>> {
    if f !in t || t[f].JNull? then Some(None)
    else if t[f].JString? then Some(Some(t[f].s))
    else None
  }

  function TimeAt(t: Text, f: Field): Option<Option<Time>> {
    if f !in t || t[f].JNull? then Some(None)
    else if t[f].JString? && ParseTime(t[f].s).Some? then Some(Some(ParseTime(t[f].s).value))
    else None
  }

  function ActorAt(t: Text): Option<Option<Actor>> {
    if ActorF !in t || t[ActorF].JNull? then Some(None)
    else if !t[ActorF].JObject? || !(t[ActorF].fields.Keys <= {"type", "id"}) then None
    else
      var o := t[ActorF].fields;
      var kind :=
        if "type" !in o || o["type"].JNull? then Some("")
        else if o["type"].JString? then Some(o["type"].s)
        else None;
      var id: Option<Option<string>> :=
        if "id" !in o || o["id"].JNull? then Some(None) else if o["id"].JString? then Some(Some(o["id"].s)) else None;
      if kind.None? || id.None? then None else Some(Some(Actor(kind.value, id.value)))
  }

  /** The strings of an envelope, once every field has the right type. */
  predicate WellTyped(t: Text) {
    && (forall f | f in t :: !f.UnknownF?)
    && (forall f | f in {EventIdF, EventNameF, EventVersionF, ProducerServiceF, PayloadHashF, EventHashF} ::
          StringAt(t, f).Some?)
    && (forall f | f in {ProducerInstanceF, ProducerDeploymentF, PartitionIdF, SubjectTypeF, SubjectIdF,
                         AggregateTypeF, AggregateIdF, CorrelationIdF, CausationIdF} :: OptionalAt(t, f).Some?)
    && TimeAt(t, OccurredAtF).Some? && TimeAt(t, ObservedAtF).Some?
    && ActorAt(t).Some?
    && (PayloadF in t ==> t[PayloadF].JObject? || t[PayloadF].JNull?)
  }

  /** `DecodeEnvelope`: strict decoding, then validation; a missing required field fails one or the other. */
  function DecodeEnvelope(t: Text): Option<Envelope> {
    if !WellTyped(t) || PayloadF !in t || t[PayloadF].JNull? || TimeAt(t, OccurredAtF).value.None? then None
    else
      var e := Envelope(
        StringAt(t, EventIdF).value,
        StringAt(t, EventNameF).value,
        StringAt(t, EventVersionF).value,
        StringAt(t, ProducerServiceF).value,
        OptionalAt(t, ProducerInstanceF).value,
        OptionalAt(t, ProducerDeploymentF).value,
        TimeAt(t, OccurredAtF).value.value,
        TimeAt(t, ObservedAtF).value,
        OptionalAt(t, PartitionIdF).value,
        OptionalAt(t, SubjectTypeF).value,
        OptionalAt(t, SubjectIdF).value,
        OptionalAt(t, AggregateTypeF).value,
        OptionalAt(t, AggregateIdF).value,
        OptionalAt(t, CorrelationIdF).value,
        OptionalAt(t, CausationIdF).value,
        ActorAt(t).value,
        StringAt(t, PayloadHashF).value,
        StringAt(t, EventHashF).value,
        t[PayloadF].fields);
      if Valid(e) then Some(e) else None
  }

  lemma ActorRoundTrip(e: Envelope, fields: set<Field>)
    requires Complete(fields)
    ensures ActorAt(Entries(e, fields)) == Some(e.actor)
  {
  }

  lemma TimeReads(t: Text, f: Field, time: Time)
    requires ValidTime(time) && f in t && t[f] == JString(FormatTime(time))
    ensures TimeAt(t, f) == Some(Some(time))
  {
    TimeRoundTrip(time);
  }

  lemma OccurredRoundTrip(e: Envelope, fields: set<Field>)
    requires Complete(fields) && ValidTime(e.occurredAt)
    ensures TimeAt(Entries(e, fields), OccurredAtF) == Some(Some(e.occurredAt))
  {
    TimeReads(Entries(e, fields), OccurredAtF, e.occurredAt);
  }

  lemma ObservedRoundTrip(e: Envelope, fields: set<Field>)
    requires Complete(fields) && (e.observedAt.Some? ==> ValidTime(e.observedAt.value))
    ensures TimeAt(Entries(e, fields), ObservedAtF) == Some(e.observedAt)
  {
    if e.observedAt.Some? {
      TimeReads(Entries(e, fields), ObservedAtF, e.observedAt.value);
    }
  }

  lemma StringsRoundTrip(e: Envelope, fields: set<Field>)
    requires Complete(fields)
    ensures var t := Entries(e, fields);
            && StringAt(t, EventIdF) == Some(e.eventId) && StringAt(t, EventNameF) == Some(e.eventName)
            && StringAt(t, EventVersionF) == Some(e.eventVersion)
            && StringAt(t, ProducerServiceF) == Some(e.producerService)
            && StringAt(t, PayloadHashF) == Some(e.payloadHash) && StringAt(t, EventHashF) == Some(e.eventHash)
            && PayloadF in t && t[PayloadF] == JObject(e.payload)
  {
  }

  lemma ProducerRoundTrip(e: Envelope, fields: set<Field>)
    requires Complete(fields)
    ensures var t := Entries(e, fields);
            && OptionalAt(t, ProducerInstanceF) == Some(e.producerInstance)
            && OptionalAt(t, ProducerDeploymentF) == Some(e.producerDeployment)
            && OptionalAt(t, PartitionIdF) == Some(e.partitionId)
  {
  }

  lemma SubjectRoundTrip(e: Envelope, fields: set<Field>)
    requires Complete(fields)
    ensures var t := Entries(e, fields);
            && OptionalAt(t, SubjectTypeF) == Some(e.subjectType) && OptionalAt(t, SubjectIdF) == Some(e.subjectId)
            && OptionalAt(t, AggregateTypeF) == Some(e.aggregateType)
  {
  }

  lemma ReferencesRoundTrip(e: Envelope, fields: set<Field>)
    requires Complete(fields)
    ensures var t := Entries(e, fields);
            && OptionalAt(t, AggregateIdF) == Some(e.aggregateId)
            && OptionalAt(t, CorrelationIdF) == Some(e.correlationId)
            && OptionalAt(t, CausationIdF) == Some(e.causationId)
  {
  }

  lemma EntriesRoundTrip(e: Envelope, fields: set<Field>)
    requires Complete(fields) && Valid(e)
    ensures DecodeEnvelope(Entries(e, fields)) == Some(e)
  {
    StringsRoundTrip(e, fields);
    ProducerRoundTrip(e, fields);
    SubjectRoundTrip(e, fields);
    ReferencesRoundTrip(e, fields);
    ActorRoundTrip(e, fields);
    OccurredRoundTrip(e, fields);
    ObservedRoundTrip(e, fields);
    DecodeReads(Entries(e, fields), e);
  }

  /** Decoding undoes the canonical form, for every combination of absent and present fields. */
  lemma EnvelopeRoundTrip(e: Envelope)
    requires Valid(e)
    ensures DecodeEnvelope(CanonicalEvent(e)) == Some(e)
  {
    AllFields();
    EntriesRoundTrip(e, REQUIRED_FIELDS + OPTIONAL_FIELDS);
  }

  /** Decoding looks at nothing but the fields. */
  lemma DecodeReads(t: Text, e: Envelope)
    requires Valid(e) && forall f | f in t :: !f.UnknownF?
    requires StringAt(t, EventIdF) == Some(e.eventId) && StringAt(t, EventNameF) == Some(e.eventName)
    requires StringAt(t, EventVersionF) == Some(e.eventVersion)
    requires StringAt(t, ProducerServiceF) == Some(e.producerService)
    requires StringAt(t, PayloadHashF) == Some(e.payloadHash) && StringAt(t, EventHashF) == Some(e.eventHash)
    requires PayloadF in t && t[PayloadF] == JObject(e.payload)
    requires OptionalAt(t, ProducerInstanceF) == Some(e.producerInstance)
    requires OptionalAt(t, ProducerDeploymentF) == Some(e.producerDeployment)
    requires OptionalAt(t, PartitionIdF) == Some(e.partitionId)
    requires OptionalAt(t, SubjectTypeF) == Some(e.subjectType) && OptionalAt(t, SubjectIdF) == Some(e.subjectId)
    requires OptionalAt(t, AggregateTypeF) == Some(e.aggregateType)
    requires OptionalAt(t, AggregateIdF) == Some(e.aggregateId)
    requires OptionalAt(t, CorrelationIdF) == Some(e.correlationId)
    requires OptionalAt(t, CausationIdF) == Some(e.causationId)
    requires TimeAt(t, OccurredAtF) == Some(Some(e.occurredAt)) && TimeAt(t, ObservedAtF) == Some(e.observedAt)
    requires ActorAt(t) == Some(e.actor)
    ensures DecodeEnvelope(t) == Some(e)
  {
    assert WellTyped(t);
  }

  /** Hence the canonical form is injective. */
  lemma CanonicalInjective(e: Envelope, d: Envelope)
    requires Valid(e) && Valid(d) && CanonicalEvent(e) == CanonicalEvent(d)
    ensures e == d
  {
    EnvelopeRoundTrip(e);
    EnvelopeRoundTrip(d);
  }

  /** What a text says, leaving nulls aside. */
  ghost predicate Given(t: Text, f: Field) {
    f in t && !t[f].JNull?
  }

  /** Decoding a string reads what is there, and an absent or null one as empty. */
  lemma StringIsGiven(t: Text, f: Field)
    requires StringAt(t, f).Some?
    ensures if Given(t, f) then t[f] == JString(StringAt(t, f).value) else StringAt(t, f).value == ""
  {
  }

  lemma OptionalIsGiven(t: Text, f: Field)
    requires OptionalAt(t, f).Some?
    ensures if Given(t, f) then t[f] == Optional(OptionalAt(t, f).value).value && OptionalAt(t, f).value.Some?
            else OptionalAt(t, f).value.None?
  {
  }

  /** What decoding makes of a field that is neither a timestamp nor the actor. */
  ghost predicate ReadAsGiven(t: Text, f: Field)
    requires DecodeEnvelope(t).Some?
  {
    FieldOf(DecodeEnvelope(t).value, f) == if Given(t, f) then Some(t[f]) else None
  }

  /** A required string is there, or validation would have refused its zero value. */
  lemma DecodesRequired(t: Text, f: Field)
    requires DecodeEnvelope(t).Some?
    requires f.EventIdF? || f.EventNameF? || f.EventVersionF? || f.ProducerServiceF? || f.PayloadHashF? || f.EventHashF?
    ensures Given(t, f) && ReadAsGiven(t, f)
  {
    StringIsGiven(t, f);
  }

  lemma DecodesProducer(t: Text, f: Field)
    requires DecodeEnvelope(t).Some? && (f.ProducerInstanceF? || f.ProducerDeploymentF? || f.PartitionIdF?)
    ensures ReadAsGiven(t, f)
  {
    OptionalIsGiven(t, f);
  }

  lemma DecodesSubject(t: Text, f: Field)
    requires DecodeEnvelope(t).Some? && (f.SubjectTypeF? || f.SubjectIdF? || f.AggregateTypeF?)
    ensures ReadAsGiven(t, f)
  {
    OptionalIsGiven(t, f);
  }

  lemma DecodesReference(t: Text, f: Field)
    requires DecodeEnvelope(t).Some? && (f.AggregateIdF? || f.CorrelationIdF? || f.CausationIdF?)
    ensures ReadAsGiven(t, f)
  {
    OptionalIsGiven(t, f);
  }

  /** A given timestamp is one in RFC 3339. */
  ghost predicate TimeSpelled(t: Text, f: Field, time: Option<Time>) {
    if Given(t, f) then t[f].JString? && time.Some? && ParseTime(t[f].s) == time else time.None?
  }

  /** A given actor is an object with a type and perhaps an id, and nothing else. */
  ghost predicate ActorSpelled(t: Text, actor: Option<Actor>) {
    if Given(t, ActorF) then
      && actor.Some? && t[ActorF].JObject? && t[ActorF].fields.Keys <= {"type", "id"}
      && var o := t[ActorF].fields;
         && "type" in o && o["type"] == JString(actor.value.kind)
         && (if actor.value.id.Some? then "id" in o && o["id"] == JString(actor.value.id.value)
             else "id" !in o || o["id"].JNull?)
    else actor.None?
  }

  /** The text says about a field what the event has, null counting as absent. */
  ghost predicate SpelledAt(t: Text, e: Envelope, f: Field) {
    match f
    case UnknownF(_) => f !in t
    case OccurredAtF => TimeSpelled(t, f, Some(e.occurredAt))
    case ObservedAtF => TimeSpelled(t, f, e.observedAt)
    case ActorF => ActorSpelled(t, e.actor)
    case _ => FieldOf(e, f) == if Given(t, f) then Some(t[f]) else None
  }

  lemma DecodesRest(t: Text, f: Field)
    requires DecodeEnvelope(t).Some?
    requires f.OccurredAtF? || f.ObservedAtF? || f.ActorF? || f.PayloadF? || f.UnknownF?
    ensures SpelledAt(t, DecodeEnvelope(t).value, f)
  {
  }

  lemma DecodesAsSpelled(t: Text, f: Field)
    requires DecodeEnvelope(t).Some?
    ensures SpelledAt(t, DecodeEnvelope(t).value, f)
  {
    if f.OccurredAtF? || f.ObservedAtF? || f.ActorF? || f.PayloadF? || f.UnknownF? {
      DecodesRest(t, f);
    } else if f.ProducerInstanceF? || f.ProducerDeploymentF? || f.PartitionIdF? {
      DecodesProducer(t, f);
    } else if f.SubjectTypeF? || f.SubjectIdF? || f.AggregateTypeF? {
      DecodesSubject(t, f);
    } else if f.AggregateIdF? || f.CorrelationIdF? || f.CausationIdF? {
      DecodesReference(t, f);
    } else {
      DecodesRequired(t, f);
    }
  }

  lemma SpelledRequired(t: Text, e: Envelope)
    requires forall f :: SpelledAt(t, e, f)
    ensures StringAt(t, EventIdF) == Some(e.eventId) && StringAt(t, EventNameF) == Some(e.eventName)
    ensures StringAt(t, EventVersionF) == Some(e.eventVersion)
    ensures StringAt(t, ProducerServiceF) == Some(e.producerService)
    ensures StringAt(t, PayloadHashF) == Some(e.payloadHash) && StringAt(t, EventHashF) == Some(e.eventHash)
    ensures PayloadF in t && t[PayloadF] == JObject(e.payload)
  {
    assert SpelledAt(t, e, EventIdF) && SpelledAt(t, e, EventNameF) && SpelledAt(t, e, EventVersionF);
    assert SpelledAt(t, e, ProducerServiceF) && SpelledAt(t, e, PayloadHashF) && SpelledAt(t, e, EventHashF);
    assert SpelledAt(t, e, PayloadF);
  }

  lemma SpelledProducer(t: Text, e: Envelope)
    requires forall f :: SpelledAt(t, e, f)
    ensures OptionalAt(t, ProducerInstanceF) == Some(e.producerInstance)
    ensures OptionalAt(t, ProducerDeploymentF) == Some(e.producerDeployment)
    ensures OptionalAt(t, PartitionIdF) == Some(e.partitionId)
    ensures OptionalAt(t, SubjectTypeF) == Some(e.subjectType) && OptionalAt(t, SubjectIdF) == Some(e.subjectId)
  {
    assert SpelledAt(t, e, ProducerInstanceF) && SpelledAt(t, e, ProducerDeploymentF) && SpelledAt(t, e, PartitionIdF);
    assert SpelledAt(t, e, SubjectTypeF) && SpelledAt(t, e, SubjectIdF);
  }

  lemma SpelledReferences(t: Text, e: Envelope)
    requires forall f :: SpelledAt(t, e, f)
    ensures OptionalAt(t, AggregateTypeF) == Some(e.aggregateType)
    ensures OptionalAt(t, AggregateIdF) == Some(e.aggregateId)
    ensures OptionalAt(t, CorrelationIdF) == Some(e.correlationId)
    ensures OptionalAt(t, CausationIdF) == Some(e.causationId)
  {
    assert SpelledAt(t, e, AggregateTypeF) && SpelledAt(t, e, AggregateIdF);
    assert SpelledAt(t, e, CorrelationIdF) && SpelledAt(t, e, CausationIdF);
  }

  lemma SpelledTimes(t: Text, e: Envelope)
    requires SpelledAt(t, e, OccurredAtF) && SpelledAt(t, e, ObservedAtF)
    ensures TimeAt(t, OccurredAtF) == Some(Some(e.occurredAt)) && TimeAt(t, ObservedAtF) == Some(e.observedAt)
  {
  }

  lemma SpelledActor(t: Text, e: Envelope)
    requires SpelledAt(t, e, ActorF)
    ensures ActorAt(t) == Some(e.actor)
  {
  }

  lemma NothingUnknown(t: Text, e: Envelope)
    requires forall f :: SpelledAt(t, e, f)
    ensures forall f | f in t :: !f.UnknownF?
  {
    forall f | f in t
      ensures !f.UnknownF?
    {
      assert SpelledAt(t, e, f);
    }
  }

  /**
   Strict decoding, exactly: a text decodes to an event if and only if the event is valid and the text spells it,
   field by field, with no other field, nothing of another type, and null for absence only.
   */
  lemma DecodesExactly(t: Text, e: Envelope)
    ensures DecodeEnvelope(t) == Some(e) <==> Valid(e) && forall f :: SpelledAt(t, e, f)
  {
    if DecodeEnvelope(t) == Some(e) {
      forall f
        ensures SpelledAt(t, e, f)
      {
        DecodesAsSpelled(t, f);
      }
    }
    if Valid(e) && forall f :: SpelledAt(t, e, f) {
      SpelledRequired(t, e);
      SpelledProducer(t, e);
      SpelledReferences(t, e);
      SpelledTimes(t, e);
      SpelledActor(t, e);
      NothingUnknown(t, e);
      DecodeReads(t, e);
    }
  }
}
