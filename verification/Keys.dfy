/** Archive keys: safe path segments, the keys joined from them, and the request an envelope makes. */
module Keys {
  import opened Wrappers
  import opened TextFunctions
  import opened Times
  import opened Events
  import opened Requests
  import opened Machine

  /* ---------- Segments ---------- */

  /** The characters that `unsafeSegment` leaves alone. */
  predicate IsSafe(c: char) {
    'A' <= c <= 'Z' || 'a' <= c <= 'z' || '0' <= c <= '9' || c == '.' || c == '_' || c == '=' || c == '-'
  }

  predicate IsUnsafe(c: char) {
    !IsSafe(c)
  }

  predicate IsDotOrUnderscore(c: char) {
    c == '.' || c == '_'
  }

  /** Every run of unsafe characters becomes one underscore. */
  function Squash(s: string): (t: string)
    ensures All(t, IsSafe)
    decreases |s|
  {
    if s == [] then []
    else if IsSafe(s[0]) then [s[0]] + Squash(s[1..])
    else "_" + Squash(TrimLeft(s[1..], IsUnsafe))
  }

  function SafeSegment(value: string): string {
    var safe := Trim(Squash(TrimSpace(value)), IsDotOrUnderscore);
    if safe == "" then "unknown" else safe
  }

  lemma {:induction false} SquashKeeps(s: string)
    requires All(s, IsSafe)
    ensures Squash(s) == s
  {
    if s != [] {
      assert s[0] in s;
      SquashKeeps(s[1..]);
    }
  }

  /** After safe characters, a run of unsafe ones is one underscore, and what follows is squashed alike. */
  lemma {:induction false} SquashRun(a: string, run: string, b: string)
    requires All(a, IsSafe) && run != [] && All(run, IsUnsafe) && (b == [] || IsSafe(b[0]))
    ensures Squash(a + run + b) == a + "_" + Squash(b)
  {
    if a == [] {
      assert a + run + b == run + b && run[0] in run;
      TrimLeftPadded(run[1..], b, IsUnsafe);
      assert (run + b)[1..] == run[1..] + b;
    } else {
      assert a[0] in a && (a + run + b)[1..] == a[1..] + run + b;
      SquashRun(a[1..], run, b);
      assert a == [a[0]] + a[1..];
    }
  }

  /** Nothing is trimmed of a string whose ends are not to be dropped. */
  lemma TrimsNothing(s: string, drop: char -> bool)
    requires s != [] && !drop(s[0]) && !drop(s[|s| - 1])
    ensures Trim(s, drop) == s
  {
  }

  lemma JoinedEnds(a: string, middle: string, b: string)
    requires a != [] && b != []
    ensures var s := a + middle + b; s != [] && s[0] == a[0] && s[|s| - 1] == b[|b| - 1]
  {
  }

  /** Two sound parts with unsafe characters between them are joined by one underscore. */
  lemma JoinedByUnderscore(a: string, run: string, b: string)
    requires Sound(a) && Sound(b) && run != [] && All(run, IsUnsafe)
    ensures SafeSegment(a + run + b) == a + "_" + b
  {
    assert a[0] in a && b[0] in b && b[|b| - 1] in b;
    SafeIsNotSpace(a[0]);
    SafeIsNotSpace(b[|b| - 1]);
    JoinedEnds(a, run, b);
    TrimsNothing(a + run + b, IsSpace);
    SquashRun(a, run, b);
    SquashKeeps(b);
    JoinedEnds(a, "_", b);
    TrimsNothing(a + "_" + b, IsDotOrUnderscore);
  }

  ghost predicate Sound(s: string) {
    s != [] && All(s, IsSafe) && !IsDotOrUnderscore(s[0]) && !IsDotOrUnderscore(s[|s| - 1])
  }

  lemma SafeIsNotSpace(c: char)
    requires IsSafe(c)
    ensures !IsSpace(c)
  {
  }

  /** The fixed points are the nonempty strings over the alphabet with no dot or underscore at an end. */
  lemma SafeSegmentFixes(s: string)
    requires Sound(s)
    ensures SafeSegment(s) == s
  {
    assert s[0] in s && s[|s| - 1] in s;
    SafeIsNotSpace(s[0]);
    SafeIsNotSpace(s[|s| - 1]);
    assert "" + s + "" == s;
    TrimPadded("", s, "", IsSpace);
    SquashKeeps(s);
    TrimPadded("", s, "", IsDotOrUnderscore);
  }

  lemma UnknownIsSound()
    ensures Sound("unknown")
  {
  }

  lemma SafeSegmentSound(value: string)
    ensures Sound(SafeSegment(value))
  {
    UnknownIsSound();
    TrimKeepsMembers(Squash(TrimSpace(value)), IsDotOrUnderscore);
  }

  /** So a segment is nonempty, stays within the alphabet, and is left alone exactly when it is sound already. */
  lemma SafeSegmentMeans(value: string)
    ensures Sound(SafeSegment(value))
    ensures SafeSegment(SafeSegment(value)) == SafeSegment(value)
    ensures SafeSegment(value) == value <==> Sound(value)
  {
    SafeSegmentSound(value);
    SafeSegmentFixes(SafeSegment(value));
    if Sound(value) {
      SafeSegmentFixes(value);
    }
  }

  lemma UuidIsSound(s: string)
    requires IsUuid(s)
    ensures SafeSegment(s) == s
  {
    forall c | c in s
      ensures IsSafe(c)
    {
      var i :| 0 <= i < |s| && s[i] == c;
    }
    SafeSegmentFixes(s);
  }

  /* ---------- Paths ---------- */

  ghost predicate NoSlash(s: string) {
    '/' !in s
  }

  /** path.Join of segments that contain no slash. */
  function Join(segments: seq<string>): string
    requires segments != []
  {
    if |segments| == 1 then segments[0] else segments[0] + "/" + Join(segments[1..])
  }

  function NormalizedPrefix(prefix: string): string {
    var trimmed := Trim(prefix, c => c == '/');
    if trimmed == "" then "raw" else trimmed
  }

  /** A prefix is never empty and neither starts nor ends with a slash, so no key does. */
  lemma NormalizedPrefixMeans(prefix: string)
    ensures var p := NormalizedPrefix(prefix); p != "" && p[0] != '/' && p[|p| - 1] != '/'
  {
    TrimKeepsMembers(prefix, c => c == '/');
  }

  /** Slashes around a prefix do not count, and no prefix is `raw`. */
  lemma PrefixOf(left: string, prefix: string, right: string)
    requires All(left, c => c == '/') && All(right, c => c == '/')
    requires prefix != "" ==> prefix[0] != '/' && prefix[|prefix| - 1] != '/'
    ensures NormalizedPrefix(left + prefix + right) == if prefix == "" then "raw" else prefix
  {
    var isSlash := c => c == '/';
    if prefix == "" {
      TrimLeftPadded(left + right, "", isSlash);
      assert left + prefix + right == left + right + "";
    } else {
      TrimPadded(left, prefix, right, isSlash);
    }
  }

  function Segments(k: Key): (s: seq<string>)
    ensures s != []
  {
    match k
    case GuardKey(e) => ["event_id=" + e + ".json"]
    case FinalKey(s, d, n, e) =>
      ["producer_service=" + s, "event_date=" + d, "event_name=" + n, "event_id=" + e + ".json"]
  }

  /** The object key or path below the bucket or root. */
  function Render(prefix: string, k: Key): string {
    prefix + "/" + Join(Segments(k))
  }

  lemma JoinFour(a: string, b: string, c: string, d: string)
    ensures Join([a, b, c, d]) == a + "/" + (b + "/" + (c + "/" + d))
  {
    assert [a, b, c, d][1..] == [b, c, d] && [b, c, d][1..] == [c, d] && [c, d][1..] == [d];
    assert Join([c, d]) == c + "/" + d;
    assert Join([b, c, d]) == b + "/" + (c + "/" + d);
  }

  /** The path of a guard and of a final, segment by segment. */
  lemma PathOf(prefix: string, service: string, date: string, name: string, e: EventId)
    ensures Render(prefix, GuardKey(e)) == prefix + "/" + ("event_id=" + e + ".json")
    ensures Render(prefix, FinalKey(service, date, name, e))
            == prefix + "/" + (("producer_service=" + service) + "/" + (("event_date=" + date) + "/"
               + (("event_name=" + name) + "/" + ("event_id=" + e + ".json"))))
  {
    JoinFour("producer_service=" + service, "event_date=" + date, "event_name=" + name, "event_id=" + e + ".json");
  }

  function FirstSlash(s: string): nat {
    if s == [] || s[0] == '/' then 0 else 1 + FirstSlash(s[1..])
  }

  lemma {:induction false} FirstSlashOf(a: string, x: string)
    requires NoSlash(a)
    ensures FirstSlash(a) == |a| && FirstSlash(a + "/" + x) == |a|
  {
    if a != [] {
      assert a[0] in a && NoSlash(a[1..]);
      assert (a + "/" + x)[1..] == a[1..] + "/" + x;
      FirstSlashOf(a[1..], x);
    }
  }

  lemma SplitAtSlash(a: string, x: string, b: string, y: string)
    requires NoSlash(a) && NoSlash(b) && a + "/" + x == b + "/" + y
    ensures a == b && x == y
  {
    FirstSlashOf(a, x);
    FirstSlashOf(b, y);
    assert (a + "/" + x)[..|a|] == a && (b + "/" + y)[..|b|] == b;
    assert (a + "/" + x)[|a| + 1..] == x && (b + "/" + y)[|b| + 1..] == y;
  }

  /** The first segment reaches to the first slash. */
  lemma JoinFirst(a: seq<string>)
    requires a != [] && NoSlash(a[0])
    ensures FirstSlash(Join(a)) == |a[0]|
    ensures |a| > 1 ==> |a[0]| < |Join(a)|
  {
    FirstSlashOf(a[0], if |a| > 1 then Join(a[1..]) else "");
  }

  lemma {:induction false} JoinInjective(a: seq<string>, b: seq<string>)
    requires a != [] && b != [] && (forall s | s in a :: NoSlash(s)) && (forall s | s in b :: NoSlash(s))
    requires Join(a) == Join(b)
    ensures a == b
  {
    assert a[0] in a && b[0] in b;
    JoinFirst(a);
    JoinFirst(b);
    if |a| > 1 && |b| > 1 {
      SplitAtSlash(a[0], Join(a[1..]), b[0], Join(b[1..]));
      JoinInjective(a[1..], b[1..]);
    }
  }

  /** Keys as the code builds them: sound segments, and a date of digits and dashes. */
  ghost predicate KeyOk(k: Key) {
    && NoSlash(k.eventId)
    && (k.FinalKey? ==> NoSlash(k.service) && NoSlash(k.date) && NoSlash(k.name))
  }

  lemma SegmentsHaveNoSlash(k: Key)
    requires KeyOk(k)
    ensures forall s | s in Segments(k) :: NoSlash(s)
  {
  }

  lemma SamePrefix(prefix: string, a: string, b: string)
    requires prefix + a == prefix + b
    ensures a == b
  {
    assert (prefix + a)[|prefix|..] == a && (prefix + b)[|prefix|..] == b;
  }

  lemma SameEnds(prefix: string, a: string, b: string, suffix: string)
    requires prefix + a + suffix == prefix + b + suffix
    ensures a == b
  {
    assert (prefix + a + suffix)[|prefix|..|prefix| + |a|] == a;
    assert (prefix + b + suffix)[|prefix|..|prefix| + |b|] == b;
  }

  /**
   Under one prefix different keys have different paths: archive keys of different event ids, or of
   different services, dates or names, never collide, and no guard path is an archive path.
   */
  lemma RenderInjective(prefix: string, k: Key, l: Key)
    requires KeyOk(k) && KeyOk(l) && Render(prefix, k) == Render(prefix, l)
    ensures k == l
  {
    SegmentsHaveNoSlash(k);
    SegmentsHaveNoSlash(l);
    SamePrefix(prefix + "/", Join(Segments(k)), Join(Segments(l)));
    JoinInjective(Segments(k), Segments(l));
    var a, b := Segments(k), Segments(l);
    assert |a| == |b| && a[|a| - 1] == b[|b| - 1];
    SameEnds("event_id=", k.eventId, l.eventId, ".json");
    if k.FinalKey? {
      assert a[0] == b[0] && a[1] == b[1] && a[2] == b[2];
      SamePrefix("producer_service=", k.service, l.service);
      SamePrefix("event_date=", k.date, l.date);
      SamePrefix("event_name=", k.name, l.name);
    }
  }

  /* ---------- The request of an envelope ---------- */

  /** Which hashes are required, and SHA-256 over the canonical JSON of a payload and of an event. */
  datatype Hashing = Hashing(
    requirePayloadHash: bool, requireEventHash: bool, payloadSha: Payload -> Hash, eventSha: Text -> Hash)

  /** `validateHashes`. */
  predicate HashesMatch(h: Hashing, e: Envelope) {
    && (h.requirePayloadHash ==> h.payloadSha(e.payload) == e.payloadHash)
    && (h.requireEventHash ==> h.eventSha(WithoutEventHash(CanonicalEvent(e))) == e.eventHash)
  }

  function GuardKeyOf(e: Envelope): Key {
    GuardKey(SafeSegment(e.eventId))
  }

  function FinalKeyOf(e: Envelope): Key {
    FinalKey(SafeSegment(e.producerService), FormatDate(e.occurredAt), SafeSegment(e.eventName), SafeSegment(e.eventId))
  }

  function ColumnsOf(e: Envelope): Columns {
    Columns(e.producerService, e.eventName, e.subjectType, e.subjectId, e.aggregateType, e.aggregateId, e.correlationId)
  }

  function RequestOf(h: Hashing, e: Envelope): Request {
    Request(e.eventId, ColumnsOf(e), e.payloadHash, e.eventHash, CanonicalEvent(e), FinalKeyOf(e), HashesMatch(h, e))
  }

  function ReadRequest(h: Hashing, t: Text): Option<Request> {
    var e := DecodeEnvelope(t);
    if e.Some? then Some(RequestOf(h, e.value)) else None
  }

  /** The machine's configuration for the service as it is deployed. */
  function ServiceConfig(archiveFirst: bool, reject: bool, h: Hashing): Config {
    Config(archiveFirst, reject, t => ReadRequest(h, t))
  }

  lemma DateHasNoSlash(t: Time)
    ensures NoSlash(FormatDate(t))
  {
  }

  lemma SoundHasNoSlash(s: string)
    requires Sound(s)
    ensures NoSlash(s)
  {
  }

  /** The keys of a valid envelope are proper, and its guard is the guard of its event id. */
  lemma EnvelopeKeys(e: Envelope)
    requires Valid(e)
    ensures KeyOk(FinalKeyOf(e)) && KeyOk(GuardKeyOf(e))
    ensures FinalKeyOf(e).eventId == e.eventId && GuardKeyOf(e) == GuardKey(e.eventId)
  {
    UuidIsSound(e.eventId);
    SafeSegmentSound(e.producerService);
    SafeSegmentSound(e.eventName);
    SafeSegmentSound(e.eventId);
    SoundHasNoSlash(SafeSegment(e.producerService));
    SoundHasNoSlash(SafeSegment(e.eventName));
    SoundHasNoSlash(SafeSegment(e.eventId));
    DateHasNoSlash(e.occurredAt);
  }

  /**
   Retention checks the key that ingest wrote: decoding the archived text gives the request back, with
   the key made of its service, its date in its own offset, its name and its event id.
   */
  lemma RequestRoundTrip(archiveFirst: bool, reject: bool, h: Hashing, e: Envelope)
    requires Valid(e)
    ensures WellFormed(ServiceConfig(archiveFirst, reject, h), RequestOf(h, e))
    ensures var again := ReadRequest(h, CanonicalEvent(e));
            again == Some(RequestOf(h, e))
            && again.value.finalKey
               == FinalKey(SafeSegment(e.producerService), FormatDate(e.occurredAt), SafeSegment(e.eventName),
                           e.eventId)
  {
    EnvelopeRoundTrip(e);
    EnvelopeKeys(e);
  }

  /** No two of these texts, their event hashes aside, share a hash. */
  ghost predicate InjectiveOn(f: Text -> Hash, texts: set<Text>) {
    forall t, u | t in texts && u in texts && f(WithoutEventHash(t)) == f(WithoutEventHash(u)) ::
      WithoutEventHash(t) == WithoutEventHash(u)
  }

  lemma HashAndRestOf(e: Envelope, d: Envelope, fields: set<Field>)
    requires EventHashF in fields && e.eventHash == d.eventHash
    requires WithoutEventHash(Entries(e, fields)) == WithoutEventHash(Entries(d, fields))
    ensures Entries(e, fields) == Entries(d, fields)
  {
    var t, u := Entries(e, fields), Entries(d, fields);
    assert t == WithoutEventHash(t)[EventHashF := JString(e.eventHash)];
    assert u == WithoutEventHash(u)[EventHashF := JString(d.eventHash)];
  }

  /** The event hash and the rest of the event make up the event. */
  lemma HashAndRest(e: Envelope, d: Envelope)
    requires WithoutEventHash(CanonicalEvent(e)) == WithoutEventHash(CanonicalEvent(d)) && e.eventHash == d.eventHash
    ensures CanonicalEvent(e) == CanonicalEvent(d)
  {
    HashAndRestOf(e, d, REQUIRED_FIELDS + OPTIONAL_FIELDS);
  }

  /** With event hashes required and no collision of SHA-256 among some texts, equal event hashes mean equal texts. */
  lemma NoCollisions(archiveFirst: bool, reject: bool, h: Hashing, texts: set<Text>)
    requires h.requireEventHash && InjectiveOn(h.eventSha, texts)
    ensures CollisionFreeAmong(ServiceConfig(archiveFirst, reject, h), texts)
  {
    var cfg := ServiceConfig(archiveFirst, reject, h);
    forall t, u | t in texts && u in texts && Verified(cfg, t) && Verified(cfg, u)
                  && cfg.read(t).value.eventHash == cfg.read(u).value.eventHash
      ensures t == u
    {
      SameHashSameText(h, texts, t, u);
    }
  }

  lemma SameHashSameText(h: Hashing, texts: set<Text>, t: Text, u: Text)
    requires h.requireEventHash && InjectiveOn(h.eventSha, texts) && t in texts && u in texts
    requires ReadRequest(h, t).Some? && ReadRequest(h, t).value.verified && ReadRequest(h, t).value.text == t
    requires ReadRequest(h, u).Some? && ReadRequest(h, u).value.verified && ReadRequest(h, u).value.text == u
    requires ReadRequest(h, t).value.eventHash == ReadRequest(h, u).value.eventHash
    ensures t == u
  {
    HashAndRest(DecodeEnvelope(t).value, DecodeEnvelope(u).value);
  }
}
