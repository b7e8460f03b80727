/** Replay cursors as text, and replay limits. */
module Cursors {
  import opened Wrappers
  import opened TextFunctions

  const MAX_INT64: int := 0x7FFF_FFFF_FFFF_FFFF

  datatype QueryError =
    | CursorRequired | NotAnInteger | NegativeCursor | BadDefaultLimit | BadMaxLimit | NegativeLimit | LimitTooLarge

  predicate Numeral(s: string) {
    s != [] && forall i | 0 <= i < |s| :: IsDigit(s[i])
  }

  /** strconv.ParseInt(s, 10, 64): an optional sign, digits, and a value that fits. */
  function ParseInt(s: string): Option<int> {
    var signed := s != [] && (s[0] == '+' || s[0] == '-');
    var digits := if signed then s[1..] else s;
    if !Numeral(digits) then None
    else
      var n: int := Value(digits);
      if signed && s[0] == '-' then (if n <= MAX_INT64 + 1 then Some(-n) else None)
      else if n <= MAX_INT64 then Some(n) else None
  }

  lemma ParseDigits(digits: string)
    requires Numeral(digits)
    ensures ParseInt(digits) == if Value(digits) <= MAX_INT64 then Some(Value(digits)) else None
  {
  }

  function ParseReplayCursor(value: string): Result<nat, QueryError> {
    var trimmed := TrimSpace(value);
    if trimmed == [] then Err(CursorRequired)
    else
      var parsed := ParseInt(trimmed);
      if parsed.None? then Err(NotAnInteger)
      else if parsed.value < 0 then Err(NegativeCursor)
      else Ok(parsed.value)
  }

  /** ReplayCursor.String. */
  function CursorText(cursor: nat): string {
    Decimal(cursor)
  }

  /** A printed cursor, however padded with spaces, reads back as itself. */
  lemma CursorRoundTrip(cursor: nat, left: string, right: string)
    requires cursor <= MAX_INT64 && All(left, IsSpace) && All(right, IsSpace)
    ensures ParseReplayCursor(left + CursorText(cursor) + right) == Ok(cursor)
  {
    var s := CursorText(cursor);
    assert IsDigit(s[0]) && IsDigit(s[|s| - 1]);
    TrimPadded(left, s, right, IsSpace);
    ValueOfDecimal(cursor);
    ParseDigits(s);
  }

  /** Digit strings are accepted exactly when their value is an int64, and then for that value. */
  lemma DigitsInRange(left: string, digits: string, right: string)
    requires Numeral(digits) && All(left, IsSpace) && All(right, IsSpace)
    ensures ParseReplayCursor(left + digits + right)
            == if Value(digits) <= MAX_INT64 then Ok(Value(digits)) else Err(NotAnInteger)
  {
    assert IsDigit(digits[0]) && IsDigit(digits[|digits| - 1]);
    TrimPadded(left, digits, right, IsSpace);
    ParseDigits(digits);
  }

  /** Nothing else is a cursor but an explicitly positive number or minus zero. */
  lemma OnlyNumerals(value: string)
    ensures ParseReplayCursor(value).Ok? <==>
            var t := TrimSpace(value);
            || (Numeral(t) && Value(t) <= MAX_INT64)
            || (t != [] && t[0] == '+' && Numeral(t[1..]) && Value(t[1..]) <= MAX_INT64)
            || (t != [] && t[0] == '-' && Numeral(t[1..]) && Value(t[1..]) == 0)
  {
  }

  /** Why a cursor is refused: it is blank, or a negative number that fits, or no number that fits. */
  lemma CursorErrors(value: string)
    requires ParseReplayCursor(value).Err?
    ensures var error, t := ParseReplayCursor(value).error, TrimSpace(value);
            && (error.CursorRequired? <==> Blank(value))
            && (error.NegativeCursor? <==>
                  t != [] && t[0] == '-' && Numeral(t[1..]) && 0 < Value(t[1..]) <= MAX_INT64 + 1)
            && (error.CursorRequired? || error.NegativeCursor? || error.NotAnInteger?)
  {
    BlankTrims(value);
  }

  ghost predicate Blank(s: string) {
    All(s, IsSpace)
  }

  lemma BlankTrims(s: string)
    ensures TrimSpace(s) == [] <==> Blank(s)
  {
    var t := TrimLeft(s, IsSpace);
    TrimLeftDrops(s, IsSpace);
    TrimRightDrops(t, IsSpace);
  }

  /* ---------- Limits ---------- */

  const DEFAULT_REPLAY_LIMIT: int := 100
  const MAX_REPLAY_LIMIT: nat := 1000

  function NormalizeReplayLimitWithBounds(limit: int, defaultLimit: int, maxLimit: int): (r: Result<nat, QueryError>)
    ensures r.Ok? <==> 1 <= defaultLimit <= maxLimit && 0 <= limit <= maxLimit
    ensures r.Ok? ==> 1 <= r.value <= maxLimit && (r.value == limit || (limit == 0 && r.value == defaultLimit))
    ensures r.Err? && !(1 <= defaultLimit <= maxLimit) ==> r.error.BadDefaultLimit? || r.error.BadMaxLimit?
    ensures r.Err? && 1 <= defaultLimit <= maxLimit ==> r.error == if limit < 0 then NegativeLimit else LimitTooLarge
  {
    if defaultLimit < 1 then Err(BadDefaultLimit)
    else if maxLimit < defaultLimit then Err(BadMaxLimit)
    else if limit == 0 then Ok(defaultLimit)
    else if limit < 0 then Err(NegativeLimit)
    else if limit > maxLimit then Err(LimitTooLarge)
    else Ok(limit)
  }

  /** The ledger's own check: 0 to 1000, and 0 stands for 100. */
  function NormalizeReplayLimit(limit: int): (r: Result<nat, QueryError>)
    ensures r.Ok? <==> 0 <= limit <= 1000
    ensures r.Ok? ==> r.value == if limit == 0 then 100 else limit
    ensures r.Err? ==> r.error == if limit < 0 then NegativeLimit else LimitTooLarge
  {
    NormalizeReplayLimitWithBounds(limit, DEFAULT_REPLAY_LIMIT, MAX_REPLAY_LIMIT)
  }

  /**
   A limit accepted under the configured bounds is accepted again as it is, and passes the ledger's
   own check unchanged exactly when it is at most 1000; so bounds with max at most 1000 never trip it.
   */
  lemma LimitSettles(limit: int, defaultLimit: int, maxLimit: int)
    requires NormalizeReplayLimitWithBounds(limit, defaultLimit, maxLimit).Ok?
    ensures var n := NormalizeReplayLimitWithBounds(limit, defaultLimit, maxLimit).value;
            && NormalizeReplayLimitWithBounds(n, defaultLimit, maxLimit) == Ok(n)
            && (NormalizeReplayLimit(n) == Ok(n) <==> n <= MAX_REPLAY_LIMIT)
            && (maxLimit <= MAX_REPLAY_LIMIT ==> NormalizeReplayLimit(n) == Ok(n))
  {
  }

  /** `NewEventQueryWithLimits` without the filters, which are set afterwards. */
  function NewEventQueryWithLimits(afterCursor: string, limit: int, defaultLimit: int, maxLimit: int)
    : Result<(Option<nat>, nat), QueryError>
  {
    var normalized := NormalizeReplayLimitWithBounds(limit, defaultLimit, maxLimit);
    if normalized.Err? then Err(normalized.error)
    else if TrimSpace(afterCursor) == [] then Ok((None, normalized.value))
    else
      var cursor := ParseReplayCursor(afterCursor);
      if cursor.Err? then Err(cursor.error) else Ok((Some(cursor.value), normalized.value))
  }

  /**
   A query is accepted exactly when its limit is within good bounds and its cursor is blank or a cursor;
   it starts at that cursor, or at the beginning if blank, and with bounds up to 1000 its limit is the
   one that the ledger's own check will settle on again.
   */
  lemma QueryMeans(afterCursor: string, limit: int, defaultLimit: int, maxLimit: int)
    ensures var query := NewEventQueryWithLimits(afterCursor, limit, defaultLimit, maxLimit);
            && (query.Ok? <==> 1 <= defaultLimit <= maxLimit && 0 <= limit <= maxLimit
                               && (Blank(afterCursor) || ParseReplayCursor(afterCursor).Ok?))
            && (query.Err? && !(1 <= defaultLimit <= maxLimit && 0 <= limit <= maxLimit) ==>
                  NormalizeReplayLimitWithBounds(limit, defaultLimit, maxLimit) == Err(query.error))
            && (query.Err? && 1 <= defaultLimit <= maxLimit && 0 <= limit <= maxLimit ==>
                  ParseReplayCursor(afterCursor) == Err(query.error))
            && (query.Ok? ==>
                  && (query.value.0.None? <==> Blank(afterCursor))
                  && (query.value.0.Some? ==> ParseReplayCursor(afterCursor) == Ok(query.value.0.value))
                  && query.value.1 == (if limit == 0 then defaultLimit else limit)
                  && (maxLimit <= MAX_REPLAY_LIMIT ==> NormalizeReplayLimit(query.value.1) == Ok(query.value.1)))
  {
    BlankTrims(afterCursor);
  }

  /** Following a printed cursor asks for what lies above it. */
  lemma NextQuery(cursor: nat, left: string, right: string, limit: int, defaultLimit: int, maxLimit: int)
    requires cursor <= MAX_INT64 && All(left, IsSpace) && All(right, IsSpace)
    requires 1 <= defaultLimit <= maxLimit && 0 <= limit <= maxLimit
    ensures NewEventQueryWithLimits(left + CursorText(cursor) + right, limit, defaultLimit, maxLimit)
            == Ok((Some(cursor), if limit == 0 then defaultLimit else limit))
  {
    CursorRoundTrip(cursor, left, right);
    QueryMeans(left + CursorText(cursor) + right, limit, defaultLimit, maxLimit);
    assert CursorText(cursor)[0] in left + CursorText(cursor) + right;
  }
}
