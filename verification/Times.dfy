/** Timestamps as RFC 3339 text (section 5.6 of RFC 3339), printed and read in their own offset. */
module Times {
  import opened Wrappers
  import opened TextFunctions

  /** Wall-clock fields and the offset from UTC in minutes. */
  datatype Time = Time(year: nat, month: nat, day: nat, hour: nat, minute: nat, second: nat, nano: nat, offset: int)

  function DaysIn(year: nat, month: nat): nat {
    if month == 2 then (if year % 4 == 0 && (year % 100 != 0 || year % 400 == 0) then 29 else 28)
    else if month in {4, 6, 9, 11} then 30
    else 31
  }

  predicate ValidTime(t: Time) {
    && t.year <= 9999 && 1 <= t.month <= 12 && 1 <= t.day <= DaysIn(t.year, t.month)
    && t.hour < 24 && t.minute < 60 && t.second < 60 && t.nano < 1_000_000_000
    && -1440 < t.offset < 1440
  }

  /** The instant 0001-01-01T00:00:00Z, however its offset writes it. */
  predicate IsZero(t: Time) {
    && t.second == 0 && t.nano == 0
    && (if t.offset >= 0 then t.year == 1 && t.month == 1 && t.day == 1 && 60 * t.hour + t.minute == t.offset
        else t.year == 0 && t.month == 12 && t.day == 31 && 60 * t.hour + t.minute == 1440 + t.offset)
  }

  function Power10(w: nat): nat {
    if w == 0 then 1 else 10 * Power10(w - 1)
  }

  /** The last w decimal digits of n. */
  function Pad(n: nat, w: nat): (s: string)
    ensures |s| == w && forall i | 0 <= i < w :: IsDigit(s[i])
  {
    if w == 0 then [] else Pad(n / 10, w - 1) + [DigitOf(n % 10)]
  }

  lemma {:induction false} ValueOfPad(n: nat, w: nat)
    requires n < Power10(w)
    ensures Value(Pad(n, w)) == n
  {
    if w > 0 {
      ValueOfPad(n / 10, w - 1);
      assert Pad(n, w)[..w - 1] == Pad(n / 10, w - 1);
    }
  }

  function Read(s: string): Option<nat> {
    if forall i | 0 <= i < |s| :: IsDigit(s[i]) then Some(Value(s)) else None
  }

  lemma ReadPad(n: nat, w: nat)
    requires n < Power10(w)
    ensures Read(Pad(n, w)) == Some(n)
  {
  }

  /* ---------- Date and clock ---------- */

  function FormatDate(t: Time): (s: string)
    ensures |s| == 10
  {
    Pad(t.year, 4) + "-" + Pad(t.month, 2) + "-" + Pad(t.day, 2)
  }

  function ParseDate(s: string): Option<(nat, nat, nat)>
    requires |s| == 10
  {
    var y, m, d := Read(s[..4]), Read(s[5..7]), Read(s[8..]);
    if s[4] == '-' && s[7] == '-' && y.Some? && m.Some? && d.Some? then Some((y.value, m.value, d.value)) else None
  }

  lemma DateRoundTrip(t: Time)
    requires ValidTime(t)
    ensures ParseDate(FormatDate(t)) == Some((t.year, t.month, t.day))
  {
    var s := FormatDate(t);
    assert s[..4] == Pad(t.year, 4) && s[5..7] == Pad(t.month, 2) && s[8..] == Pad(t.day, 2);
    assert Power10(4) == 10000 && Power10(2) == 100;
    ReadPad(t.year, 4);
    ReadPad(t.month, 2);
    ReadPad(t.day, 2);
  }

  function FormatClock(t: Time): (s: string)
    ensures |s| == 8
  {
    Pad(t.hour, 2) + ":" + Pad(t.minute, 2) + ":" + Pad(t.second, 2)
  }

  function ParseClock(s: string): Option<(nat, nat, nat)>
    requires |s| == 8
  {
    var h, m, d := Read(s[..2]), Read(s[3..5]), Read(s[6..]);
    if s[2] == ':' && s[5] == ':' && h.Some? && m.Some? && d.Some? then Some((h.value, m.value, d.value)) else None
  }

  lemma ClockRoundTrip(t: Time)
    requires ValidTime(t)
    ensures ParseClock(FormatClock(t)) == Some((t.hour, t.minute, t.second))
  {
    var s := FormatClock(t);
    assert s[..2] == Pad(t.hour, 2) && s[3..5] == Pad(t.minute, 2) && s[6..] == Pad(t.second, 2);
    assert Power10(2) == 100;
    ReadPad(t.hour, 2);
    ReadPad(t.minute, 2);
    ReadPad(t.second, 2);
  }

  /* ---------- Fraction ---------- */

  predicate IsZeroDigit(c: char) {
    c == '0'
  }

  /** Nine digits without their trailing zeros, or nothing. */
  function FormatFraction(nano: nat): string {
    if nano == 0 then "" else "." + TrimRight(Pad(nano, 9), IsZeroDigit)
  }

  /** The digits at the front of a string. */
  function LeadingDigits(s: string): (n: nat)
    ensures n <= |s| && (forall i | 0 <= i < n :: IsDigit(s[i])) && (n < |s| ==> !IsDigit(s[n]))
  {
    if s == [] || !IsDigit(s[0]) then 0 else 1 + LeadingDigits(s[1..])
  }

  function Zeros(n: nat): (s: string)
    ensures |s| == n && forall i | 0 <= i < n :: s[i] == '0'
  {
    seq(n, _ => '0')
  }

  /** Nine digits: the ones given, cut or filled up with zeros. */
  function Nine(digits: string): (s: string)
    ensures |s| == 9
  {
    if |digits| >= 9 then digits[..9] else digits + Zeros(9 - |digits|)
  }

  lemma NineRestores(digits: string)
    requires |digits| == 9
    ensures Nine(TrimRight(digits, IsZeroDigit)) == digits
  {
    var t := TrimRight(digits, IsZeroDigit);
    TrimRightDrops(digits, IsZeroDigit);
    assert t == digits[..|t|];
  }

  /* ---------- Zone ---------- */

  /** Hours and minutes after a sign. */
  function ZoneText(sign: char, size: nat): (s: string)
    ensures |s| == 6 && s[0] == sign
  {
    [sign] + Pad(size / 60, 2) + ":" + Pad(size % 60, 2)
  }

  function FormatZone(offset: int): (s: string)
    ensures s != [] && !IsDigit(s[0]) && s[0] != '.'
  {
    if offset == 0 then "Z" else if offset > 0 then ZoneText('+', offset) else ZoneText('-', -offset)
  }

  function ParseZone(s: string): Option<int> {
    if s == "Z" then Some(0)
    else if |s| == 6 && (s[0] == '+' || s[0] == '-') && s[3] == ':' then
      var h, m := Read(s[1..3]), Read(s[4..]);
      if h.None? || m.None? || h.value > 23 || m.value > 59 then None
      else Some(if s[0] == '+' then 60 * h.value + m.value else -(60 * h.value + m.value))
    else None
  }

  lemma SignedZone(sign: char, size: nat)
    requires (sign == '+' || sign == '-') && size < 1440
    ensures ParseZone(ZoneText(sign, size)) == Some(if sign == '+' then size else 0 - size)
  {
    var s := ZoneText(sign, size);
    assert s[1..3] == Pad(size / 60, 2) && s[4..] == Pad(size % 60, 2);
    assert Power10(2) == 100;
    ReadPad(size / 60, 2);
    ReadPad(size % 60, 2);
  }

  lemma ZoneRoundTrip(offset: int)
    requires -1440 < offset < 1440
    ensures ParseZone(FormatZone(offset)) == Some(offset)
  {
    if offset > 0 {
      SignedZone('+', offset);
    } else if offset < 0 {
      SignedZone('-', -offset);
    }
  }

  /** Fraction and zone together. */
  function ParseTail(s: string): Option<(nat, int)> {
    if s != [] && s[0] == '.' then
      var n := LeadingDigits(s[1..]);
      var nano, zone := Read(Nine(s[1..n + 1])), ParseZone(s[n + 1..]);
      if n == 0 || nano.None? || zone.None? then None else Some((nano.value, zone.value))
    else
      var zone := ParseZone(s);
      if zone.None? then None else Some((0, zone.value))
  }

  lemma {:induction false} LeadingDigitsOf(digits: string, rest: string)
    requires (forall i | 0 <= i < |digits| :: IsDigit(digits[i])) && rest != [] && !IsDigit(rest[0])
    ensures LeadingDigits(digits + rest) == |digits|
  {
    if digits == [] {
      assert digits + rest == rest;
    } else {
      assert (digits + rest)[1..] == digits[1..] + rest;
      LeadingDigitsOf(digits[1..], rest);
    }
  }

  /** A point, at least one digit, and a zone come apart again. */
  lemma PointedTail(digits: string, zone: string, nano: nat, offset: int)
    requires digits != [] && forall i | 0 <= i < |digits| :: IsDigit(digits[i])
    requires zone != [] && !IsDigit(zone[0]) && ParseZone(zone) == Some(offset) && Read(Nine(digits)) == Some(nano)
    ensures ParseTail("." + digits + zone) == Some((nano, offset))
  {
    var s := "." + digits + zone;
    assert s[1..] == digits + zone;
    LeadingDigitsOf(digits, zone);
    assert s[1..|digits| + 1] == digits && s[|digits| + 1..] == zone;
  }

  /** The digits of a fraction: some, and they read as the fraction again. */
  lemma FractionDigits(nano: nat)
    requires 0 < nano < 1_000_000_000
    ensures var digits := TrimRight(Pad(nano, 9), IsZeroDigit);
            && digits != [] && (forall i | 0 <= i < |digits| :: IsDigit(digits[i])) && Read(Nine(digits)) == Some(nano)
  {
    var all := Pad(nano, 9);
    TrimRightDrops(all, IsZeroDigit);
    NineRestores(all);
    assert Power10(9) == 1_000_000_000;
    ReadPad(nano, 9);
    if TrimRight(all, IsZeroDigit) == [] {
      assert all == Zeros(9);
      ValueOfZeros(9);
    }
  }

  lemma TailRoundTrip(nano: nat, offset: int)
    requires nano < 1_000_000_000 && -1440 < offset < 1440
    ensures ParseTail(FormatFraction(nano) + FormatZone(offset)) == Some((nano, offset))
  {
    var zone := FormatZone(offset);
    ZoneRoundTrip(offset);
    if nano == 0 {
      assert FormatFraction(nano) + zone == zone;
    } else {
      FractionDigits(nano);
      PointedTail(TrimRight(Pad(nano, 9), IsZeroDigit), zone, nano, offset);
    }
  }

  lemma {:induction false} ValueOfZeros(n: nat)
    ensures Value(Zeros(n)) == 0
  {
    if n > 0 {
      assert Zeros(n)[..n - 1] == Zeros(n - 1);
      ValueOfZeros(n - 1);
    }
  }

  /* ---------- The whole timestamp ---------- */

  /** time.RFC3339Nano. */
  function FormatTime(t: Time): string {
    FormatDate(t) + "T" + FormatClock(t) + FormatFraction(t.nano) + FormatZone(t.offset)
  }

  function ParseTime(s: string): Option<Time> {
    if |s| < 20 || s[10] != 'T' then None
    else
      var date, clock, tail := ParseDate(s[..10]), ParseClock(s[11..19]), ParseTail(s[19..]);
      if date.None? || clock.None? || tail.None? then None
      else
        var (y, mo, d) := date.value;
        var (h, mi, se) := clock.value;
        var (n, o) := tail.value;
        var t := Time(y, mo, d, h, mi, se, n, o);
        if ValidTime(t) then Some(t) else None
  }

  /** A timestamp falls apart at fixed places: ten characters of date, eight of clock, and the rest. */
  lemma TimeParts(date: string, clock: string, tail: string)
    requires |date| == 10 && |clock| == 8
    ensures var s := date + "T" + clock + tail;
            s[10] == 'T' && s[..10] == date && s[11..19] == clock && s[19..] == tail
  {
  }

  lemma TimeRoundTrip(t: Time)
    requires ValidTime(t)
    ensures ParseTime(FormatTime(t)) == Some(t)
  {
    var tail := FormatFraction(t.nano) + FormatZone(t.offset);
    assert FormatTime(t) == FormatDate(t) + "T" + FormatClock(t) + tail;
    TimeParts(FormatDate(t), FormatClock(t), tail);
    DateRoundTrip(t);
    ClockRoundTrip(t);
    TailRoundTrip(t.nano, t.offset);
  }

  /* ---------- The printed form ---------- */

  lemma PadMeans(n: nat, w: nat)
    requires n < Power10(w)
    ensures |Pad(n, w)| == w && Numeric(Pad(n, w)) && Value(Pad(n, w)) == n
  {
  }

  ghost predicate Numeric(s: string) {
    forall i | 0 <= i < |s| :: IsDigit(s[i])
  }

  /** Year, month and day in this order, in four, two and two digits. */
  ghost predicate DatePrinted(s: string, t: Time) {
    && |s| == 10 && s[4] == '-' && s[7] == '-' && Numeric(s[..4]) && Numeric(s[5..7]) && Numeric(s[8..])
    && Value(s[..4]) == t.year && Value(s[5..7]) == t.month && Value(s[8..]) == t.day
  }

  ghost predicate ClockPrinted(s: string, t: Time) {
    && |s| == 8 && s[2] == ':' && s[5] == ':' && Numeric(s[..2]) && Numeric(s[3..5]) && Numeric(s[6..])
    && Value(s[..2]) == t.hour && Value(s[3..5]) == t.minute && Value(s[6..]) == t.second
  }

  /** Nothing for a whole second; else a point and at most nine digits, the last of them no zero. */
  ghost predicate FractionPrinted(s: string, nano: nat) {
    if nano == 0 then s == ""
    else
      && 2 <= |s| <= 10 && s[0] == '.' && Numeric(s[1..]) && s[|s| - 1] != '0'
      && Value(s[1..] + Zeros(10 - |s|)) == nano
  }

  /** `Z` for UTC and for nothing else; else a sign, hours and minutes. */
  ghost predicate ZonePrinted(s: string, offset: int) {
    if offset == 0 then s == "Z"
    else
      var size := if offset > 0 then offset else -offset;
      && |s| == 6 && s[0] == (if offset > 0 then '+' else '-') && s[3] == ':'
      && Numeric(s[1..3]) && Numeric(s[4..]) && Value(s[1..3]) == size / 60 && Value(s[4..]) == size % 60
  }

  lemma DatePrints(t: Time)
    requires ValidTime(t)
    ensures DatePrinted(FormatDate(t), t)
  {
    var s := FormatDate(t);
    assert s[..4] == Pad(t.year, 4) && s[5..7] == Pad(t.month, 2) && s[8..] == Pad(t.day, 2);
    assert Power10(4) == 10000 && Power10(2) == 100;
    PadMeans(t.year, 4);
    PadMeans(t.month, 2);
    PadMeans(t.day, 2);
  }

  lemma ClockPrints(t: Time)
    requires ValidTime(t)
    ensures ClockPrinted(FormatClock(t), t)
  {
    var s := FormatClock(t);
    assert s[..2] == Pad(t.hour, 2) && s[3..5] == Pad(t.minute, 2) && s[6..] == Pad(t.second, 2);
    assert Power10(2) == 100;
    PadMeans(t.hour, 2);
    PadMeans(t.minute, 2);
    PadMeans(t.second, 2);
  }

  lemma FractionPrints(nano: nat)
    requires nano < 1_000_000_000
    ensures FractionPrinted(FormatFraction(nano), nano)
  {
    if nano > 0 {
      var digits := TrimRight(Pad(nano, 9), IsZeroDigit);
      FractionDigits(nano);
      TrimRightDrops(Pad(nano, 9), IsZeroDigit);
      var s := FormatFraction(nano);
      assert s[1..] == digits && s[|s| - 1] == digits[|digits| - 1];
      assert Nine(digits) == digits + Zeros(9 - |digits|);
    }
  }

  lemma ZonePrints(offset: int)
    requires -1440 < offset < 1440
    ensures ZonePrinted(FormatZone(offset), offset)
  {
    if offset != 0 {
      var size: nat := if offset > 0 then offset else -offset;
      var s := FormatZone(offset);
      assert s[1..3] == Pad(size / 60, 2) && s[4..] == Pad(size % 60, 2);
      assert Power10(2) == 100;
      PadMeans(size / 60, 2);
      PadMeans(size % 60, 2);
    }
  }

  /** The one form RFC 3339 leaves when trailing zeros and a zero offset are not written out. */
  lemma PrintedForm(t: Time) returns (date: string, clock: string, fraction: string, zone: string)
    requires ValidTime(t)
    ensures FormatTime(t) == date + "T" + clock + fraction + zone
    ensures DatePrinted(date, t) && ClockPrinted(clock, t) && FractionPrinted(fraction, t.nano)
    ensures ZonePrinted(zone, t.offset)
  {
    date, clock, fraction, zone := FormatDate(t), FormatClock(t), FormatFraction(t.nano), FormatZone(t.offset);
    DatePrints(t);
    ClockPrints(t);
    FractionPrints(t.nano);
    ZonePrints(t.offset);
  }

  /* ---------- Other spellings ---------- */

  /** Any fraction and any numeric offset are read, further digits than nine being cut. */
  lemma ReadsAnySpelling(t: Time, digits: string, sign: char, size: nat)
    requires ValidTime(t) && digits != [] && Numeric(digits) && (sign == '+' || sign == '-') && size < 1440
    requires t.offset == (if sign == '+' then size else 0 - size) && Value(Nine(digits)) == t.nano
    ensures ParseTime(FormatDate(t) + "T" + FormatClock(t) + ("." + digits + ZoneText(sign, size))) == Some(t)
  {
    SignedZone(sign, size);
    PointedTail(digits, ZoneText(sign, size), t.nano, t.offset);
    ReadsTail(t, "." + digits + ZoneText(sign, size));
  }

  /** So is no fraction at all, with `+00:00` and `-00:00` read as UTC. */
  lemma ReadsWithoutFraction(t: Time, sign: char, size: nat)
    requires ValidTime(t) && t.nano == 0 && (sign == '+' || sign == '-') && size < 1440
    requires t.offset == if sign == '+' then size else 0 - size
    ensures ParseTime(FormatDate(t) + "T" + FormatClock(t) + ZoneText(sign, size)) == Some(t)
  {
    SignedZone(sign, size);
    ReadsTail(t, ZoneText(sign, size));
  }

  lemma ReadsTail(t: Time, tail: string)
    requires ValidTime(t) && tail != [] && ParseTail(tail) == Some((t.nano, t.offset))
    ensures ParseTime(FormatDate(t) + "T" + FormatClock(t) + tail) == Some(t)
  {
    DateRoundTrip(t);
    ClockRoundTrip(t);
    TimeParts(FormatDate(t), FormatClock(t), tail);
  }
}
