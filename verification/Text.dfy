/** The string functions of Go's library that keys and cursors are made with. */
module TextFunctions {
  /** unicode.IsSpace. */
  predicate IsSpace(c: char) {
    || '\t' <= c <= '\r' || c == ' ' || c == '\U{85}' || c == '\U{A0}' || c == '\U{1680}'
    || '\U{2000}' <= c <= '\U{200A}' || c == '\U{2028}' || c == '\U{2029}' || c == '\U{202F}'
    || c == '\U{205F}' || c == '\U{3000}'
  }

  function TrimLeft(s: string, drop: char -> bool): (t: string)
    ensures |t| <= |s|
  {
    if s == [] || !drop(s[0]) then s else TrimLeft(s[1..], drop)
  }

  function TrimRight(s: string, drop: char -> bool): (t: string)
    ensures |t| <= |s|
  {
    if s == [] || !drop(s[|s| - 1]) then s else TrimRight(s[..|s| - 1], drop)
  }

  lemma {:induction false} TrimLeftDrops(s: string, drop: char -> bool)
    ensures var t := TrimLeft(s, drop); (t == [] || !drop(t[0])) && t == s[|s| - |t|..]
    ensures forall i | 0 <= i < |s| - |TrimLeft(s, drop)| :: drop(s[i])
  {
    if s != [] && drop(s[0]) {
      TrimLeftDrops(s[1..], drop);
      forall i | 0 <= i < |s| - |TrimLeft(s, drop)|
        ensures drop(s[i])
      {
        assert i > 0 ==> s[i] == s[1..][i - 1];
      }
    }
  }

  lemma {:induction false} TrimRightDrops(s: string, drop: char -> bool)
    ensures var t := TrimRight(s, drop); (t == [] || !drop(t[|t| - 1])) && t == s[..|t|]
    ensures forall i | |TrimRight(s, drop)| <= i < |s| :: drop(s[i])
  {
    if s != [] && drop(s[|s| - 1]) {
      TrimRightDrops(s[..|s| - 1], drop);
      forall i | |TrimRight(s, drop)| <= i < |s|
        ensures drop(s[i])
      {
        assert i < |s| - 1 ==> s[i] == s[..|s| - 1][i];
      }
    }
  }

  /** strings.TrimFunc: the longest middle that neither starts nor ends with a dropped character. */
  function Trim(s: string, drop: char -> bool): string {
    TrimRight(TrimLeft(s, drop), drop)
  }

  function TrimSpace(s: string): string {
    Trim(s, IsSpace)
  }

  ghost predicate All(s: string, p: char -> bool) {
    forall c | c in s :: p(c)
  }

  lemma {:induction false} TrimLeftPadded(pad: string, s: string, drop: char -> bool)
    requires All(pad, drop) && (s == [] || !drop(s[0]))
    ensures TrimLeft(pad + s, drop) == s
  {
    if pad == [] {
      assert pad + s == s;
    } else {
      assert pad[0] in pad && (pad + s)[1..] == pad[1..] + s;
      TrimLeftPadded(pad[1..], s, drop);
    }
  }

  lemma {:induction false} TrimRightPadded(s: string, pad: string, drop: char -> bool)
    requires All(pad, drop) && (s == [] || !drop(s[|s| - 1]))
    ensures TrimRight(s + pad, drop) == s
  {
    if pad == [] {
      assert s + pad == s;
    } else {
      assert pad[|pad| - 1] in pad && (s + pad)[..|s + pad| - 1] == s + pad[..|pad| - 1];
      TrimRightPadded(s, pad[..|pad| - 1], drop);
    }
  }

  /** A string with sound ends loses exactly its padding. */
  lemma TrimPadded(left: string, s: string, right: string, drop: char -> bool)
    requires All(left, drop) && All(right, drop)
    requires s != [] && !drop(s[0]) && !drop(s[|s| - 1])
    ensures Trim(left + s + right, drop) == s
  {
    assert left + s + right == left + (s + right);
    TrimLeftPadded(left, s + right, drop);
    TrimRightPadded(s, right, drop);
  }

  lemma TrimKeepsMembers(s: string, drop: char -> bool)
    ensures All(Trim(s, drop), c => c in s)
    ensures Trim(s, drop) != [] ==> !drop(Trim(s, drop)[0]) && !drop(Trim(s, drop)[|Trim(s, drop)| - 1])
  {
    var t := TrimLeft(s, drop);
    var u := TrimRight(t, drop);
    TrimLeftDrops(s, drop);
    TrimRightDrops(t, drop);
    assert forall c | c in u :: c in t;
    assert forall c | c in t :: c in s;
    assert u != [] ==> u[0] == t[0];
  }

  /* ---------- Decimal digits ---------- */

  predicate IsDigit(c: char) {
    '0' <= c <= '9'
  }

  function DigitOf(d: nat): (c: char)
    requires d < 10
    ensures IsDigit(c) && c as int == d + '0' as int
  {
    (d + '0' as int) as char
  }

  function DigitValue(c: char): (d: nat)
    requires IsDigit(c)
    ensures d < 10 && DigitOf(d) == c
  {
    c as int - '0' as int
  }

  /** The value of a string of digits. */
  function Value(s: string): nat
    requires forall i | 0 <= i < |s| :: IsDigit(s[i])
  {
    if s == [] then 0 else 10 * Value(s[..|s| - 1]) + DigitValue(s[|s| - 1])
  }

  /** strconv.FormatInt for what is never negative. */
  function Decimal(n: nat): (s: string)
    ensures s != [] && forall i | 0 <= i < |s| :: IsDigit(s[i])
  {
    if n < 10 then [DigitOf(n)] else Decimal(n / 10) + [DigitOf(n % 10)]
  }

  lemma {:induction false} ValueOfDecimal(n: nat)
    ensures Value(Decimal(n)) == n
  {
    if n >= 10 {
      ValueOfDecimal(n / 10);
      assert Decimal(n)[..|Decimal(n)| - 1] == Decimal(n / 10);
    } else {
      assert Decimal(n)[..0] == [];
    }
  }
}
