/** Printing and parsing natural numbers in a base, digit by digit, as strconv and fmt do. */
module Digits {
  import opened Bytes

  const ZERO: byte := 48

  /** The character of a digit: 0-9, then a-f. */
  function Digit(d: nat): byte
    requires d < 16
  {
    if d < 10 then ZERO + d else 87 + d
  }

  function DigitValue(b: byte): nat {
    if 48 <= b <= 57 then b - 48 else if 97 <= b <= 102 then b - 87 else 16
  }

  function Print(base: nat, n: nat): (r: seq<byte>)
    requires 2 <= base <= 16
    ensures |r| >= 1
    decreases n
  {
    if n < base then [Digit(n)] else Print(base, n / base) + [Digit(n % base)]
  }

  predicate AllDigits(base: nat, s: seq<byte>) {
    forall i :: 0 <= i < |s| ==> DigitValue(s[i]) < base
  }

  /** The number a digit string denotes. */
  function Value(base: nat, s: seq<byte>): nat {
    if s == [] then 0 else Value(base, s[..|s| - 1]) * base + DigitValue(s[|s| - 1])
  }

  lemma LastDigit(base: nat, n: nat)
    requires base >= 2
    ensures n / base * base + n % base == n && n % base < base
  {
  }

  lemma OneDigit(base: nat, d: nat)
    requires 2 <= base <= 16 && d < base
    ensures AllDigits(base, [Digit(d)]) && Value(base, [Digit(d)]) == d
  {
    assert [Digit(d)][..0] == [];
  }

  lemma AppendDigit(base: nat, s: seq<byte>, d: nat)
    requires 2 <= base <= 16 && d < base && AllDigits(base, s)
    ensures AllDigits(base, s + [Digit(d)]) && Value(base, s + [Digit(d)]) == Value(base, s) * base + d
  {
    var t := s + [Digit(d)];
    assert t[..|t| - 1] == s && t[|t| - 1] == Digit(d);
  }

  lemma {:induction false} PrintedDigits(base: nat, n: nat)
    requires 2 <= base <= 16
    ensures AllDigits(base, Print(base, n)) && Value(base, Print(base, n)) == n
    decreases n
  {
    if n < base {
      OneDigit(base, n);
    } else {
      PrintedDigits(base, n / base);
      LastDigit(base, n);
      AppendDigit(base, Print(base, n / base), n % base);
    }
  }

  function Power(base: nat, k: nat): nat {
    if k == 0 then 1 else base * Power(base, k - 1)
  }

  lemma Scales(x: nat, y: nat, base: nat)
    requires x <= y
    ensures x * base <= y * base
  {
    assert y * base == x * base + (y - x) * base;
  }

  lemma QuotientBelow(n: nat, base: nat, q: nat)
    requires base >= 2 && n < base * q
    ensures n / base < q
  {
    LastDigit(base, n);
    if q <= n / base {
      Scales(q, n / base, base);
    }
  }

  lemma PrintStep(base: nat, n: nat)
    requires 2 <= base <= 16 && n >= base
    ensures 0 <= n / base < n && |Print(base, n)| == |Print(base, n / base)| + 1
  {
  }

  lemma PowerStep(base: nat, k: nat)
    requires base >= 2 && k >= 1
    ensures Power(base, k) == base * Power(base, k - 1)
    ensures k == 1 ==> Power(base, k) == base
  {
    if k == 1 {
      assert Power(base, 0) == 1;
    }
  }

  /** A number below base^k prints with at most k digits. */
  lemma {:induction false} PrintLength(base: nat, n: nat, k: nat)
    requires 2 <= base <= 16 && k >= 1 && n < Power(base, k)
    ensures |Print(base, n)| <= k
    decreases n
  {
    PowerStep(base, k);
    if n >= base {
      var q, p := n / base, Power(base, k - 1);
      QuotientBelow(n, base, p);
      PrintStep(base, n);
      assert k > 1;
      PrintLength(base, q, k - 1);
    }
  }

  function Zeros(k: nat): seq<byte> {
    seq(k, _ => ZERO)
  }

  /** Left padding with zeros to a width. */
  function Pad(width: nat, s: seq<byte>): seq<byte> {
    Zeros(Max(0, width - |s|)) + s
  }

  lemma {:induction false} LeadingZeros(base: nat, k: nat, s: seq<byte>)
    requires base >= 2 && AllDigits(base, s)
    ensures AllDigits(base, Zeros(k) + s) && Value(base, Zeros(k) + s) == Value(base, s)
    decreases |s|, k
  {
    var t := Zeros(k) + s;
    if s != [] {
      assert t[..|t| - 1] == Zeros(k) + s[..|s| - 1];
      LeadingZeros(base, k, s[..|s| - 1]);
    } else if k > 0 {
      assert t[..|t| - 1] == Zeros(k - 1) + s;
      LeadingZeros(base, k - 1, s);
    }
  }

  /** Digits of a number: in the base, of that value, and with no zero in front beyond the width. */
  predicate Spells(digits: seq<byte>, base: nat, width: nat, n: nat) {
    && digits != [] && |digits| >= width && AllDigits(base, digits) && Value(base, digits) == n
    && (|digits| > width && |digits| > 1 ==> digits[0] != ZERO)
  }

  /** A number is printed without a zero in front. */
  lemma {:induction false} FirstDigit(base: nat, n: nat)
    requires 2 <= base <= 16
    ensures |Print(base, n)| > 1 ==> Print(base, n)[0] != ZERO
    ensures n > 0 ==> Print(base, n)[0] != ZERO
    decreases n
  {
    if n >= base {
      LastDigit(base, n);
      QuotientPositive(n, base);
      FirstDigit(base, n / base);
    }
  }

  lemma QuotientPositive(n: nat, base: nat)
    requires 2 <= base <= n
    ensures 0 < n / base < n
  {
  }

  lemma PrintSpells(base: nat, n: nat)
    requires 2 <= base <= 16
    ensures Spells(Print(base, n), base, 0, n)
  {
    PrintedDigits(base, n);
    FirstDigit(base, n);
  }

  /** strconv.ParseUint. */
  function ParseUint(s: seq<byte>, base: nat, limit: nat): Option<nat> {
    if s == [] || !AllDigits(base, s) || Value(base, s) >= limit then None else Some(Value(base, s))
  }

  /** strconv.ParseInt in base 10: an optional sign, and the asymmetric range of two's complement. */
  function ParseInt(s: seq<byte>, half: nat): Option<int> {
    if s == [] then None
    else
      var neg := s[0] == 45;
      var digits := if neg || s[0] == 43 then s[1..] else s;
      match ParseUint(digits, 10, 2 * half)
      case None => None
      case Some(v) =>
        if v > half || (!neg && v == half) then None
        else
          var signed: int := if neg then 0 - v else v;
          Some(signed)
  }

  lemma ParsePrinted(base: nat, width: nat, n: nat, limit: nat)
    requires 2 <= base <= 16 && n < limit
    ensures ParseUint(Pad(width, Print(base, n)), base, limit) == Some(n)
  {
    PrintedDigits(base, n);
    LeadingZeros(base, Max(0, width - |Print(base, n)|), Print(base, n));
  }

  lemma ParseIntPrinted(n: nat, half: nat)
    requires n < half
    ensures ParseInt(Print(10, n), half) == Some(n)
  {
    PrintedDigits(10, n);
    assert DigitValue(Print(10, n)[0]) < 10;
  }
}
