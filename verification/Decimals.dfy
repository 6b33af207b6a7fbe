/**
 Decimal texts of natural numbers, as bytes.
 */
module Decimals {
  import opened Wrappers
  import opened CanonicalJson

  function Decimal(n: nat): (t: Text)
    ensures t != []
  {
    if n < 10 then [48 + n] else Decimal(n / 10) + [48 + n % 10]
  }

  predicate Digits(t: Text) { forall i | 0 <= i < |t| :: 48 <= t[i] <= 57 }

  function Number(t: Text): nat
    requires Digits(t)
  {
    if t == [] then 0 else 10 * Number(t[..|t| - 1]) + (t[|t| - 1] - 48)
  }

  // The text of a number has no leading zero and reads back as the number.
  lemma {:induction false} DecimalReads(n: nat)
    ensures Digits(Decimal(n)) && Number(Decimal(n)) == n
    ensures Decimal(n)[0] == 48 <==> n == 0
    ensures n == 0 ==> Decimal(n) == [48]
  {
    if n >= 10 {
      DecimalReads(n / 10);
      assert Decimal(n)[..|Decimal(n)| - 1] == Decimal(n / 10);
    } else {
      assert Decimal(n)[..0] == [];
    }
  }

  lemma FarApart(m: nat, q: nat, d: nat)
    requires q < d
    ensures m * d >= m * q + m
  {
    var k := d - q - 1;
    assert m * d == m * q + m + m * k;
  }

  // Quotient and remainder are unique.
  lemma Unique(m: nat, q: nat, s: nat, d: nat, r: nat)
    requires s < m && r < m && m * q + s == m * d + r
    ensures q == d
  {
    if q < d { FarApart(m, q, d); }
    if d < q { FarApart(m, d, q); }
  }

  lemma TenTimes(n: nat, m: nat, q: nat, r: nat)
    requires n == 10 * m * q + r && r < 10 * m
    ensures n / 10 == m * q + r / 10 && r / 10 < m
  {
    var k := m * q;
    assert n == 10 * k + r;
  }

  lemma Divide(a: nat, m: nat) returns (q: nat, r: nat)
    requires m > 0
    ensures q == a / m && a == m * q + r && r < m
  {
    q, r := a / m, a % m;
  }

  lemma TenthOf(n: nat, m: nat)
    requires m > 0
    ensures n / 10 / m == n / (10 * m)
  {
    var q, r := Divide(n, 10 * m);
    var d, s := Divide(n / 10, m);
    TenTimes(n, m, q, r);
    Unique(m, q, r / 10, d, s);
  }

  // The last digit counts ones, and each one before it ten times as much.
  lemma {:induction false} DigitAt(n: nat, i: nat)
    requires i < |Decimal(n)|
    ensures Decimal(n)[|Decimal(n)| - 1 - i] == 48 + n / Tens(i) % 10
  {
    if n >= 10 && i > 0 {
      DigitAt(n / 10, i - 1);
      TenthOf(n, Tens(i - 1));
    }
  }

  // And a digit text without a leading zero is the text of the number it reads as.
  lemma {:induction false} ReadsDecimal(t: Text)
    requires t != [] && Digits(t) && (t[0] == 48 ==> |t| == 1)
    ensures Decimal(Number(t)) == t
  {
    var front, last := t[..|t| - 1], t[|t| - 1];
    assert last in t;
    if front == [] {
      assert t == [last];
    } else {
      ReadsDecimal(front);
      assert front[0] == t[0];
      Positive(front);
      assert Number(t) / 10 == Number(front) && Number(t) % 10 == last - 48;
      assert t == front + [last];
    }
  }

  lemma {:induction false} Positive(t: Text)
    requires t != [] && Digits(t) && t[0] != 48
    ensures Number(t) > 0
  {
    if |t| > 1 {
      Positive(t[..|t| - 1]);
    }
  }

  lemma DecimalExact(a: nat, b: nat)
    requires Decimal(a) == Decimal(b)
    ensures a == b
  {
    DecimalReads(a);
    DecimalReads(b);
  }

  /** Cursors: unsigned 64-bit offsets as canonical decimal texts. */

  const U64 := 0x1_0000_0000_0000_0000

  function EncodeCursor(offset: nat): Text { Decimal(offset) }

  // An absent cursor is the start; a malformed one, or one that does not fit,
  // is refused.
  function DecodeCursor(cursor: Option<Text>): Option<nat> {
    match cursor
    case None => Some(0)
    case Some(t) =>
      if t != [] && Digits(t) && (t == [48] || t[0] != 48) && Number(t) < U64 then Some(Number(t)) else None
  }

  // Decoding an encoded offset gives it back, and every accepted text is the
  // encoding of exactly the offset it decodes to.
  lemma CursorBijection(offset: nat, t: Text)
    requires offset < U64
    ensures DecodeCursor(Some(EncodeCursor(offset))) == Some(offset)
    ensures DecodeCursor(Some(t)) == Some(offset) <==> t == EncodeCursor(offset)
  {
    DecimalReads(offset);
    if DecodeCursor(Some(t)) == Some(offset) {
      ReadsDecimal(t);
    }
  }

  // Refusal is exactly being no encoding of a 64-bit offset.
  lemma CursorRefused(t: Text)
    ensures DecodeCursor(Some(t)).None? <==> forall n: nat | n < U64 :: EncodeCursor(n) != t
  {
    if DecodeCursor(Some(t)).Some? {
      ReadsDecimal(t);
      assert EncodeCursor(Number(t)) == t;
    }
    forall n: nat | n < U64 && EncodeCursor(n) == t ensures DecodeCursor(Some(t)).Some? {
      CursorBijection(n, t);
    }
  }

  /** How long the texts are. */

  lemma {:induction false} DecimalGrows(a: nat, b: nat)
    requires a <= b
    ensures |Decimal(a)| <= |Decimal(b)|
    decreases b
  {
    if a >= 10 {
      DecimalGrows(a / 10, b / 10);
    }
  }

  lemma {:induction false} DecimalShort(n: nat, digits: nat, bound: nat)
    requires n < bound && bound == Tens(digits)
    ensures |Decimal(n)| <= if digits == 0 then 1 else digits
    decreases digits
  {
    if digits > 1 {
      DecimalShort(n / 10, digits - 1, Tens(digits - 1));
    }
  }

  function Tens(k: nat): (p: nat)
    ensures p > 0
  {
    if k == 0 then 1 else 10 * Tens(k - 1)
  }
}
