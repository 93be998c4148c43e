/**
 * Fixed-width decimal rendering (`itoa`, logd/log.go:447-462): the digits of a non-negative
 * integer, zero-padded on the left to a minimum width, assembled backwards in a 20-byte
 * scratch array and appended to a buffer.
 */
module Digits {

  /** The largest value of Go's 64-bit `int`. */
  const MaxInt: int := 0x7FFF_FFFF_FFFF_FFFF

  /** Size of itoa's scratch array. */
  const ScratchSize: nat := 20

  predicate IsDigit(c: char) {
    '0' <= c <= '9'
  }

  function Digit(d: int): (c: char)
    requires 0 <= d < 10
    ensures IsDigit(c) && c as int - '0' as int == d
  {
    ('0' as int + d) as char
  }

  /** The shortest decimal representation of n. */
  function Decimal(n: nat): (s: string)
    ensures 1 <= |s|
    ensures forall k :: 0 <= k < |s| ==> IsDigit(s[k])
    decreases n
  {
    if n < 10 then [Digit(n)] else Decimal(n / 10) + [Digit(n % 10)]
  }

  /** k zeros; none when k is not positive. */
  function Zeros(k: int): (s: string)
    ensures |s| == if k <= 0 then 0 else k
    ensures forall j :: 0 <= j < |s| ==> s[j] == '0'
    decreases k
  {
    if k <= 0 then [] else Zeros(k - 1) + ['0']
  }

  /** The decimal digits of n, zero-padded on the left to at least wid characters. */
  function PadDecimal(n: nat, wid: int): string {
    Zeros(wid - |Decimal(n)|) + Decimal(n)
  }

  function DigitValue(c: char): (d: nat)
    requires IsDigit(c)
    ensures d < 10
  {
    c as int - '0' as int
  }

  /** The value of a string of decimal digits, most significant first (the reference parser). */
  function ValueOf(s: string): (v: nat)
    requires forall k :: 0 <= k < |s| ==> IsDigit(s[k])
    decreases |s|
  {
    if s == [] then 0 else ValueOf(s[..|s| - 1]) * 10 + DigitValue(s[|s| - 1])
  }

  function Pow10(k: nat): (p: nat)
    ensures 1 <= p
    decreases k
  {
    if k == 0 then 1 else 10 * Pow10(k - 1)
  }

  /** Every Go int has at most 19 decimal digits. */
  lemma Pow10Bound()
    ensures MaxInt < Pow10(19)
  {
    assert Pow10(4) == 10_000;
    assert Pow10(8) == 100_000_000;
    assert Pow10(12) == 1_000_000_000_000;
    assert Pow10(16) == 10_000_000_000_000_000;
    assert Pow10(19) == 10_000_000_000_000_000_000;
  }

  /** Reading back the digits of n gives n. */
  lemma {:induction false} DecimalRoundTrip(n: nat)
    ensures ValueOf(Decimal(n)) == n
    decreases n
  {
    if n >= 10 {
      DecimalRoundTrip(n / 10);
      var s := Decimal(n);
      assert s[..|s| - 1] == Decimal(n / 10);
    }
  }

  /** The representation has no leading zero, except for zero itself. */
  lemma {:induction false} DecimalCanonical(n: nat)
    ensures Decimal(n)[0] == '0' <==> n == 0
    decreases n
  {
    if n >= 10 {
      DecimalCanonical(n / 10);
    }
  }

  /** n has at most k digits when it is below 10^k. */
  lemma {:induction false} DecimalLength(n: nat, k: nat)
    requires 1 <= k && n < Pow10(k)
    ensures |Decimal(n)| <= k
    decreases k
  {
    if n >= 10 {
      assert Pow10(k) == 10 * Pow10(k - 1);
      assert Pow10(0) == 1;
      DecimalLength(n / 10, k - 1);
    }
  }

  /** Leading zeros do not change the value. */
  lemma {:induction false} ZerosValue(k: int, s: string)
    requires forall j :: 0 <= j < |s| ==> IsDigit(s[j])
    ensures ValueOf(Zeros(k) + s) == ValueOf(s)
    decreases |s|, k
  {
    if s == [] {
      assert Zeros(k) + s == Zeros(k);
      if k > 0 {
        ZerosValue(k - 1, s);
        assert Zeros(k)[..|Zeros(k)| - 1] == Zeros(k - 1) + s;
      }
    } else {
      var t := Zeros(k) + s;
      assert t[..|t| - 1] == Zeros(k) + s[..|s| - 1];
      ZerosValue(k, s[..|s| - 1]);
    }
  }

  /**
   * What itoa appends: exactly max(wid, number of digits of n) ASCII digits whose decimal
   * value is n (so a negative width means no padding).
   */
  lemma PadDecimalMeaning(n: nat, wid: int)
    ensures var s := PadDecimal(n, wid);
      && |s| == (if wid > |Decimal(n)| then wid else |Decimal(n)|)
      && (forall k :: 0 <= k < |s| ==> IsDigit(s[k]))
      && ValueOf(s) == n
  {
    ZerosValue(wid - |Decimal(n)|, Decimal(n));
    DecimalRoundTrip(n);
  }

  /** One iteration of itoa's loop: the last character is the lowest digit. */
  lemma PadDecimalStep(n: nat, wid: int)
    requires n >= 10 || wid > 1
    ensures PadDecimal(n, wid) == PadDecimal(n / 10, wid - 1) + [Digit(n % 10)]
  {
    if n < 10 {
      assert Decimal(n / 10) == ['0'];
      assert Zeros(wid - 1) == Zeros(wid - 2) + ['0'];
    }
  }

  /**
   * itoa(buf, i, wid): appends PadDecimal(i, wid) to buf. The digits are written from the
   * end of a 20-byte scratch array towards its start.
   */
  method Itoa(buf: string, i: int, wid: int) returns (r: string)
    requires 0 <= i <= MaxInt && wid <= ScratchSize as int
    ensures r == buf + PadDecimal(i, wid)
  {
    assert |Decimal(i)| <= 19 by {
      Pow10Bound();
      DecimalLength(i, 19);
    }
    var b := new char[ScratchSize];
    var bp := ScratchSize - 1;
    var n: nat, w := i, wid;
    while n >= 10 || w > 1
      invariant 0 <= bp < ScratchSize
      invariant |PadDecimal(n, w)| <= bp + 1
      invariant PadDecimal(i, wid) == PadDecimal(n, w) + b[bp + 1..]
      decreases bp
    {
      PadDecimalStep(n, w);
      w := w - 1;
      var q := n / 10;
      b[bp] := Digit(n - q * 10);
      bp := bp - 1;
      n := q;
    }
    b[bp] := Digit(n);
    r := buf + b[bp..];
  }
}
