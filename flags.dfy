/**
 * The logger's flag word: five severity bits and eight behaviour bits
 * (logd/log.go:16-34), and the threshold rule applied by SetLevel
 * (logd/log.go:306-318).
 *
 * Go's `int` flag word is modelled as its 64-bit pattern.
 */
module Flags {

  type Word = bv64

  // Severity bits
  const Ldebug: Word := 1
  const Linfo: Word := 2
  const Lwarn: Word := 4
  const Lerror: Word := 8
  const Lfatal: Word := 16
  // Behaviour bits
  const LAsync: Word := 32
  const Ldate: Word := 64
  const Ltime: Word := 128
  const Lmicroseconds: Word := 256
  const Llongfile: Word := 512
  const Lshortfile: Word := 1024
  const LUTC: Word := 2048
  const Ldaily: Word := 4096

  const Lall: Word := Ldebug | Linfo | Lwarn | Lerror | Lfatal
  const LstdFlags: Word := Ldate | Lmicroseconds | Lshortfile | Lall

  /** Number of severity levels (the size of the level-name table). */
  const LevelCount: nat := 5

  /** `flag & bits != 0` */
  predicate Has(flag: Word, bits: Word) {
    flag & bits != 0
  }

  /** The k-th severity bit: DEBUG, INFO, WARN, ERROR, FATAL for k = 0 .. 4. */
  function SeverityBit(k: nat): (b: Word)
    requires k < LevelCount
    ensures b & Lall == b && b != 0
  {
    match k
    case 0 => Ldebug
    case 1 => Linfo
    case 2 => Lwarn
    case 3 => Lerror
    case 4 => Lfatal
  }

  /** Bit k of an integer in two's complement: `x & 1` after k arithmetic right shifts. */
  function IntBit(x: int, k: nat): bool
    decreases k
  {
    if k == 0 then x % 2 == 1 else IntBit(x / 2, k - 1)
  }

  /**
   * The index of the lowest set bit of lvl among bits 0 .. 4, or 5 when none of them is set:
   * the number of iterations SetLevel's loop runs before it stops.
   */
  function Threshold(lvl: int): (i: nat)
    ensures i <= LevelCount
    ensures forall j :: 0 <= j < i ==> !IntBit(lvl, j)
    ensures i < LevelCount ==> IntBit(lvl, i)
  {
    if IntBit(lvl, 0) then 0
    else if IntBit(lvl, 1) then 1
    else if IntBit(lvl, 2) then 2
    else if IntBit(lvl, 3) then 3
    else if IntBit(lvl, 4) then 4
    else 5
  }

  /** The severity bits at index i and above, and none below. */
  function SeverityFrom(i: nat): (m: Word)
    requires i <= LevelCount
    ensures m & !Lall == 0
    ensures Has(m, Ldebug) <==> i <= 0
    ensures Has(m, Linfo) <==> i <= 1
    ensures Has(m, Lwarn) <==> i <= 2
    ensures Has(m, Lerror) <==> i <= 3
    ensures Has(m, Lfatal) <==> i <= 4
  {
    match i
    case 0 => Ldebug | Linfo | Lwarn | Lerror | Lfatal
    case 1 => Linfo | Lwarn | Lerror | Lfatal
    case 2 => Lwarn | Lerror | Lfatal
    case 3 => Lerror | Lfatal
    case 4 => Lfatal
    case 5 => 0
  }

  /**
   * The flag word after SetLevel(lvl): the behaviour bits of flag, and the severity bits
   * from the threshold of lvl upward.
   */
  function ApplyLevel(flag: Word, lvl: int): (r: Word)
    ensures r & !Lall == flag & !Lall
    ensures r & Lall == SeverityFrom(Threshold(lvl))
  {
    (flag & !Lall) | SeverityFrom(Threshold(lvl))
  }

  /**
   * After SetLevel(lvl), severity level k is enabled exactly when k is at or above the
   * lowest level bit set in lvl.
   */
  lemma LevelEnabledAfterSetLevel(flag: Word, lvl: int, k: nat)
    requires k < LevelCount
    ensures Has(ApplyLevel(flag, lvl), SeverityBit(k)) <==> Threshold(lvl) <= k
  {
    var m := SeverityFrom(Threshold(lvl));
    assert ApplyLevel(flag, lvl) & SeverityBit(k) == m & SeverityBit(k);
  }

  /** Setting the same level twice is the same as setting it once. */
  lemma SetLevelIdempotent(flag: Word, lvl: int)
    ensures ApplyLevel(ApplyLevel(flag, lvl), lvl) == ApplyLevel(flag, lvl)
  {
  }

  /** Only the last SetLevel call matters. */
  lemma SetLevelLastWins(flag: Word, first: int, second: int)
    ensures ApplyLevel(ApplyLevel(flag, first), second) == ApplyLevel(flag, second)
  {
  }

  /** The behaviour bits are never touched by SetLevel. */
  lemma SetLevelKeepsBehaviour(flag: Word, lvl: int, bit: Word)
    requires bit in {LAsync, Ldate, Ltime, Lmicroseconds, Llongfile, Lshortfile, LUTC, Ldaily}
    ensures Has(ApplyLevel(flag, lvl), bit) <==> Has(flag, bit)
  {
  }

  /**
   * SetLevel's closing statement `flag = ((flag >> i) | (Lall >> i)) << i` for the loop's
   * final i equals ApplyLevel.
   */
  lemma {:induction false} ShiftFormula(flag: Word, lvl: int, i: nat, f: Word)
    requires i == Threshold(lvl) && f == ((flag >> i) | (Lall >> i)) << i
    ensures f == ApplyLevel(flag, lvl)
  {
    match i
    case 0 =>
    case 1 =>
    case 2 =>
    case 3 =>
    case 4 =>
    case 5 =>
  }
}
