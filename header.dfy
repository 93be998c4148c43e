/**
 * The record header (logd/log.go:155-201): optional date and clock, the coloured level tag
 * (logd/log.go:36-42, 464-489) and the optional `file:line: ` location; and the `%v` format
 * built for Print (logd/log.go:504-511).
 *
 * The clock is an input: the local and the UTC reading of the same instant, as integer
 * fields. Go strings are byte strings; here each byte is one `char`.
 */
module Header {
  import opened Flags
  import opened Digits

  /** Calendar and clock fields of a time.Time reading (t.Date(), t.Clock(), t.Nanosecond()). */
  datatype DateTime = DateTime(year: int, month: int, day: int,
                               hour: int, minute: int, second: int, nanosecond: int)
  {
    predicate Valid() {
      && 0 <= year <= MaxInt && 1 <= month <= 12 && 1 <= day <= 31
      && 0 <= hour < 24 && 0 <= minute < 60 && 0 <= second < 60
      && 0 <= nanosecond < 1_000_000_000
    }
  }

  /** One instant read in the local zone and in UTC. */
  datatype Instant = Instant(local: DateTime, utc: DateTime) {
    predicate Valid() {
      local.Valid() && utc.Valid()
    }
  }

  // ---------------------------------------------------------------- level names and tags

  /** The level-name table `levelMaps`; a missing key reads as the empty string. */
  function LevelName(lvl: int): (name: string)
    ensures name != [] <==> lvl in {1, 2, 4, 8, 16}
  {
    match lvl
    case 1 => "DEBUG"
    case 2 => "INFO"
    case 4 => "WARN"
    case 8 => "ERROR"
    case 16 => "FATAL"
    case _ => ""
  }

  // ANSI colour numbers: Gray = 90, Red, Green, Yellow, Blue, Magenta.
  const Gray: nat := 90
  const Red: nat := 91
  const Green: nat := 92
  const Yellow: nat := 93
  const Blue: nat := 94
  const Magenta: nat := 95

  const Esc: char := 27 as char

  /** ASCII upper-casing of one character. */
  function UpperChar(c: char): char {
    if 'a' <= c <= 'z' then (c as int - 32) as char else c
  }

  /** strings.ToUpper, restricted to ASCII letters. */
  function Upper(s: string): (u: string)
    ensures |u| == |s|
    ensures forall k :: 0 <= k < |s| ==> u[k] == UpperChar(s[k])
  {
    seq(|s|, k requires 0 <= k < |s| => UpperChar(s[k]))
  }

  /** `%5s`: s right-aligned in a field of at least w columns. */
  function PadLeft(s: string, w: int): (r: string)
    ensures |r| == if w > |s| then w else |s|
  {
    seq(if w > |s| then w - |s| else 0, _ => ' ') + s
  }

  /** `\033[<color>m[%5s]\033[0m` */
  function Tag(color: nat, name: string): string {
    [Esc] + "[" + Decimal(color) + "m[" + PadLeft(name, 5) + "]" + [Esc] + "[0m"
  }

  /** getColorLevel: the five level names wrapped in their colour; anything else upper-cased. */
  function ColorLevel(level: string): string {
    var u := Upper(level);
    if u == "DEBUG" then Tag(Green, u)
    else if u == "INFO" then Tag(Blue, u)
    else if u == "WARN" then Tag(Magenta, u)
    else if u == "ERROR" then Tag(Yellow, u)
    else if u == "FATAL" then Tag(Red, u)
    else u
  }

  /** The level number of severity index k (1, 2, 4, 8, 16). */
  function SeverityLevel(k: nat): (lvl: int)
    requires k < LevelCount
    ensures lvl == SeverityBit(k) as int
  {
    match k
    case 0 => 1
    case 1 => 2
    case 2 => 4
    case 3 => 8
    case 4 => 16
  }

  /** The colour getColorLevel gives severity index k: green, blue, magenta, yellow, red. */
  function SeverityColor(k: nat): nat
    requires k < LevelCount
  {
    [Green, Blue, Magenta, Yellow, Red][k]
  }

  /** Removes leading spaces. */
  function TrimLeft(s: string): (r: string)
    decreases |s|
  {
    if s != [] && s[0] == ' ' then TrimLeft(s[1..]) else s
  }

  /** A name without leading space survives `%5s` padding and trimming. */
  lemma {:induction false} TrimPadLeft(name: string, w: int)
    requires name != [] && name[0] != ' '
    ensures TrimLeft(PadLeft(name, w)) == name
    decreases w
  {
    if w > |name| {
      assert PadLeft(name, w)[1..] == PadLeft(name, w - 1);
      TrimPadLeft(name, w - 1);
    } else {
      assert PadLeft(name, w) == name;
    }
  }

  /** The layout of a colour tag with a two-digit colour and a name of at most five characters. */
  lemma TagShape(color: nat, name: string)
    requires 10 <= color < 100 && 1 <= |name| <= 5 && name[0] != ' '
    ensures var r := Tag(color, name);
      && |r| == 16
      && r[0] == Esc && r[1] == '[' && r[2..4] == Decimal(color) && r[4..6] == "m["
      && r[6..11] == PadLeft(name, 5) && TrimLeft(r[6..11]) == name
      && r[11] == ']' && r[12] == Esc && r[13..] == "[0m"
  {
    assert Decimal(color) == [Digit(color / 10), Digit(color % 10)];
    TrimPadLeft(name, 5);
  }

  /** getColorLevel wraps each of the five level names in its own colour. */
  lemma ColorLevelOfSeverity(k: nat)
    requires k < LevelCount
    ensures ColorLevel(LevelName(SeverityLevel(k)))
         == Tag(SeverityColor(k), LevelName(SeverityLevel(k)))
  {
    var name := LevelName(SeverityLevel(k));
    assert Upper(name) == name;
  }

  /**
   * The tag of a known level is 16 characters: ESC, '[', two colour digits, 'm', '[', the
   * name right-aligned in five columns, ']', ESC, "[0m"; trimming the field gives the name back.
   */
  lemma ColorLevelShape(k: nat)
    requires k < LevelCount
    ensures var name := LevelName(SeverityLevel(k));
      var r := ColorLevel(name);
      && |r| == 16
      && r[0] == Esc && r[1] == '[' && r[2..4] == Decimal(SeverityColor(k)) && r[4..6] == "m["
      && r[6..11] == PadLeft(name, 5) && TrimLeft(r[6..11]) == name
      && r[11] == ']' && r[12] == Esc && r[13..] == "[0m"
  {
    ColorLevelOfSeverity(k);
    TagShape(SeverityColor(k), LevelName(SeverityLevel(k)));
  }

  /** Different levels get different tags. */
  lemma ColorLevelDistinct(j: nat, k: nat)
    requires j < LevelCount && k < LevelCount && j != k
    ensures ColorLevel(LevelName(SeverityLevel(j))) != ColorLevel(LevelName(SeverityLevel(k)))
  {
    var nj, nk := LevelName(SeverityLevel(j)), LevelName(SeverityLevel(k));
    assert nj != nk by {
      assert SeverityLevel(j) != SeverityLevel(k);
    }
    ColorLevelShape(j);
    ColorLevelShape(k);
    var a, b := ColorLevel(nj), ColorLevel(nk);
    assert TrimLeft(a[6..11]) != TrimLeft(b[6..11]);
  }

  /** An unmapped level number yields an empty tag. */
  lemma ColorLevelUnmapped(lvl: int)
    requires lvl !in {1, 2, 4, 8, 16}
    ensures ColorLevel(LevelName(lvl)) == ""
  {
  }

  /** The name is matched case-insensitively: "warn" is tagged like "WARN". */
  lemma ColorLevelIgnoresCase(level: string)
    ensures ColorLevel(level) == ColorLevel(Upper(level))
  {
    assert Upper(Upper(level)) == Upper(level);
  }

  // ---------------------------------------------------------------- caller location

  /**
   * Lshortfile's file name: the text after the last '/' found at an index >= 1, or the whole
   * path when there is none.
   */
  function ShortName(file: string): (r: string)
    ensures |r| <= |file| && r == file[|file| - |r|..]
    ensures |r| < |file| ==> |file| - |r| - 1 >= 1 && file[|file| - |r| - 1] == '/'
    ensures forall k :: 1 <= k < |file| && |file| - |r| <= k ==> file[k] != '/'
    decreases |file|
  {
    if |file| <= 1 then file
    else if file[|file| - 1] == '/' then []
    else ShortName(file[..|file| - 1]) + [file[|file| - 1]]
  }

  /** The short name when the slash at index i >= 1 is the last one. */
  lemma ShortNameAt(file: string, i: nat)
    requires 1 <= i < |file| && file[i] == '/'
    requires forall k :: i < k < |file| ==> file[k] != '/'
    ensures ShortName(file) == file[i + 1..]
  {
    var r := ShortName(file);
    assert |r| < |file|;
  }

  /** The short name when no slash occurs at an index >= 1. */
  lemma ShortNameWhole(file: string)
    requires forall k :: 1 <= k < |file| ==> file[k] != '/'
    ensures ShortName(file) == file
  {
  }

  // ---------------------------------------------------------------- header sections

  /** `YYYY/MM/DD ` when Ldate is set. */
  function DateSection(flag: Word, t: DateTime): string
    requires t.Valid()
  {
    if Has(flag, Ldate) then
      PadDecimal(t.year, 4) + "/" + PadDecimal(t.month, 2) + "/" + PadDecimal(t.day, 2) + " "
    else ""
  }

  /** `HH:MM:SS`, then `.uuuuuu` with Lmicroseconds, then a space, when Ltime or Lmicroseconds is set. */
  function ClockSection(flag: Word, t: DateTime): string
    requires t.Valid()
  {
    if Has(flag, Ltime | Lmicroseconds) then
      PadDecimal(t.hour, 2) + ":" + PadDecimal(t.minute, 2) + ":" + PadDecimal(t.second, 2)
      + (if Has(flag, Lmicroseconds) then "." + PadDecimal(t.nanosecond / 1000, 6) else "")
      + " "
    else ""
  }

  /** `file:line: ` when Lshortfile or Llongfile is set; Lshortfile wins. */
  function FileSection(flag: Word, file: string, line: nat): string {
    if Has(flag, Lshortfile | Llongfile) then
      (if Has(flag, Lshortfile) then ShortName(file) else file) + ":" + Decimal(line) + ": "
    else ""
  }

  /** Without Ldate, Ltime and Lmicroseconds the header has neither a date nor a clock. */
  lemma NoDateNoClock(flag: Word, t: DateTime)
    requires t.Valid() && !Has(flag, Ldate | Ltime | Lmicroseconds)
    ensures DateSection(flag, t) + ClockSection(flag, t) == ""
  {
    assert !Has(flag, Ldate) && !Has(flag, Ltime | Lmicroseconds);
  }

  /** The reading formatHeader renders: UTC when LUTC is set. */
  function Reading(flag: Word, now: Instant): DateTime {
    if Has(flag, LUTC) then now.utc else now.local
  }

  /** The whole prefix formatHeader appends. */
  function HeaderText(flag: Word, lvl: int, now: Instant, file: string, line: nat): string
    requires now.Valid()
  {
    var t := Reading(flag, now);
    DateSection(flag, t) + ClockSection(flag, t) + ColorLevel(LevelName(lvl)) + " "
    + FileSection(flag, file, line)
  }

  /**
   * With Ldate the date section reads back: four year digits, '/', two month digits, '/',
   * two day digits and a space (for years below 10000).
   */
  lemma DateSectionRoundTrip(flag: Word, t: DateTime)
    requires t.Valid() && t.year < 10000 && Has(flag, Ldate)
    ensures var s := DateSection(flag, t);
      && |s| == 11 && s[4] == '/' && s[7] == '/' && s[10] == ' '
      && ValueOf(s[..4]) == t.year && ValueOf(s[5..7]) == t.month && ValueOf(s[8..10]) == t.day
  {
    ReadsBack(t.year, 4, 10000);
    ReadsBack(t.month, 2, 100);
    ReadsBack(t.day, 2, 100);
    var s := DateSection(flag, t);
    assert s[..4] == PadDecimal(t.year, 4);
    assert s[5..7] == PadDecimal(t.month, 2);
    assert s[8..10] == PadDecimal(t.day, 2);
  }

  /** With Lmicroseconds the clock section reads back hours, minutes, seconds and microseconds. */
  lemma ClockSectionRoundTrip(flag: Word, t: DateTime)
    requires t.Valid() && Has(flag, Lmicroseconds)
    ensures var s := ClockSection(flag, t);
      && |s| == 16 && s[2] == ':' && s[5] == ':' && s[8] == '.' && s[15] == ' '
      && ValueOf(s[..2]) == t.hour && ValueOf(s[3..5]) == t.minute
      && ValueOf(s[6..8]) == t.second && ValueOf(s[9..15]) == t.nanosecond / 1000
  {
    assert Has(flag, Ltime | Lmicroseconds);
    ReadsBack(t.hour, 2, 100);
    ReadsBack(t.minute, 2, 100);
    ReadsBack(t.second, 2, 100);
    ReadsBack(t.nanosecond / 1000, 6, 1_000_000);
    var a, b, c, d := PadDecimal(t.hour, 2), PadDecimal(t.minute, 2), PadDecimal(t.second, 2),
                      PadDecimal(t.nanosecond / 1000, 6);
    assert ClockSection(flag, t) == a + ":" + b + ":" + c + "." + d + " ";
    ClockFields(a, b, c, d);
  }

  /** Where the four fields of `HH:MM:SS.uuuuuu ` sit. */
  lemma ClockFields(a: string, b: string, c: string, d: string)
    requires |a| == 2 && |b| == 2 && |c| == 2 && |d| == 6
    ensures var s := a + ":" + b + ":" + c + "." + d + " ";
      && |s| == 16 && s[2] == ':' && s[5] == ':' && s[8] == '.' && s[15] == ' '
      && s[..2] == a && s[3..5] == b && s[6..8] == c && s[9..15] == d
  {
    var s := a + ":" + b + ":" + c + "." + d + " ";
    assert s[..2] == a;
    assert s[3..5] == b;
    assert s[6..8] == c;
    assert s[9..15] == d;
  }

  /**
   * With Ltime and without Lmicroseconds (as Reset's logger has it) the clock section is
   * `HH:MM:SS ` and reads back hours, minutes and seconds.
   */
  lemma ClockSecondsRoundTrip(flag: Word, t: DateTime)
    requires t.Valid() && Has(flag, Ltime) && !Has(flag, Lmicroseconds)
    ensures var s := ClockSection(flag, t);
      && |s| == 9 && s[2] == ':' && s[5] == ':' && s[8] == ' '
      && ValueOf(s[..2]) == t.hour && ValueOf(s[3..5]) == t.minute && ValueOf(s[6..8]) == t.second
  {
    assert Has(flag, Ltime | Lmicroseconds);
    ReadsBack(t.hour, 2, 100);
    ReadsBack(t.minute, 2, 100);
    ReadsBack(t.second, 2, 100);
    var a, b, c := PadDecimal(t.hour, 2), PadDecimal(t.minute, 2), PadDecimal(t.second, 2);
    assert ClockSection(flag, t) == a + ":" + b + ":" + c + "" + " ";
    var s := a + ":" + b + ":" + c + "" + " ";
    assert s[..2] == a;
    assert s[3..5] == b;
    assert s[6..8] == c;
  }

  /** A value below 10^w is rendered in exactly w digits that read back as the value. */
  lemma ReadsBack(n: nat, w: nat, bound: nat)
    requires 1 <= w && bound == Pow10(w) && n < bound
    ensures |PadDecimal(n, w)| == w
    ensures forall k :: 0 <= k < w ==> IsDigit(PadDecimal(n, w)[k])
    ensures ValueOf(PadDecimal(n, w)) == n
  {
    DecimalLength(n, w);
    PadDecimalMeaning(n, w);
  }

  /** The date, clock and location sections do not look at LUTC. */
  lemma SectionsIgnoreUtc(flag: Word, g: Word, t: DateTime, file: string, line: nat)
    requires t.Valid() && g & !LUTC == flag & !LUTC
    ensures DateSection(g, t) == DateSection(flag, t)
    ensures ClockSection(g, t) == ClockSection(flag, t)
    ensures FileSection(g, file, line) == FileSection(flag, file, line)
  {
    SameBitsOutsideUtc(flag, g, Ldate);
    SameBitsOutsideUtc(flag, g, Ltime | Lmicroseconds);
    SameBitsOutsideUtc(flag, g, Lmicroseconds);
    SameBitsOutsideUtc(flag, g, Lshortfile | Llongfile);
    SameBitsOutsideUtc(flag, g, Lshortfile);
  }

  lemma SameBitsOutsideUtc(flag: Word, g: Word, bits: Word)
    requires g & !LUTC == flag & !LUTC && bits & LUTC == 0
    ensures Has(g, bits) == Has(flag, bits)
  {
  }

  /**
   * Toggling LUTC changes only which reading is rendered: the header is the one the other
   * flag word gives for the swapped readings, so the level tag and location are unchanged.
   */
  lemma UtcSwapsReading(flag: Word, lvl: int, now: Instant, file: string, line: nat)
    requires now.Valid()
    ensures HeaderText(flag ^ LUTC, lvl, now, file, line)
         == HeaderText(flag, lvl, Instant(now.utc, now.local), file, line)
  {
    var g := flag ^ LUTC;
    assert Has(g, LUTC) == !Has(flag, LUTC);
    assert Reading(g, now) == Reading(flag, Instant(now.utc, now.local));
    SectionsIgnoreUtc(flag, g, Reading(g, now), file, line);
  }

  // ---------------------------------------------------------------- Print's format

  /** smartFormat: one `%v` per argument, then a newline. */
  method SmartFormat(argc: nat) returns (format: string)
    ensures |format| == 2 * argc + 1
    ensures forall k :: 0 <= k < argc ==> format[2 * k..2 * k + 2] == "%v"
    ensures format[2 * argc] == '\n'
  {
    format := "";
    var i := 0;
    while i < argc
      invariant 0 <= i <= argc
      invariant |format| == 2 * i
      invariant forall k :: 0 <= k < i ==> format[2 * k..2 * k + 2] == "%v"
    {
      format := format + "%v";
      i := i + 1;
    }
    format := format + "\n";
  }
}
