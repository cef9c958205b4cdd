/** Timestamp canonicalisation (RFC 3339, section 5.6): one text per instant, over whole documents. */
module Timestamps {

  // ------------------------------------------------------------------
  // Civil dates and day counts
  // ------------------------------------------------------------------

  predicate Leap(y: int) {
    y % 4 == 0 && (y % 100 != 0 || y % 400 == 0)
  }

  function DaysIn(y: int, m: int): int {
    if m == 2 then (if Leap(y) then 29 else 28)
    else if m == 4 || m == 6 || m == 9 || m == 11 then 30
    else 31
  }

  /** Days from 1 January of year 1 to 1 January of `y`. */
  function DaysBeforeYear(y: int): int {
    365 * (y - 1) + (y - 1) / 4 - (y - 1) / 100 + (y - 1) / 400
  }

  function DaysBeforeMonth(y: int, m: nat): int {
    if m <= 1 then 0 else DaysBeforeMonth(y, m - 1) + DaysIn(y, m - 1)
  }

  datatype Date = Date(year: int, month: nat, day: nat)

  predicate ValidDate(d: Date) {
    1 <= d.year <= 9999 && 1 <= d.month <= 12 && 1 <= d.day <= DaysIn(d.year, d.month)
  }

  /** Days from 1 January of year 1. */
  function Ordinal(d: Date): int {
    DaysBeforeYear(d.year) + DaysBeforeMonth(d.year, d.month) + d.day - 1
  }

  const LAST_DAY: int := 3_652_059

  lemma YearLength(y: int)
    ensures DaysBeforeYear(y + 1) == DaysBeforeYear(y) + if Leap(y) then 366 else 365
  {
    CountsOne(y, 4);
    CountsOne(y, 100);
    CountsOne(y, 400);
  }

  lemma CountsOne(y: int, k: int)
    requires k == 4 || k == 100 || k == 400
    ensures y / k - (y - 1) / k == if y % k == 0 then 1 else 0
  {
  }

  lemma MonthsOfYear(y: int)
    ensures DaysBeforeMonth(y, 13) == if Leap(y) then 366 else 365
  {
    MonthStep(y, 1); MonthStep(y, 2); MonthStep(y, 3); MonthStep(y, 4); MonthStep(y, 5); MonthStep(y, 6);
    MonthStep(y, 7); MonthStep(y, 8); MonthStep(y, 9); MonthStep(y, 10); MonthStep(y, 11); MonthStep(y, 12);
  }

  lemma MonthStep(y: int, m: nat)
    requires 1 <= m
    ensures DaysBeforeMonth(y, 1) == 0 && DaysBeforeMonth(y, m + 1) == DaysBeforeMonth(y, m) + DaysIn(y, m)
  {
  }

  lemma {:induction false} YearsAscend(y: int, z: int)
    requires y <= z
    ensures DaysBeforeYear(y) <= DaysBeforeYear(z)
    ensures y < z ==> DaysBeforeYear(y + 1) <= DaysBeforeYear(z)
    decreases z - y
  {
    if y < z {
      YearLength(z - 1);
      YearsAscend(y, z - 1);
    }
  }

  lemma {:induction false} MonthsAscend(y: int, m: nat, n: nat)
    requires 1 <= m <= n
    ensures DaysBeforeMonth(y, m) <= DaysBeforeMonth(y, n)
    ensures m < n ==> DaysBeforeMonth(y, m) + DaysIn(y, m) <= DaysBeforeMonth(y, n)
    decreases n
  {
    if m < n {
      MonthsAscend(y, m, n - 1);
    }
  }

  /** The year a day falls in, searched upward from `y`. */
  function YearFrom(n: int, y: int): int
    requires 1 <= y && n >= DaysBeforeYear(y)
    decreases n - DaysBeforeYear(y)
  {
    YearLength(y);
    if n < DaysBeforeYear(y + 1) then y else YearFrom(n, y + 1)
  }

  lemma {:induction false} YearFound(n: int, y: int)
    requires 1 <= y && n >= DaysBeforeYear(y)
    ensures var z := YearFrom(n, y);
      y <= z && DaysBeforeYear(z) <= n < DaysBeforeYear(z + 1)
    decreases n - DaysBeforeYear(y)
  {
    YearLength(y);
    if n >= DaysBeforeYear(y + 1) {
      YearFound(n, y + 1);
    }
  }

  /** The month a day of the year falls in, searched upward from `m`. */
  function MonthFrom(y: int, r: int, m: nat): nat
    requires 1 <= m <= 12
    decreases 12 - m
  {
    if m == 12 || r < DaysBeforeMonth(y, m + 1) then m else MonthFrom(y, r, m + 1)
  }

  lemma {:induction false} MonthFound(y: int, r: int, m: nat)
    requires 1 <= m <= 12 && DaysBeforeMonth(y, m) <= r < DaysBeforeMonth(y, 13)
    ensures var k := MonthFrom(y, r, m);
      m <= k <= 12 && DaysBeforeMonth(y, k) <= r < DaysBeforeMonth(y, k) + DaysIn(y, k)
    decreases 12 - m
  {
    if m < 12 && r >= DaysBeforeMonth(y, m + 1) {
      MonthFound(y, r, m + 1);
    }
  }

  /** The calendar date of a day count. */
  function Civil(n: int): Date
    requires 0 <= n
  {
    assert DaysBeforeYear(1) == 0;
    YearFound(n, 1);
    var y := YearFrom(n, 1);
    var r := n - DaysBeforeYear(y);
    YearLength(y);
    MonthsOfYear(y);
    MonthFound(y, r, 1);
    var m := MonthFrom(y, r, 1);
    Date(y, m, r - DaysBeforeMonth(y, m) + 1)
  }

  /** Every day count up to the end of year 9999 is the ordinal of one valid date. */
  lemma OrdinalOfCivil(n: int)
    requires 0 <= n < LAST_DAY
    ensures ValidDate(Civil(n)) && Ordinal(Civil(n)) == n
  {
    assert DaysBeforeYear(1) == 0 && DaysBeforeYear(10000) == LAST_DAY;
    YearFound(n, 1);
    var y := YearFrom(n, 1);
    if y > 9999 {
      YearsAscend(10000, y);
    }
    var r := n - DaysBeforeYear(y);
    YearLength(y);
    MonthsOfYear(y);
    MonthFound(y, r, 1);
  }

  lemma ValidOrdinal(d: Date)
    requires ValidDate(d)
    ensures DaysBeforeYear(d.year) <= Ordinal(d) < DaysBeforeYear(d.year + 1)
    ensures 0 <= Ordinal(d) < LAST_DAY
  {
    YearLength(d.year);
    MonthsOfYear(d.year);
    MonthsAscend(d.year, 1, d.month);
    MonthsAscend(d.year, d.month, 13);
    assert DaysBeforeYear(1) == 0 && DaysBeforeYear(10000) == LAST_DAY;
    YearsAscend(1, d.year);
    YearsAscend(d.year, 10000);
  }

  /** Two valid dates with one day count are one date. */
  lemma OrdinalInjective(a: Date, b: Date)
    requires ValidDate(a) && ValidDate(b) && Ordinal(a) == Ordinal(b)
    ensures a == b
  {
    ValidOrdinal(a);
    ValidOrdinal(b);
    if a.year < b.year {
      YearsAscend(a.year + 1, b.year);
    } else if b.year < a.year {
      YearsAscend(b.year + 1, a.year);
    } else if a.month < b.month {
      MonthsAscend(a.year, a.month, b.month);
    } else if b.month < a.month {
      MonthsAscend(a.year, b.month, a.month);
    }
  }

  /** And back: the date of a valid date's day count is that date. */
  lemma CivilOfOrdinal(d: Date)
    requires ValidDate(d)
    ensures 0 <= Ordinal(d) && Civil(Ordinal(d)) == d
  {
    ValidOrdinal(d);
    OrdinalOfCivil(Ordinal(d));
    OrdinalInjective(Civil(Ordinal(d)), d);
  }

  // ------------------------------------------------------------------
  // Digits
  // ------------------------------------------------------------------

  predicate IsDigit(c: char) {
    '0' <= c <= '9'
  }

  function Digit(c: char): nat
    requires IsDigit(c)
  {
    c as int - '0' as int
  }

  function Char(n: nat): (c: char)
    requires n < 10
    ensures IsDigit(c) && Digit(c) == n
  {
    ('0' as int + n) as char
  }

  predicate Two(s: string, i: nat) {
    i + 2 <= |s| && IsDigit(s[i]) && IsDigit(s[i + 1])
  }

  function Num2(s: string, i: nat): nat
    requires Two(s, i)
  {
    10 * Digit(s[i]) + Digit(s[i + 1])
  }

  predicate AllDigits(s: string) {
    forall i :: 0 <= i < |s| ==> IsDigit(s[i])
  }

  // ------------------------------------------------------------------
  // The shape of a timestamp
  // ------------------------------------------------------------------

  /** `YYYY-MM-DD[Tt ]HH:MM:SS`, the first nineteen characters. */
  predicate HeadShape(s: string) {
    && |s| >= 19
    && Two(s, 0) && Two(s, 2) && s[4] == '-' && Two(s, 5) && s[7] == '-' && Two(s, 8)
    && (s[10] == 'T' || s[10] == 't' || s[10] == ' ')
    && Two(s, 11) && s[13] == ':' && Two(s, 14) && s[16] == ':' && Two(s, 17)
  }

  /** `Z`, `z`, or a sign, two digits, perhaps a colon, two digits. */
  predicate ZoneShape(z: string) {
    || z == "Z" || z == "z"
    || (|z| == 6 && (z[0] == '+' || z[0] == '-') && Two(z, 1) && z[3] == ':' && Two(z, 4))
    || (|z| == 5 && (z[0] == '+' || z[0] == '-') && Two(z, 1) && Two(z, 3))
  }

  /** How many leading characters are digits. */
  function DigitRun(s: string): (n: nat)
    ensures n <= |s|
  {
    if s == [] || !IsDigit(s[0]) then 0 else 1 + DigitRun(s[1..])
  }

  /** The fraction's digits, "" when there is no fraction. */
  function Fraction(rest: string): string {
    if rest != [] && rest[0] == '.' then rest[1..][..DigitRun(rest[1..])] else ""
  }

  function ZonePart(rest: string): string {
    if rest != [] && rest[0] == '.' then rest[1..][DigitRun(rest[1..])..] else rest
  }

  predicate TailShape(rest: string) {
    (rest != [] && rest[0] == '.' ==> Fraction(rest) != "") && ZoneShape(ZonePart(rest))
  }

  /** The pattern, anchored at the very end. */
  predicate Shape(s: string) {
    HeadShape(s) && TailShape(s[19..])
  }

  /** The pattern as the program runs it: its end anchor also accepts one final newline. */
  predicate Matches(s: string) {
    Shape(s) || (s != [] && s[|s| - 1] == '\n' && Shape(s[..|s| - 1]))
  }

  // ------------------------------------------------------------------
  // Reading
  // ------------------------------------------------------------------

  datatype Fields = Fields(date: Date, hour: nat, minute: nat, second: nat, micros: nat, offset: int)

  /** Minutes east of UTC. */
  function Offset(z: string): int
    requires ZoneShape(z)
  {
    if z == "Z" || z == "z" then 0
    else
      var minutes := 60 * Num2(z, 1) + (if |z| == 6 then Num2(z, 4) else Num2(z, 3));
      if z[0] == '-' then -minutes else minutes
  }

  function DigitAt(s: string, i: nat): nat
    requires AllDigits(s)
  {
    if i < |s| then Digit(s[i]) else 0
  }

  /** The first six digits, padded with zeros; the rest are dropped. */
  function Micros(f: string): nat
    requires AllDigits(f)
  {
    100_000 * DigitAt(f, 0) + 10_000 * DigitAt(f, 1) + 1_000 * DigitAt(f, 2) + 100 * DigitAt(f, 3) + 10 * DigitAt(f, 4)
      + DigitAt(f, 5)
  }

  lemma {:induction false} RunIsDigits(s: string)
    ensures AllDigits(s[..DigitRun(s)])
    ensures DigitRun(s) < |s| ==> !IsDigit(s[DigitRun(s)])
  {
    if s != [] && IsDigit(s[0]) {
      RunIsDigits(s[1..]);
      var n := DigitRun(s[1..]);
      assert s[..n + 1] == [s[0]] + s[1..][..n];
    }
  }

  function Read(s: string): Fields
    requires Shape(s)
  {
    var rest := s[19..];
    RunIsDigits(if rest == [] then rest else rest[1..]);
    Fields(Date(100 * Num2(s, 0) + Num2(s, 2), Num2(s, 5), Num2(s, 8)), Num2(s, 11), Num2(s, 14), Num2(s, 17),
           Micros(Fraction(rest)), Offset(ZonePart(rest)))
  }

  const DAY_MINUTES := 1440

  /**
   * What the parser accepts: a real date and time of day, an offset of less than a day; minutes of an offset are not
   * capped.
   */
  predicate ValidFields(f: Fields) {
    ValidDate(f.date) && f.hour < 24 && f.minute < 60 && f.second < 60 && -DAY_MINUTES < f.offset < DAY_MINUTES
  }

  const SECOND: int := 1_000_000
  const MINUTE: int := 60_000_000
  const HOUR: int := 3_600_000_000
  const DAY: int := 86_400_000_000

  /** Microseconds since the start of year 1, UTC. */
  function InstantOf(f: Fields): int {
    Ordinal(f.date) * DAY + f.hour * HOUR + f.minute * MINUTE + f.second * SECOND + f.micros - f.offset * MINUTE
  }

  predicate InRange(i: int) {
    0 <= i < LAST_DAY * DAY
  }

  // ------------------------------------------------------------------
  // Writing
  // ------------------------------------------------------------------

  function Head(d: Date, h: nat, m: nat, s: nat): string
    requires ValidDate(d) && h < 24 && m < 60 && s < 60
  {
    assert d.day <= 31;
    var y := d.year;
    [Char(y / 1000), Char(y / 100 % 10), Char(y / 10 % 10), Char(y % 10), '-', Char(d.month / 10), Char(d.month % 10),
     '-', Char(d.day / 10), Char(d.day % 10), 'T', Char(h / 10), Char(h % 10), ':', Char(m / 10), Char(m % 10), ':',
     Char(s / 10), Char(s % 10)]
  }

  function Tail(us: nat): string
    requires us < SECOND
  {
    if us == 0 then "Z"
    else ['.', Char(us / 100_000), Char(us / 10_000 % 10), Char(us / 1_000 % 10), Char(us / 100 % 10),
          Char(us / 10 % 10), Char(us % 10), 'Z']
  }

  /** The one text of an instant. */
  function Render(i: int): string
    requires InRange(i)
  {
    var n, t := i / DAY, i % DAY;
    OrdinalOfCivil(n);
    Head(Civil(n), t / HOUR, t % HOUR / MINUTE, t % MINUTE / SECOND) + Tail(t % SECOND)
  }

  datatype Outcome = Text(text: string) | Raises

  /** A string that looks like a timestamp is rewritten, or raises; any other string passes through. */
  function Normalize(s: string): Outcome {
    if !Matches(s) then Text(s)
    else if !Shape(s) || !ValidFields(Read(s)) || !InRange(InstantOf(Read(s))) then Raises
    else Text(Render(InstantOf(Read(s))))
  }

  // ------------------------------------------------------------------
  // The round trip
  // ------------------------------------------------------------------

  /** The nineteen characters of a head, where they stand. */
  lemma HeadCharacters(d: Date, h: nat, m: nat, s: nat)
    requires ValidDate(d) && h < 24 && m < 60 && s < 60
    ensures d.day <= 31
    ensures var t := Head(d, h, m, s);
      && |t| == 19 && t[4] == '-' && t[7] == '-' && t[10] == 'T' && t[13] == ':' && t[16] == ':'
      && t[0] == Char(d.year / 1000) && t[1] == Char(d.year / 100 % 10) && t[2] == Char(d.year / 10 % 10)
      && t[3] == Char(d.year % 10)
      && t[5] == Char(d.month / 10) && t[6] == Char(d.month % 10) && t[8] == Char(d.day / 10)
      && t[9] == Char(d.day % 10)
      && t[11] == Char(h / 10) && t[12] == Char(h % 10) && t[14] == Char(m / 10) && t[15] == Char(m % 10)
      && t[17] == Char(s / 10) && t[18] == Char(s % 10)
  {
  }

  lemma HeadReads(d: Date, h: nat, m: nat, s: nat, tail: string)
    requires ValidDate(d) && h < 24 && m < 60 && s < 60
    ensures var w := Head(d, h, m, s) + tail;
      && HeadShape(w) && w[19..] == tail
      && 100 * Num2(w, 0) + Num2(w, 2) == d.year && Num2(w, 5) == d.month && Num2(w, 8) == d.day
      && Num2(w, 11) == h && Num2(w, 14) == m && Num2(w, 17) == s
  {
    hide Num2, Two, Digit, IsDigit, Char, DaysIn, Head;
    HeadCharacters(d, h, m, s);
    var w := Head(d, h, m, s) + tail;
    YearPairs(d.year);
    Pair(w, 0, d.year / 100); Pair(w, 2, d.year % 100);
    Pair(w, 5, d.month); Pair(w, 8, d.day);
    Pair(w, 11, h); Pair(w, 14, m); Pair(w, 17, s);
  }

  lemma YearPairs(y: int)
    requires 0 <= y <= 9999
    ensures y / 1000 == y / 100 / 10 && y / 10 % 10 == y % 100 / 10 && y % 10 == y % 100 % 10
    ensures 100 * (y / 100) + y % 100 == y
  {
  }

  /** Two characters written for a number below one hundred read back as it. */
  lemma Pair(w: string, i: nat, n: nat)
    requires i + 2 <= |w| && n < 100 && w[i] == Char(n / 10) && w[i + 1] == Char(n % 10)
    ensures Two(w, i) && Num2(w, i) == n
  {
  }

  lemma {:induction false} RunStops(f: string, z: string)
    requires AllDigits(f) && (z != [] ==> !IsDigit(z[0]))
    ensures DigitRun(f + z) == |f|
  {
    if f == [] {
      assert f + z == z;
    } else {
      assert (f + z)[1..] == f[1..] + z;
      RunStops(f[1..], z);
    }
  }

  lemma SixDigits(us: nat)
    requires us < SECOND
    ensures 100_000 * (us / 100_000) + 10_000 * (us / 10_000 % 10) + 1_000 * (us / 1_000 % 10) + 100 * (us / 100 % 10)
      + 10 * (us / 10 % 10) + us % 10 == us
  {
    TenStep(us, 10, 100);
    TenStep(us, 100, 1_000);
    TenStep(us, 1_000, 10_000);
    TenStep(us, 10_000, 100_000);
  }

  lemma TenStep(us: nat, k: nat, next: nat)
    requires (k == 10 && next == 100) || (k == 100 && next == 1_000) || (k == 1_000 && next == 10_000)
      || (k == 10_000 && next == 100_000)
    ensures us / k == 10 * (us / next) + us / k % 10
  {
    if k == 10 {
      assert us / 10 / 10 == us / 100;
    } else if k == 100 {
      assert us / 100 / 10 == us / 1_000;
    } else if k == 1_000 {
      assert us / 1_000 / 10 == us / 10_000;
    } else {
      assert us / 10_000 / 10 == us / 100_000;
    }
  }

  lemma TailReads(us: nat)
    requires us < SECOND
    ensures TailShape(Tail(us)) && AllDigits(Fraction(Tail(us))) && Micros(Fraction(Tail(us))) == us
    ensures ZonePart(Tail(us)) == "Z"
  {
    if us > 0 {
      var t := Tail(us);
      var f := t[1..7];
      assert t[1..] == f + "Z";
      RunStops(f, "Z");
      assert Fraction(t) == f && ZonePart(t) == "Z";
      SixDigits(us);
    }
  }

  lemma DaySplits(t: int)
    requires 0 <= t < DAY
    ensures t / HOUR < 24 && t % HOUR / MINUTE < 60 && t % MINUTE / SECOND < 60
    ensures t / HOUR * HOUR + t % HOUR / MINUTE * MINUTE + t % MINUTE / SECOND * SECOND + t % SECOND == t
  {
    var h := t % HOUR;
    assert HOUR == 60 * MINUTE && MINUTE == 60 * SECOND;
    assert h % MINUTE == t % MINUTE;
    assert h == h / MINUTE * MINUTE + h % MINUTE;
    var m := t % MINUTE;
    assert m % SECOND == t % SECOND;
  }

  /** Reading what was written gives the instant back. */
  lemma ReadOfRender(i: int)
    requires InRange(i)
    ensures Shape(Render(i)) && ValidFields(Read(Render(i))) && InstantOf(Read(Render(i))) == i
  {
    var n, t := i / DAY, i % DAY;
    OrdinalOfCivil(n);
    DaySplits(t);
    var h, m, s, us := t / HOUR, t % HOUR / MINUTE, t % MINUTE / SECOND, t % SECOND;
    HeadReads(Civil(n), h, m, s, Tail(us));
    TailReads(us);
    hide Civil, HeadShape, TailShape, Head, Tail, Fraction, ZonePart, Micros, Ordinal, ValidDate, Num2;
    assert Read(Render(i)) == Fields(Civil(n), h, m, s, us, 0);
  }

  /** The text of an instant shows its UTC wall clock: this date, this hour, minute, second and fraction. */
  lemma RenderShowsTheWallClock(d: Date, h: nat, m: nat, s: nat, us: nat)
    requires ValidDate(d) && h < 24 && m < 60 && s < 60 && us < SECOND
    ensures var i := Ordinal(d) * DAY + h * HOUR + m * MINUTE + s * SECOND + us;
      InRange(i) && Render(i) == Head(d, h, m, s) + Tail(us)
  {
    hide *;
    var t := h * HOUR + m * MINUTE + s * SECOND + us;
    CivilOfOrdinal(d);
    ValidOrdinal(d);
    TimeOfDay(h, m, s, us);
    DayAndTime(Ordinal(d), t);
    RenderParts(Ordinal(d) * DAY + t, Ordinal(d), t);
  }

  lemma RenderParts(i: int, n: int, t: int)
    requires InRange(i) && i / DAY == n && i % DAY == t
    ensures ValidDate(Civil(n)) && 0 <= t < DAY
    ensures t / HOUR < 24 && t % HOUR / MINUTE < 60 && t % MINUTE / SECOND < 60
    ensures Render(i) == Head(Civil(n), t / HOUR, t % HOUR / MINUTE, t % MINUTE / SECOND) + Tail(t % SECOND)
  {
    OrdinalOfCivil(n);
    DaySplits(t);
    hide Civil, Head, Tail, Ordinal, DaysIn;
  }

  lemma DayAndTime(n: int, t: int)
    requires 0 <= t < DAY
    ensures (n * DAY + t) / DAY == n && (n * DAY + t) % DAY == t
    ensures 0 <= n < LAST_DAY ==> InRange(n * DAY + t)
  {
  }

  lemma TimeOfDay(h: nat, m: nat, s: nat, us: nat)
    requires h < 24 && m < 60 && s < 60 && us < SECOND
    ensures var t := h * HOUR + m * MINUTE + s * SECOND + us;
      0 <= t < DAY && t / HOUR == h && t % HOUR / MINUTE == m && t % MINUTE / SECOND == s && t % SECOND == us
  {
    var t := h * HOUR + m * MINUTE + s * SECOND + us;
    var minutes, seconds := m * MINUTE + s * SECOND + us, s * SECOND + us;
    assert t == h * HOUR + minutes && 0 <= minutes < HOUR;
    assert t % HOUR == minutes;
    assert minutes == m * MINUTE + seconds && 0 <= seconds < MINUTE;
    assert t == (60 * h + m) * MINUTE + seconds;
    assert t % MINUTE == seconds;
    assert t == (3600 * h + 60 * m + s) * SECOND + us;
  }

  /** `+hh:mm` or `-hh:mm` */
  function ZoneText(west: bool, oh: nat, om: nat): string
    requires oh < 24 && om < 60
  {
    [if west then '-' else '+', Char(oh / 10), Char(oh % 10), ':', Char(om / 10), Char(om % 10)]
  }

  lemma ZoneReads(west: bool, oh: nat, om: nat)
    requires oh < 24 && om < 60
    ensures var z := ZoneText(west, oh, om);
      && TailShape(z) && ZonePart(z) == z && Fraction(z) == ""
      && Offset(z) == if west then -(60 * oh + om) else 60 * oh + om
  {
    var z := ZoneText(west, oh, om);
    Pair(z, 1, oh);
    Pair(z, 4, om);
  }

  /**
   * A wall clock with an offset becomes the text of that wall clock minus the offset: east is earlier in UTC, west
   * later.
   */
  lemma OffsetIsSubtracted(d: Date, h: nat, m: nat, s: nat, west: bool, oh: nat, om: nat)
    requires ValidDate(d) && h < 24 && m < 60 && s < 60 && oh < 24 && om < 60
    requires InRange(Local(d, h, m, s) + (if west then 60 * oh + om else -(60 * oh + om)) * MINUTE)
    ensures Normalize(Head(d, h, m, s) + ZoneText(west, oh, om))
         == Text(Render(Local(d, h, m, s) + (if west then 60 * oh + om else -(60 * oh + om)) * MINUTE))
  {
    var w := Head(d, h, m, s) + ZoneText(west, oh, om);
    HeadReads(d, h, m, s, ZoneText(west, oh, om));
    ZoneReads(west, oh, om);
    hide *;
    ReadsAs(w, Fields(d, h, m, s, 0, if west then -(60 * oh + om) else 60 * oh + om));
    InstantWith(d, h, m, s, if west then -(60 * oh + om) else 60 * oh + om);
    NormalizeReads(w);
  }

  lemma ReadsAs(w: string, f: Fields)
    requires HeadShape(w) && TailShape(w[19..])
    requires 100 * Num2(w, 0) + Num2(w, 2) == f.date.year && Num2(w, 5) == f.date.month && Num2(w, 8) == f.date.day
    requires Num2(w, 11) == f.hour && Num2(w, 14) == f.minute && Num2(w, 17) == f.second
    requires Fraction(w[19..]) == "" && f.micros == 0 && Offset(ZonePart(w[19..])) == f.offset
    ensures Shape(w) && Read(w) == f
  {
    hide HeadShape, TailShape, Fraction, ZonePart, Offset, Num2;
  }

  lemma InstantWith(d: Date, h: nat, m: nat, s: nat, offset: int)
    requires ValidDate(d) && h < 24 && m < 60 && s < 60 && -DAY_MINUTES < offset < DAY_MINUTES
    ensures var f := Fields(d, h, m, s, 0, offset);
      ValidFields(f) && InstantOf(f) == Local(d, h, m, s) - offset * MINUTE
  {
    hide Ordinal, ValidDate;
  }

  lemma NormalizeReads(w: string)
    requires Shape(w) && ValidFields(Read(w)) && InRange(InstantOf(Read(w)))
    ensures Normalize(w) == Text(Render(InstantOf(Read(w))))
  {
    hide Read, Render, InstantOf, ValidFields, InRange;
  }

  /** Microseconds since the start of year 1 on the wall clock itself. */
  function Local(d: Date, h: nat, m: nat, s: nat): int {
    Ordinal(d) * DAY + h * HOUR + m * MINUTE + s * SECOND
  }

  /** A canonical text is a fixed point, and one instant's text is no other's. */
  lemma NormalizeOfRender(i: int)
    requires InRange(i)
    ensures Normalize(Render(i)) == Text(Render(i))
  {
    ReadOfRender(i);
    hide Read, Render, Shape, InstantOf;
  }

  /** Normalising twice is normalising once. */
  lemma NormalizeIdempotent(s: string)
    requires Normalize(s).Text?
    ensures Normalize(Normalize(s).text) == Normalize(s)
  {
    if Matches(s) {
      NormalizeOfRender(InstantOf(Read(s)));
    }
  }

  /** The string is a timestamp the parser accepts. */
  predicate IsTimestamp(s: string) {
    Shape(s) && ValidFields(Read(s)) && InRange(InstantOf(Read(s)))
  }

  /** Two strings are equal, or are two spellings of one instant. */
  predicate SameSpelt(s: string, t: string) {
    s == t || (IsTimestamp(s) && IsTimestamp(t) && InstantOf(Read(s)) == InstantOf(Read(t)))
  }

  /** Two strings normalise alike if and only if they are equal or spell one instant, to the microsecond. */
  lemma NormalizeAgreesIff(s: string, t: string)
    requires Normalize(s).Text? && Normalize(t).Text?
    ensures Normalize(s) == Normalize(t) <==> SameSpelt(s, t)
  {
    TimestampCases(s);
    TimestampCases(t);
    hide Matches, Read, Normalize, InRange;
    if IsTimestamp(s) {
      ReadOfRender(InstantOf(Read(s)));
    }
    if IsTimestamp(t) {
      ReadOfRender(InstantOf(Read(t)));
    }
  }

  lemma TimestampCases(s: string)
    requires Normalize(s).Text?
    ensures if IsTimestamp(s) then Normalize(s) == Text(Render(InstantOf(Read(s))))
      else !Shape(s) && Normalize(s) == Text(s)
  {
  }

  /** What the end anchor lets in and the parser then refuses: a timestamp followed by a newline raises. */
  lemma TrailingNewlineRaises(s: string)
    requires Shape(s)
    ensures Normalize(s + "\n") == Raises
  {
    var w := s + "\n";
    assert w[..|w| - 1] == s;
    if Shape(w) {
      ShapeEndsInItsZone(w);
    }
  }

  /**
   * Raised exactly for what looks like a timestamp and is none; of the others, exactly those that do not look like one
   * pass untouched.
   */
  lemma RaisesIff(s: string)
    ensures Normalize(s) == Raises <==> Matches(s) && !IsTimestamp(s)
    ensures !IsTimestamp(s) ==> (Normalize(s) == Text(s) <==> !Matches(s))
  {
    hide ValidFields, InRange, Read;
    if Shape(s) {
      assert Matches(s);
    }
  }

  const ZULU := "2026-08-25T12:00:00Z"
  const OFFSET_ZERO := "2026-08-25T12:00:00+00:00"

  lemma ZuluReads()
    ensures Shape(ZULU) && Read(ZULU) == Fields(Date(2026, 8, 25), 12, 0, 0, 0, 0)
  {
    assert ZULU[19..] == "Z";
  }

  lemma OffsetZeroReads()
    ensures Shape(OFFSET_ZERO) && Read(OFFSET_ZERO) == Fields(Date(2026, 8, 25), 12, 0, 0, 0, 0)
  {
    OffsetZeroShape();
    assert OFFSET_ZERO[19..] == "+00:00";
    hide Shape, HeadShape;
  }

  lemma OffsetZeroShape()
    ensures HeadShape(OFFSET_ZERO) && Shape(OFFSET_ZERO)
  {
    assert OFFSET_ZERO[19..] == "+00:00";
  }

  /** One instant, as one library writes it and as another does. */
  lemma TwoSpellings()
    ensures SameSpelt(ZULU, OFFSET_ZERO) && ZULU != OFFSET_ZERO
  {
    assert |ZULU| == 20 && |OFFSET_ZERO| == 25;
    ZuluReads();
    OffsetZeroReads();
    NoonIsValid();
    hide *;
    SpellsAlike(ZULU, OFFSET_ZERO);
  }

  lemma NoonIsValid()
    ensures var f := Fields(Date(2026, 8, 25), 12, 0, 0, 0, 0);
      ValidFields(f) && InRange(InstantOf(f))
  {
    assert DaysIn(2026, 8) == 31;
    ValidOrdinal(Date(2026, 8, 25));
    hide Ordinal, ValidDate;
  }

  lemma SpellsAlike(s: string, t: string)
    requires Shape(s) && Shape(t) && Read(s) == Read(t) && ValidFields(Read(s)) && InRange(InstantOf(Read(s)))
    ensures SameSpelt(s, t)
  {
    hide Shape, Read, ValidFields, InRange, InstantOf;
  }

  /** A date no calendar has, in the right shape, raises. */
  lemma ImpossibleDateRaises()
    ensures Normalize("2024-02-30T00:00:00Z") == Raises
  {
    var s := "2024-02-30T00:00:00Z";
    assert Shape(s) by {
      assert s[19..] == "Z";
    }
    assert Read(s).date == Date(2024, 2, 30);
    assert DaysIn(2024, 2) == 29;
    hide Matches, Read, Shape;
  }

  /** So does a leap second, which RFC 3339 allows (section 5.6) and the parser does not. */
  lemma LeapSecondRaises()
    ensures Normalize("2016-12-31T23:59:60Z") == Raises
  {
    var s := "2016-12-31T23:59:60Z";
    assert Shape(s) by {
      assert s[19..] == "Z";
    }
    assert Read(s).second == 60;
    hide Matches, Read, Shape;
  }

  lemma ShapeEndsInItsZone(w: string)
    requires Shape(w)
    ensures w[|w| - 1] != '\n'
  {
    var rest := w[19..];
    var z := ZonePart(rest);
    assert z[|z| - 1] == w[|w| - 1];
  }

  // ------------------------------------------------------------------
  // Whole documents
  // ------------------------------------------------------------------

  predicate IsTokenChar(c: char) {
    IsDigit(c) || 'a' <= c <= 'z' || 'A' <= c <= 'Z' || c == '+' || c == '-' || c == '.'
  }

  /** The text of a number, of true, of false or of null. */
  type Token = s: string | s != "" && forall i :: 0 <= i < |s| ==> IsTokenChar(s[i]) witness "0"

  /** A JSON-mode value. Only string VALUES are candidates for rewriting, never keys. */
  datatype Value =
    | Str(s: string)
    | Other(repr: Token)
    | Items(items: seq<Value>)
    | Object(fields: map<string, Value>)

  /** No string in the document raises: what the traversal needs to return at all. */
  predicate Accepted(v: Value)
    decreases v
  {
    match v
    case Str(s) => Normalize(s).Text?
    case Other(_) => true
    case Items(items) => forall x :: x in items ==> Accepted(x)
    case Object(fields) => forall k :: k in fields ==> Accepted(fields[k])
  }

  function NormalizeValue(v: Value): Value
    requires Accepted(v)
    decreases v
  {
    match v
    case Str(s) => Str(Normalize(s).text)
    case Other(_) => v
    case Items(items) => Items(seq(|items|, i requires 0 <= i < |items| => NormalizeValue(items[i])))
    case Object(fields) => Object(map k | k in fields :: NormalizeValue(fields[k]))
  }

  /** Two documents equal except for how timestamps inside them are spelt. */
  predicate SameDocument(v: Value, w: Value)
    decreases v
  {
    match v
    case Str(s) => w.Str? && SameSpelt(s, w.s)
    case Other(_) => v == w
    case Items(items) =>
      w.Items? && |items| == |w.items| && forall i :: 0 <= i < |items| ==> SameDocument(items[i], w.items[i])
    case Object(fields) =>
      w.Object? && fields.Keys == w.fields.Keys && forall k :: k in fields ==> SameDocument(fields[k], w.fields[k])
  }

  /** Normalising a document twice is normalising it once. */
  lemma {:induction false} DocumentIdempotent(v: Value)
    requires Accepted(v)
    ensures Accepted(NormalizeValue(v)) && NormalizeValue(NormalizeValue(v)) == NormalizeValue(v)
    decreases v
  {
    hide Normalize;
    match v {
      case Str(s) => NormalizeIdempotent(s);
      case Other(_) =>
      case Items(items) =>
        forall x | x in items
          ensures Accepted(NormalizeValue(x)) && NormalizeValue(NormalizeValue(x)) == NormalizeValue(x)
        {
          DocumentIdempotent(x);
        }
      case Object(fields) =>
        forall k | k in fields
          ensures Accepted(NormalizeValue(fields[k]))
          ensures NormalizeValue(NormalizeValue(fields[k])) == NormalizeValue(fields[k])
        {
          DocumentIdempotent(fields[k]);
        }
        assert NormalizeValue(NormalizeValue(v)).fields.Keys == fields.Keys;
    }
  }

  /** Two accepted documents have one normal form if and only if they differ at most in spelling. */
  lemma {:induction false} DocumentsAgreeIff(v: Value, w: Value)
    requires Accepted(v) && Accepted(w)
    ensures NormalizeValue(v) == NormalizeValue(w) <==> SameDocument(v, w)
    decreases v
  {
    hide Normalize, SameSpelt;
    match v {
      case Str(s) =>
        if w.Str? {
          NormalizeAgreesIff(s, w.s);
        }
      case Other(_) =>
      case Items(items) =>
        if w.Items? && |items| == |w.items| {
          forall i | 0 <= i < |items|
            ensures NormalizeValue(items[i]) == NormalizeValue(w.items[i]) <==> SameDocument(items[i], w.items[i])
          {
            DocumentsAgreeIff(items[i], w.items[i]);
          }
          SameItems(items, w.items);
        } else if w.Items? {
          assert |NormalizeValue(v).items| == |items| && |NormalizeValue(w).items| == |w.items|;
        }
      case Object(fields) =>
        if w.Object? && fields.Keys == w.fields.Keys {
          forall k | k in fields.Keys
            ensures NormalizeValue(fields[k]) == NormalizeValue(w.fields[k]) <==> SameDocument(fields[k], w.fields[k])
          {
            DocumentsAgreeIff(fields[k], w.fields[k]);
          }
          SameFields(fields, w.fields);
        } else if w.Object? {
          assert NormalizeValue(v).fields.Keys == fields.Keys && NormalizeValue(w).fields.Keys == w.fields.Keys;
        }
    }
  }

  /** `p` holds of every string value in the document. */
  predicate EveryString(v: Value, p: string -> bool)
    decreases v
  {
    match v
    case Str(s) => p(s)
    case Other(_) => true
    case Items(items) => forall x :: x in items ==> EveryString(x, p)
    case Object(fields) => forall k :: k in fields ==> EveryString(fields[k], p)
  }

  predicate Parses(s: string) {
    Matches(s) ==> IsTimestamp(s)
  }

  /** No timestamp, or already the canonical text of one. */
  predicate Canonical(s: string) {
    Matches(s) ==> IsTimestamp(s) && s == Render(InstantOf(Read(s)))
  }

  /**
   * A document raises exactly when some string in it looks like a timestamp and is none, and passes untouched exactly
   * when each is canonical.
   */
  lemma {:induction false} DocumentUntouchedIff(v: Value)
    ensures Accepted(v) <==> EveryString(v, Parses)
    ensures Accepted(v) ==> (NormalizeValue(v) == v <==> EveryString(v, Canonical))
    decreases v
  {
    match v {
      case Str(s) =>
        RaisesIff(s);
        hide InRange, ValidFields, Read, Shape;
      case Other(_) =>
      case Items(items) =>
        hide Normalize, Parses, Canonical;
        forall x | x in items
          ensures Accepted(x) <==> EveryString(x, Parses)
          ensures Accepted(x) ==> (NormalizeValue(x) == x <==> EveryString(x, Canonical))
        {
          DocumentUntouchedIff(x);
        }
        if Accepted(v) {
          UntouchedItems(items);
        }
      case Object(fields) =>
        hide Normalize, Parses, Canonical;
        forall k | k in fields
          ensures Accepted(fields[k]) <==> EveryString(fields[k], Parses)
          ensures Accepted(fields[k]) ==>
            (NormalizeValue(fields[k]) == fields[k] <==> EveryString(fields[k], Canonical))
        {
          DocumentUntouchedIff(fields[k]);
        }
        if Accepted(v) {
          assert NormalizeValue(v).fields.Keys == fields.Keys;
        }
    }
  }

  lemma UntouchedItems(items: seq<Value>)
    requires Accepted(Items(items))
    ensures NormalizeValue(Items(items)) == Items(items) <==> forall x :: x in items ==> NormalizeValue(x) == x
  {
    var r := NormalizeValue(Items(items)).items;
    assert forall i :: 0 <= i < |items| ==> r[i] == NormalizeValue(items[i]);
    if r == items {
      forall x | x in items ensures NormalizeValue(x) == x {
        var i :| 0 <= i < |items| && items[i] == x;
        assert r[i] == items[i];
      }
    }
  }

  /** A re-spelling of a document that does not raise does not raise. */
  lemma {:induction false} ReSpellingIsAccepted(v: Value, w: Value)
    requires Accepted(v) && SameDocument(v, w)
    ensures Accepted(w)
    decreases v
  {
    match v {
      case Str(s) =>
        hide Read, ValidFields, InRange;
        RaisesIff(w.s);
      case Other(_) =>
      case Items(items) =>
        hide Normalize, SameSpelt;
        forall i | 0 <= i < |items| ensures Accepted(w.items[i]) {
          ReSpellingIsAccepted(items[i], w.items[i]);
        }
      case Object(fields) =>
        hide Normalize, SameSpelt;
        forall k | k in fields ensures Accepted(w.fields[k]) {
          ReSpellingIsAccepted(fields[k], w.fields[k]);
        }
    }
  }

  lemma SameItems(a: seq<Value>, b: seq<Value>)
    requires Accepted(Items(a)) && Accepted(Items(b)) && |a| == |b|
    ensures NormalizeValue(Items(a)) == NormalizeValue(Items(b)) <==>
      forall i :: 0 <= i < |a| ==> NormalizeValue(a[i]) == NormalizeValue(b[i])
  {
    var x, y := NormalizeValue(Items(a)).items, NormalizeValue(Items(b)).items;
    assert forall i :: 0 <= i < |a| ==> x[i] == NormalizeValue(a[i]) && y[i] == NormalizeValue(b[i]);
    if forall i :: 0 <= i < |a| ==> NormalizeValue(a[i]) == NormalizeValue(b[i]) {
      assert x == y;
    }
    forall i | x == y && 0 <= i < |a| ensures NormalizeValue(a[i]) == NormalizeValue(b[i]) {
      assert x[i] == y[i];
    }
    assert NormalizeValue(Items(a)) == Items(x) && NormalizeValue(Items(b)) == Items(y);
  }

  lemma SameFields(a: map<string, Value>, b: map<string, Value>)
    requires Accepted(Object(a)) && Accepted(Object(b)) && a.Keys == b.Keys
    ensures NormalizeValue(Object(a)) == NormalizeValue(Object(b)) <==>
      forall k :: k in a.Keys ==> NormalizeValue(a[k]) == NormalizeValue(b[k])
  {
    var x, y := NormalizeValue(Object(a)).fields, NormalizeValue(Object(b)).fields;
    assert x.Keys == a.Keys && y.Keys == b.Keys;
    assert forall k :: k in a.Keys ==> x[k] == NormalizeValue(a[k]) && y[k] == NormalizeValue(b[k]);
  }
}
