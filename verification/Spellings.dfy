/** Which strings are timestamps, character by character, and which instant each one spells. */
module Spellings {
  import opened Timestamps

  /** `Z` or `z`, or a sign, hours, perhaps a colon, minutes. */
  datatype Zone = Zulu(lower: bool) | Signed(west: bool, hours: nat, minutes: nat, colon: bool)

  datatype Spelling = Spelling(date: Date, hour: nat, minute: nat, second: nat, separator: char, fraction: string,
                               zone: Zone)

  /** Minutes ahead of UTC. */
  function East(z: Zone): int {
    match z
    case Zulu(_) => 0
    case Signed(west, hours, minutes, _) => if west then -(60 * hours + minutes) else 60 * hours + minutes
  }

  /** The minutes of an offset may exceed fifty-nine; the offset as a whole is less than a day. */
  predicate ValidZone(z: Zone) {
    z.Signed? ==> z.hours < 100 && z.minutes < 100 && 60 * z.hours + z.minutes < 1440
  }

  /** Digits weighted from the left: the first counts `weight`, each next one a tenth of it, down to nothing. */
  function Worth(digits: string, weight: nat): nat
    requires AllDigits(digits)
    decreases weight
  {
    if digits == "" || weight == 0 then 0 else weight * Digit(digits[0]) + Worth(digits[1..], weight / 10)
  }

  /** Microseconds since the start of year 1, UTC. */
  function Means(p: Spelling): int
    requires AllDigits(p.fraction)
  {
    Local(p.date, p.hour, p.minute, p.second) + Worth(p.fraction, 100_000) - East(p.zone) * MINUTE
  }

  predicate Valid(p: Spelling) {
    && ValidDate(p.date) && p.hour < 24 && p.minute < 60 && p.second < 60
    && (p.separator == 'T' || p.separator == 't' || p.separator == ' ')
    && AllDigits(p.fraction) && ValidZone(p.zone) && InRange(Means(p))
  }

  function ZoneSpelt(z: Zone): string
    requires ValidZone(z)
  {
    match z
    case Zulu(lower) => if lower then "z" else "Z"
    case Signed(west, hours, minutes, colon) =>
      [if west then '-' else '+', Char(hours / 10), Char(hours % 10)] + (if colon then ":" else "")
        + [Char(minutes / 10), Char(minutes % 10)]
  }

  function FractionSpelt(fraction: string): string {
    if fraction == "" then "" else "." + fraction
  }

  function Spelt(p: Spelling): string
    requires Valid(p)
  {
    Head(p.date, p.hour, p.minute, p.second)[10 := p.separator] + (FractionSpelt(p.fraction) + ZoneSpelt(p.zone))
  }

  // ------------------------------------------------------------------
  // Reading a spelling
  // ------------------------------------------------------------------

  lemma FirstSix(f: string)
    requires AllDigits(f)
    ensures Micros(f) == Worth(f, 100_000)
  {
    WorthAt(f, 0, 100_000);
    WorthAt(f, 1, 10_000);
    WorthAt(f, 2, 1_000);
    WorthAt(f, 3, 100);
    WorthAt(f, 4, 10);
    WorthAt(f, 5, 1);
    assert f[0..] == f;
  }

  /** The digits from place i on, at that place's weight. */
  function WorthFrom(f: string, i: nat, weight: nat): nat
    requires AllDigits(f)
  {
    if i <= |f| then Worth(f[i..], weight) else 0
  }

  lemma WorthAt(f: string, i: nat, weight: nat)
    requires AllDigits(f) && weight > 0
    ensures WorthFrom(f, i, weight) == weight * DigitAt(f, i) + WorthFrom(f, i + 1, weight / 10)
    ensures WorthFrom(f, i, 0) == 0
  {
    if i < |f| {
      assert f[i..][1..] == f[i + 1..];
    }
  }

  lemma ZoneReadsBack(z: Zone)
    requires ValidZone(z)
    ensures var t := ZoneSpelt(z);
      ZoneShape(t) && Offset(t) == East(z) && t != [] && !IsDigit(t[0]) && t[0] != '.'
  {
    if z.Signed? {
      var t := ZoneSpelt(z);
      Pair(t, 1, z.hours);
      Pair(t, if z.colon then 4 else 3, z.minutes);
    }
  }

  lemma DottedReadsBack(f: string, zone: string)
    requires AllDigits(f) && zone != "" && !IsDigit(zone[0])
    ensures var t := "." + f + zone;
      Fraction(t) == f && ZonePart(t) == zone && t != [] && t[0] == '.'
  {
    var t := "." + f + zone;
    assert t[1..] == f + zone;
    RunStops(f, zone);
    hide DigitRun;
    assert (f + zone)[..|f|] == f && (f + zone)[|f|..] == zone;
  }

  lemma TailReadsBack(f: string, z: Zone)
    requires AllDigits(f) && ValidZone(z)
    ensures var t := FractionSpelt(f) + ZoneSpelt(z);
      TailShape(t) && Fraction(t) == f && ZonePart(t) == ZoneSpelt(z)
  {
    ZoneReadsBack(z);
    hide ZoneSpelt, ZoneShape, East, Offset, IsDigit;
    var zone := ZoneSpelt(z);
    if f != "" {
      DottedReadsBack(f, zone);
      hide Fraction, ZonePart;
    } else {
      assert FractionSpelt(f) + zone == zone;
    }
  }

  /** The separator is read past. */
  lemma SeparatorIsFree(w: string, c: char)
    requires HeadShape(w) && (c == 'T' || c == 't' || c == ' ')
    ensures var x := w[10 := c];
      && HeadShape(x) && x[19..] == w[19..]
      && Num2(x, 0) == Num2(w, 0) && Num2(x, 2) == Num2(w, 2) && Num2(x, 5) == Num2(w, 5) && Num2(x, 8) == Num2(w, 8)
      && Num2(x, 11) == Num2(w, 11) && Num2(x, 14) == Num2(w, 14) && Num2(x, 17) == Num2(w, 17)
  {
    hide IsDigit, Digit;
  }

  lemma ReadsBack(p: Spelling)
    requires Valid(p)
    ensures var w := Spelt(p);
      && Shape(w)
      && Read(w) == Fields(p.date, p.hour, p.minute, p.second, Worth(p.fraction, 100_000), East(p.zone))
  {
    var tail := FractionSpelt(p.fraction) + ZoneSpelt(p.zone);
    var plain := Head(p.date, p.hour, p.minute, p.second) + tail;
    HeadCharacters(p.date, p.hour, p.minute, p.second);
    HeadReads(p.date, p.hour, p.minute, p.second, tail);
    TailReadsBack(p.fraction, p.zone);
    ZoneReadsBack(p.zone);
    FirstSix(p.fraction);
    hide Head, HeadShape, TailShape, Fraction, ZonePart, ZoneSpelt, Offset, Num2, Worth, Micros, East, FractionSpelt,
         InRange, Local, ValidDate, AllDigits;
    SeparatorIsFree(plain, p.separator);
    assert Spelt(p) == plain[10 := p.separator];
  }

  lemma FieldsAreValid(p: Spelling)
    requires Valid(p)
    ensures var f := Fields(p.date, p.hour, p.minute, p.second, Worth(p.fraction, 100_000), East(p.zone));
      ValidFields(f) && InstantOf(f) == Means(p) && InRange(InstantOf(f))
  {
    hide Ordinal, ValidDate, Worth, AllDigits;
  }

  /** Whatever the separator, the digits of the fraction and the way its zone is written: one instant, one text. */
  lemma SpellingNormalizes(p: Spelling)
    requires Valid(p)
    ensures IsTimestamp(Spelt(p)) && Normalize(Spelt(p)) == Text(Render(Means(p)))
  {
    ReadsBack(p);
    FieldsAreValid(p);
    hide Spelt, Shape, Read, Render, InstantOf, ValidFields, InRange, Means, Worth, East;
    NormalizeReads(Spelt(p));
  }

  // ------------------------------------------------------------------
  // And nothing else is a timestamp
  // ------------------------------------------------------------------

  lemma TwoDigits(s: string, i: nat)
    requires Two(s, i)
    ensures Num2(s, i) < 100 && s[i] == Char(Num2(s, i) / 10) && s[i + 1] == Char(Num2(s, i) % 10)
  {
  }

  lemma ZoneIsSpelt(t: string) returns (z: Zone)
    requires ZoneShape(t) && -DAY_MINUTES < Offset(t) < DAY_MINUTES
    ensures ValidZone(z) && ZoneSpelt(z) == t && East(z) == Offset(t)
  {
    if t == "Z" || t == "z" {
      z := Zulu(t == "z");
    } else {
      var minutesAt := if |t| == 6 then 4 else 3;
      TwoDigits(t, 1);
      TwoDigits(t, minutesAt);
      z := Signed(t[0] == '-', Num2(t, 1), Num2(t, minutesAt), |t| == 6);
      hide Num2, Char;
      var w := ZoneSpelt(z);
      assert |w| == |t|;
      assert forall i :: 0 <= i < |t| ==> w[i] == t[i];
    }
  }

  lemma YearDigits(a: nat, b: nat)
    requires a < 100 && b < 100
    ensures var y := 100 * a + b;
      y / 1000 == a / 10 && y / 100 % 10 == a % 10 && y / 10 % 10 == b / 10 && y % 10 == b % 10
  {
    var y := 100 * a + b;
    assert y / 100 == a && y % 100 == b;
    assert y / 1000 == a / 10;
    assert y / 10 == 10 * a + b / 10;
  }

  lemma SameNineteen(s: string, t: string)
    requires |s| >= 19 && |t| == 19
    requires s[0] == t[0] && s[1] == t[1] && s[2] == t[2] && s[3] == t[3] && s[4] == t[4] && s[5] == t[5]
    requires s[6] == t[6] && s[7] == t[7] && s[8] == t[8] && s[9] == t[9] && s[10] == t[10] && s[11] == t[11]
    requires s[12] == t[12] && s[13] == t[13] && s[14] == t[14] && s[15] == t[15] && s[16] == t[16]
    requires s[17] == t[17] && s[18] == t[18]
    ensures s[..19] == t
  {
  }

  lemma HeadIsSpelt(s: string, d: Date, h: nat, m: nat, sec: nat)
    requires HeadShape(s) && ValidDate(d) && h < 24 && m < 60 && sec < 60
    requires 100 * Num2(s, 0) + Num2(s, 2) == d.year && Num2(s, 5) == d.month && Num2(s, 8) == d.day
    requires Num2(s, 11) == h && Num2(s, 14) == m && Num2(s, 17) == sec
    ensures s[..19] == Head(d, h, m, sec)[10 := s[10]]
  {
    HeadCharacters(d, h, m, sec);
    TwoDigits(s, 0);
    TwoDigits(s, 2);
    TwoDigits(s, 5);
    TwoDigits(s, 8);
    TwoDigits(s, 11);
    TwoDigits(s, 14);
    TwoDigits(s, 17);
    YearDigits(Num2(s, 0), Num2(s, 2));
    hide *;
    SameNineteen(s, Head(d, h, m, sec)[10 := s[10]]);
  }

  lemma TailIsSpelt(rest: string)
    requires TailShape(rest)
    ensures AllDigits(Fraction(rest)) && rest == FractionSpelt(Fraction(rest)) + ZonePart(rest)
  {
    if rest != [] && rest[0] == '.' {
      RunIsDigits(rest[1..]);
      assert rest == ['.'] + rest[1..];
    }
  }

  lemma TimestampIsSpelt(s: string) returns (p: Spelling)
    requires IsTimestamp(s)
    ensures Valid(p) && Spelt(p) == s
  {
    var f, rest := Read(s), s[19..];
    TailIsSpelt(rest);
    var z := ZoneIsSpelt(ZonePart(rest));
    HeadIsSpelt(s, f.date, f.hour, f.minute, f.second);
    FirstSix(Fraction(rest));
    p := Spelling(f.date, f.hour, f.minute, f.second, s[10], Fraction(rest), z);
    hide Head, Num2, TailShape, Fraction, ZonePart, ZoneSpelt, Offset, Worth, Micros, East, FractionSpelt, Ordinal,
         ValidDate, AllDigits, ZoneShape, ValidZone;
    assert s == s[..19] + rest;
  }

  /** A string is a timestamp exactly when it is one of these spellings. */
  lemma IsTimestampIff(s: string)
    ensures IsTimestamp(s) <==> exists p :: Valid(p) && Spelt(p) == s
  {
    if IsTimestamp(s) {
      var p := TimestampIsSpelt(s);
    }
    hide IsTimestamp, Valid, Spelt;
    forall p | Valid(p) ensures IsTimestamp(Spelt(p)) {
      SpellingNormalizes(p);
    }
  }
}
