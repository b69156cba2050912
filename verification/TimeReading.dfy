/** Stored times read back: which date and which time of day a text shows. */
module TimeReading {
  import opened Decimals
  import opened Observations
  import opened Reports
  import opened TimeText

  /** A date and a time of day in Coordinated Universal Time. */
  datatype Civil = Civil(year: nat, month: nat, day: nat, hour: nat, minute: nat, second: nat, nanos: nat)

  /** It is a date of the calendar, and a time of day. */
  predicate OnCalendar(c: Civil) {
    && 1 <= c.month <= 12 && 1 <= c.day <= DaysInMonth(c.year, c.month)
    && c.hour < 24 && c.minute < 60 && c.second < 60 && c.nanos < NS_PER_SECOND
  }

  /** The instant, counted from 1 January 1970. */
  function InstantOf(c: Civil): int {
    var days := DaysBeforeYear(c.year) + DaysBeforeMonth(c.year, c.month) + c.day - 1 - 719_528;
    (days * 86_400 + c.hour * 3600 + c.minute * 60 + c.second) * NS_PER_SECOND + c.nanos
  }

  /** What stands between the seconds and the closing letter: nothing, or a dot and some digits. */
  function ReadFraction(s: string): nat {
    if |s| <= 1 then 0 else ReadDigits(s[1..]) * Power(if |s| <= 10 then 10 - |s| else 0)
  }

  /** 2006-01-02T15:04:05 with or without a fraction, and a Z. */
  predicate IsTimeText(s: string) {
    && |s| >= 20 && s[4] == s[7] == '-' && s[10] == 'T' && s[13] == s[16] == ':' && s[|s| - 1] == 'Z'
    && (|s| > 20 ==> s[19] == '.')
    && (forall i :: 0 <= i < |s| - 1 && i !in {4, 7, 10, 13, 16, 19} ==> IsDigit(s[i]))
  }

  function ReadTime(s: string): Civil
    requires |s| >= 20
  {
    Civil(ReadDigits(s[0..4]), ReadDigits(s[5..7]), ReadDigits(s[8..10]), ReadDigits(s[11..13]), ReadDigits(s[14..16]),
          ReadDigits(s[17..19]), ReadFraction(s[19..|s| - 1]))
  }

  /** The time a text stands for, if it has the form of one and its date is one of the calendar. */
  function Parse(s: string): Option<Civil> {
    if IsTimeText(s) && OnCalendar(ReadTime(s)) then Some(ReadTime(s)) else None
  }

  // ---- the calendar -----------------------------------------------------------

  /** Year 1970 begins 719528 days after year 0, months are as long as they are, and so are leap years. */
  lemma CalendarFacts(year: nat)
    ensures DaysBeforeYear(1970) == 719_528
    ensures var leap := if Leap(year) then 1 else 0;
            && DaysBeforeMonth(year, 2) == 31 && DaysBeforeMonth(year, 3) == 59 + leap
            && DaysBeforeMonth(year, 4) == 90 + leap && DaysBeforeMonth(year, 5) == 120 + leap
            && DaysBeforeMonth(year, 6) == 151 + leap && DaysBeforeMonth(year, 7) == 181 + leap
            && DaysBeforeMonth(year, 8) == 212 + leap && DaysBeforeMonth(year, 9) == 243 + leap
            && DaysBeforeMonth(year, 10) == 273 + leap && DaysBeforeMonth(year, 11) == 304 + leap
            && DaysBeforeMonth(year, 12) == 334 + leap && DaysInMonth(year, 12) == 31
    ensures DaysBeforeYear(year + 1) - DaysBeforeYear(year) == if Leap(year) then 366 else 365
    ensures Leap(2000) && Leap(2024) && !Leap(1900) && !Leap(2023)
  {
    YearStep(year);
    assert DaysBeforeMonth(year, 2) == 31;
    assert DaysBeforeMonth(year, 4) == DaysBeforeMonth(year, 2) + DaysInMonth(year, 2) + 31;
    assert DaysBeforeMonth(year, 6) == DaysBeforeMonth(year, 4) + 61;
    assert DaysBeforeMonth(year, 8) == DaysBeforeMonth(year, 6) + 61;
    assert DaysBeforeMonth(year, 10) == DaysBeforeMonth(year, 8) + 61;
    assert DaysBeforeMonth(year, 12) == DaysBeforeMonth(year, 10) + 61;
  }

  /** The unset time is the first instant of year 1. */
  lemma ZeroTime()
    ensures InstantOf(Civil(1, 1, 1, 0, 0, 0, 0)) == ZERO_TIME
  {
    assert DaysBeforeYear(1) == 366;
  }

  // ---- numbers ----------------------------------------------------------------

  lemma {:induction false} ReadPadded(n: nat, width: nat)
    requires n < Power(width)
    ensures ReadDigits(Padded(n, width)) == n
  {
    if width > 0 {
      ReadPadded(n / 10, width - 1);
      ReadMore(Padded(n / 10, width - 1), n % 10);
    }
  }

  /** Trailing zeros of a fraction do not change it. */
  lemma {:induction false} ReadTrimmed(s: string)
    ensures |Trimmed(s)| <= |s| && ReadDigits(Trimmed(s)) * Power(|s| - |Trimmed(s)|) == ReadDigits(s)
  {
    if |s| > 0 && s[|s| - 1] == '0' {
      var front := s[..|s| - 1];
      ReadTrimmed(front);
      var k, r := |front| - |Trimmed(front)|, ReadDigits(Trimmed(front));
      assert Power(k + 1) == 10 * Power(k);
      assert r * (10 * Power(k)) == 10 * (r * Power(k));
    }
  }

  // ---- the text in parts ------------------------------------------------------

  lemma Parts(p: string, q: string, rest: string)
    ensures var s := p + (q + rest);
            |s| == |p| + |q| + |rest| && s[..|p|] == p && s[|p|..|p| + |q|] == q && s[|p| + |q|..] == rest
  {
  }

  /** A field of two digits and what follows it. */
  lemma TwoDigits(s: string, n: nat, separator: string, rest: string)
    requires n < 100 && |separator| == 1 && s == Padded(n, 2) + (separator + rest)
    ensures |s| == 3 + |rest| && ReadDigits(s[0..2]) == n && IsDigit(s[0]) && IsDigit(s[1])
    ensures s[3..] == rest && s[2] == separator[0]
  {
    assert Power(2) == 100;
    PaddedLength(n, 2);
    ReadPadded(n, 2);
    Parts(Padded(n, 2), separator, rest);
    assert s[0..2] == Padded(n, 2);
  }

  lemma LastDigits(s: string, n: nat, rest: string)
    requires n < 100 && s == Padded(n, 2) + rest
    ensures |s| == 2 + |rest| && ReadDigits(s[0..2]) == n && IsDigit(s[0]) && IsDigit(s[1]) && s[2..] == rest
  {
    assert Power(2) == 100;
    PaddedLength(n, 2);
    ReadPadded(n, 2);
    assert s[0..2] == Padded(n, 2);
  }

  lemma FourDigits(s: string, n: nat, separator: string, rest: string)
    requires n < 10_000 && |separator| == 1 && s == Padded(n, 4) + (separator + rest)
    ensures |s| == 5 + |rest| && ReadDigits(s[0..4]) == n && forall i :: 0 <= i < 4 ==> IsDigit(s[i])
    ensures s[5..] == rest && s[4] == separator[0]
  {
    assert Power(2) == 100 && Power(4) == 100 * Power(2);
    PaddedLength(n, 4);
    ReadPadded(n, 4);
    Parts(Padded(n, 4), separator, rest);
    assert s[0..4] == Padded(n, 4);
  }

  lemma Behind(s: string, k: nat, a: string)
    requires k <= |s| && s[k..] == a
    ensures |s| == k + |a| && forall i :: 0 <= i < |a| ==> s[k + i] == a[i]
    ensures |a| >= 2 ==> s[k..k + 2] == a[0..2]
  {
  }

  lemma EncodeCons(f: Field, fields: seq<Field>, rest: string)
    ensures Encode([f] + fields, rest) == Padded(f.value, f.width) + (f.separator + Encode(fields, rest))
  {
    assert ([f] + fields)[1..] == fields;
  }

  /** A text that ends in a, which after three letters ends in b, which after k letters ends in rest. */
  lemma Pieces(s: string, n: nat, a: string, b: string, k: nat, rest: string)
    requires n <= |s| && s[n..] == a && |a| >= 3 && a[3..] == b && 2 <= k <= |b| && b[k..] == rest
    ensures |s| == n + 3 + k + |rest| && s[n + 3 + k..] == rest
    ensures s[n..n + 2] == a[0..2] && s[n + 3..n + 5] == b[0..2]
    ensures s[n] == a[0] && s[n + 1] == a[1] && s[n + 2] == a[2] && s[n + 3] == b[0] && s[n + 4] == b[1]
    ensures k == 3 ==> s[n + 5] == b[2]
  {
    Behind(s, n, a);
    assert s[n..][3..] == s[n + 3..];
    Behind(s, n + 3, b);
    assert s[n + 3..][k..] == s[n + 3 + k..];
    assert s[n + 0] == a[0] && s[n + 3 + 0] == b[0];
  }

  ghost predicate TwoThen(s: string, n: nat, separator: char, rest: string) {
    && |s| == 3 + |rest| && ReadDigits(s[0..2]) == n && IsDigit(s[0]) && IsDigit(s[1]) && s[2] == separator
    && s[3..] == rest
  }

  lemma ClockFacts(s: string, h: nat, a: string, mi: nat, b: string, sec: nat, rest: string)
    requires TwoThen(s, h, ':', a) && TwoThen(a, mi, ':', b)
    requires |b| == 2 + |rest| && ReadDigits(b[0..2]) == sec && IsDigit(b[0]) && IsDigit(b[1]) && b[2..] == rest
    ensures |s| == 8 + |rest| && ReadDigits(s[0..2]) == h && ReadDigits(s[3..5]) == mi && ReadDigits(s[6..8]) == sec
    ensures s[2] == s[5] == ':' && s[8..] == rest && forall i :: 0 <= i < 8 && i != 2 && i != 5 ==> IsDigit(s[i])
  {
    hide ReadDigits, IsDigit;
    Pieces(s, 3, a, b, 2, rest);
  }

  /** The time of day stands where it is read. */
  lemma ClockPart(s: string, h: nat, mi: nat, sec: nat, rest: string)
    requires h < 24 && mi < 60 && sec < 60
    requires s == Padded(h, 2) + (":" + (Padded(mi, 2) + (":" + (Padded(sec, 2) + rest))))
    ensures |s| == 8 + |rest| && ReadDigits(s[0..2]) == h && ReadDigits(s[3..5]) == mi && ReadDigits(s[6..8]) == sec
    ensures s[2] == s[5] == ':' && s[8..] == rest && forall i :: 0 <= i < 8 && i != 2 && i != 5 ==> IsDigit(s[i])
  {
    hide Padded, ReadDigits, IsDigit;
    var b := Padded(sec, 2) + rest;
    var a := Padded(mi, 2) + (":" + b);
    TwoDigits(s, h, ":", a);
    TwoDigits(a, mi, ":", b);
    LastDigits(b, sec, rest);
    ClockFacts(s, h, a, mi, b, sec, rest);
  }

  lemma DateFacts(s: string, y: nat, a: string, mo: nat, b: string, d: nat, rest: string)
    requires |s| == 5 + |a| && ReadDigits(s[0..4]) == y && (forall i :: 0 <= i < 4 ==> IsDigit(s[i])) && s[4] == '-'
    requires s[5..] == a && TwoThen(a, mo, '-', b) && TwoThen(b, d, 'T', rest)
    ensures |s| == 11 + |rest| && ReadDigits(s[0..4]) == y && ReadDigits(s[5..7]) == mo && ReadDigits(s[8..10]) == d
    ensures s[4] == s[7] == '-' && s[10] == 'T' && s[11..] == rest
    ensures forall i :: 0 <= i < 10 && i != 4 && i != 7 ==> IsDigit(s[i])
  {
    hide ReadDigits, IsDigit;
    Pieces(s, 5, a, b, 3, rest);
  }

  lemma DatePart(s: string, y: nat, mo: nat, d: nat, rest: string)
    requires y < 10_000 && mo < 100 && d < 100
    requires s == Padded(y, 4) + ("-" + (Padded(mo, 2) + ("-" + (Padded(d, 2) + ("T" + rest)))))
    ensures |s| == 11 + |rest| && ReadDigits(s[0..4]) == y && ReadDigits(s[5..7]) == mo && ReadDigits(s[8..10]) == d
    ensures s[4] == s[7] == '-' && s[10] == 'T' && s[11..] == rest
    ensures forall i :: 0 <= i < 10 && i != 4 && i != 7 ==> IsDigit(s[i])
  {
    hide Padded, ReadDigits, IsDigit;
    var b := Padded(d, 2) + ("T" + rest);
    var a := Padded(mo, 2) + ("-" + b);
    FourDigits(s, y, "-", a);
    TwoDigits(a, mo, "-", b);
    TwoDigits(b, d, "T", rest);
    DateFacts(s, y, a, mo, b, d, rest);
  }

  lemma EncodedClock(s: int, rest: string)
    ensures Encode(ClockFields(s), rest)
         == Padded(s / 3600 % 24, 2)
            + (":" + (Padded(s / 60 % 60, 2) + (":" + (Padded(s % 60, 2) + rest))))
  {
    var f := ClockFields(s);
    assert f == [f[0]] + ([f[1]] + ([f[2]] + []));
    EncodeCons(f[0], [f[1]] + ([f[2]] + []), rest);
    EncodeCons(f[1], [f[2]] + [], rest);
    EncodeCons(f[2], [], rest);
    assert "" + rest == rest;
  }

  lemma EncodedDate(day: nat, more: seq<Field>, rest: string)
    ensures Encode(DateFields(day) + more, rest)
         == Padded(YearOf(day), 4)
            + ("-" + (Padded(MonthOf(day), 2) + ("-" + (Padded(DayOfMonth(day), 2) + ("T" + Encode(more, rest))))))
  {
    var f := DateFields(day);
    assert f + more == [f[0]] + ([f[1]] + ([f[2]] + more));
    EncodeCons(f[0], [f[1]] + ([f[2]] + more), rest);
    EncodeCons(f[1], [f[2]] + more, rest);
    EncodeCons(f[2], more, rest);
  }

  // ---- reading back -----------------------------------------------------------

  /** The text shows the date and the time of day, and they make up the time down to the second. */
  lemma SecondsRead(t: int, rest: string)
    requires InRange(t) && |rest| > 0
    ensures var s := Encode(SecondFields(t), rest);
            && |s| == 19 + |rest| && s[19..] == rest
            && s[4] == s[7] == '-' && s[10] == 'T' && s[13] == s[16] == ':'
            && (forall i :: 0 <= i < 19 && i !in {4, 7, 10, 13, 16} ==> IsDigit(s[i]))
            && var c := ReadTime(s);
               OnCalendar(c.(nanos := 0)) && InstantOf(c.(nanos := 0)) == t / NS_PER_SECOND * NS_PER_SECOND
  {
    hide Padded, ReadDigits, ReadFraction, Encode, DaysBeforeYear, DaysBeforeMonth, DaysInMonth, YearOf, MonthOf,
        DayOfMonth;
    var day, z := DayOf(t), t / NS_PER_SECOND;
    var clock := Encode(ClockFields(z), rest);
    var s := Encode(SecondFields(t), rest);
    DayBelow(t);
    DateFits(day);
    EncodedDate(day, ClockFields(z), rest);
    EncodedClock(z, rest);
    DatePart(s, YearOf(day), MonthOf(day), DayOfMonth(day), clock);
    ClockPart(clock, z / 3600 % 24, z / 60 % 60, z % 60, rest);
    SliceOfRest(s, clock);
    DateMakesDay(day);
    ClockMakesSeconds(z);
    DayOfSeconds(t);
    CalendarFacts(0);
  }

  lemma SliceOfRest(s: string, clock: string)
    requires |s| == 11 + |clock| && |clock| >= 8 && s[11..] == clock
    ensures s[11..13] == clock[0..2] && s[14..16] == clock[3..5] && s[17..19] == clock[6..8] && s[19..] == clock[8..]
    ensures forall i :: 0 <= i < 8 ==> s[11 + i] == clock[i]
  {
  }

  lemma DateFits(day: nat)
    requires day < DaysBeforeYear(YEAR_LIMIT)
    ensures YearOf(day) < 10_000 && MonthOf(day) < 100 && DayOfMonth(day) < 100
  {
    assert Power(2) == 100 && Power(4) == 100 * Power(2);
    DateFit(day);
  }

  lemma DateMakesDay(day: nat)
    ensures 1 <= MonthOf(day) <= 12 && 1 <= DayOfMonth(day) <= DaysInMonth(YearOf(day), MonthOf(day))
    ensures DaysBeforeYear(YearOf(day)) + DaysBeforeMonth(YearOf(day), MonthOf(day)) + DayOfMonth(day) - 1 == day
  {
  }

  lemma ClockMakesSeconds(z: int)
    ensures z / 86_400 * 86_400 + z / 3600 % 24 * 3600 + z / 60 % 60 * 60 + z % 60 == z
    ensures 0 <= z / 3600 % 24 < 24 && 0 <= z / 60 % 60 < 60 && 0 <= z % 60 < 60
  {
    Nested(z);
  }

  lemma Whole(t: int)
    ensures t == t / NS_PER_SECOND * NS_PER_SECOND + Nanos(t) && Nanos(t) < NS_PER_SECOND
  {
  }

  lemma NanosAdded(c: Civil)
    ensures InstantOf(c) == InstantOf(c.(nanos := 0)) + c.nanos
    ensures OnCalendar(c) <==> OnCalendar(c.(nanos := 0)) && c.nanos < NS_PER_SECOND
  {
  }

  /** The server's text shows a date of the calendar and a time of day, and read back they are the time. */
  lemma DBTimeReads(t: int)
    requires InRange(t)
    ensures var s := FormatDBTime(t);
            |s| == 30 && Parse(s).Some? && OnCalendar(Parse(s).value) && InstantOf(Parse(s).value) == t
  {
    hide Padded, ReadDigits, Encode, InstantOf, OnCalendar, SecondFields, InRange;
    var digits := Padded(Nanos(t), 9);
    var rest, s := "." + digits + "Z", FormatDBTime(t);
    assert "." + Padded(Nanos(t), 9) + "Z" == rest;
    SecondsRead(t, rest);
    NanosFit(Nanos(t));
    PaddedLength(Nanos(t), 9);
    ReadPadded(Nanos(t), 9);
    Whole(t);
    FractionRead(s, rest, digits);
    NanosAdded(ReadTime(s));
    assert Power(0) == 1;
  }

  lemma FractionRead(s: string, rest: string, digits: string)
    requires |s| == 19 + |rest| && s[19..] == rest && 0 < |digits| <= 9
    requires rest == "." + digits + "Z" && forall i :: 0 <= i < |digits| ==> IsDigit(digits[i])
    ensures ReadFraction(s[19..|s| - 1]) == ReadDigits(digits) * Power(9 - |digits|)
    ensures s[19] == '.' && s[|s| - 1] == 'Z' && forall i :: 20 <= i < |s| - 1 ==> IsDigit(s[i])
  {
    hide *;
    DotAndDigits(digits, rest);
    WithoutEnd(s, 19, rest);
    FractionValue(s[19..|s| - 1], digits);
    FractionLetters(s, rest, digits);
  }

  lemma FractionValue(part: string, digits: string)
    requires part == "." + digits && 0 < |digits| <= 9
    ensures ReadFraction(part) == ReadDigits(digits) * Power(9 - |digits|)
  {
    hide ReadDigits, Power;
    assert part[1..] == digits;
  }

  lemma FractionLetters(s: string, rest: string, digits: string)
    requires |s| == 19 + |rest| && s[19..] == rest && |rest| == |digits| + 2 && rest[0] == '.'
             && rest[|rest| - 1] == 'Z'
    requires forall i :: 1 <= i < |rest| - 1 ==> rest[i] == digits[i - 1]
    requires forall i :: 0 <= i < |digits| ==> IsDigit(digits[i])
    ensures s[19] == '.' && s[|s| - 1] == 'Z' && forall i :: 20 <= i < |s| - 1 ==> IsDigit(s[i])
  {
    hide IsDigit;
    assert s[19 + 0] == rest[0] && s[19 + (|rest| - 1)] == rest[|rest| - 1];
    forall i | 20 <= i < |s| - 1 ensures IsDigit(s[i]) {
      assert s[19 + (i - 19)] == rest[i - 19] == digits[i - 20];
    }
  }

  lemma WithoutEnd(s: string, k: nat, rest: string)
    requires k <= |s| && s[k..] == rest && |rest| > 0
    ensures k <= |s| - 1 && s[k..|s| - 1] == rest[..|rest| - 1]
  {
  }

  lemma DotAndDigits(digits: string, rest: string)
    requires rest == "." + digits + "Z"
    ensures |rest| == |digits| + 2 && rest[..|rest| - 1] == "." + digits && rest[..|rest| - 1][1..] == digits
    ensures rest[0] == '.' && rest[|rest| - 1] == 'Z' && forall i :: 1 <= i < |rest| - 1 ==> rest[i] == digits[i - 1]
  {
  }

  /** And so does the text of the client buffer. */
  lemma NanoReads(t: int)
    requires InRange(t)
    ensures var s := FormatNano(t);
            Parse(s).Some? && OnCalendar(Parse(s).value) && InstantOf(Parse(s).value) == t
  {
    hide Padded, ReadDigits, Encode, InstantOf, OnCalendar, SecondFields, InRange, Trimmed;
    var p, s := Padded(Nanos(t), 9), FormatNano(t);
    var digits, rest := Trimmed(p), Fraction(Nanos(t)) + "Z";
    SecondsRead(t, rest);
    NanosFit(Nanos(t));
    PaddedLength(Nanos(t), 9);
    ReadPadded(Nanos(t), 9);
    ReadTrimmed(p);
    Whole(t);
    if digits == "" {
      assert rest == "Z" && s[19] == 'Z' && s[19..|s| - 1] == "" && ReadDigits("") == 0;
    } else {
      TrimmedDigits(p);
      assert rest == "." + digits + "Z";
      FractionRead(s, rest, digits);
    }
    NanosAdded(ReadTime(s));
  }

  lemma {:induction false} TrimmedDigits(s: string)
    requires forall i :: 0 <= i < |s| ==> IsDigit(s[i])
    ensures forall i :: 0 <= i < |Trimmed(s)| ==> IsDigit(Trimmed(s)[i])
  {
    if |s| > 0 {
      TrimmedDigits(s[..|s| - 1]);
    }
  }

  // ---- and back again ---------------------------------------------------------

  /** A day has one date only. */
  lemma OneDate(c: Civil, d: Civil)
    requires OnCalendar(c) && OnCalendar(d)
    requires DaysBeforeYear(c.year) + DaysBeforeMonth(c.year, c.month) + c.day
          == DaysBeforeYear(d.year) + DaysBeforeMonth(d.year, d.month) + d.day
    ensures c.year == d.year && c.month == d.month && c.day == d.day
  {
    hide DaysBeforeYear, DaysBeforeMonth, DaysInMonth;
    WithinYear(c);
    WithinYear(d);
    if c.year < d.year {
      YearsGrow(c.year + 1, d.year);
    } else if d.year < c.year {
      YearsGrow(d.year + 1, c.year);
    } else if c.month < d.month {
      MonthsGrow(c.year, c.month, d.month);
    } else if d.month < c.month {
      MonthsGrow(c.year, d.month, c.month);
    }
  }

  lemma WithinYear(c: Civil)
    requires OnCalendar(c)
    ensures DaysBeforeYear(c.year) < DaysBeforeYear(c.year) + DaysBeforeMonth(c.year, c.month) + c.day
         <= DaysBeforeYear(c.year + 1)
  {
    YearStep(c.year);
    MonthsFill(c.year);
    MonthsGrow(c.year, c.month, 12);
  }

  lemma OneTime(c: Civil, d: Civil)
    requires OnCalendar(c) && OnCalendar(d) && InstantOf(c) == InstantOf(d)
    ensures c == d
  {
    hide DaysBeforeYear, DaysBeforeMonth, DaysInMonth;
    OneDate(c, d);
  }

  /** Every time of every date of the years 0 to 9999 is written as itself. */
  lemma WrittenAsItself(c: Civil)
    requires OnCalendar(c) && c.year < 10_000
    ensures InRange(InstantOf(c))
    ensures Parse(FormatDBTime(InstantOf(c))) == Some(c) == Parse(FormatNano(InstantOf(c)))
  {
    hide FormatDBTime, FormatNano, Parse, InstantOf, OnCalendar, InRange;
    CivilInRange(c);
    DBTimeReads(InstantOf(c));
    NanoReads(InstantOf(c));
    OneTime(Parse(FormatDBTime(InstantOf(c))).value, c);
    OneTime(Parse(FormatNano(InstantOf(c))).value, c);
  }

  lemma CivilInRange(c: Civil)
    requires OnCalendar(c) && c.year < 10_000
    ensures InRange(InstantOf(c))
  {
    hide DaysBeforeYear, DaysBeforeMonth, DaysInMonth, InstantOf, InRange;
    CalendarFacts(0);
    WithinYear(c);
    YearsGrow(c.year + 1, 10_000);
    RangeOf(c, DaysBeforeYear(c.year) + DaysBeforeMonth(c.year, c.month) + c.day - 1);
  }

  lemma RangeOf(c: Civil, day: int)
    requires OnCalendar(c) && day == DaysBeforeYear(c.year) + DaysBeforeMonth(c.year, c.month) + c.day - 1
    requires 0 <= day < DaysBeforeYear(YEAR_LIMIT) && DaysBeforeYear(1970) == 719_528
    ensures InRange(InstantOf(c))
  {
    hide DaysBeforeYear, DaysBeforeMonth, DaysInMonth;
    assert InstantOf(c) >= (day - 719_528) * DAY;
    assert InstantOf(c) < (day - 719_528) * DAY + DAY;
  }
}
