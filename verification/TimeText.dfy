/** Times as the databases store them: text that is compared character by character. */
module TimeText {
  import opened Decimals
  import opened Observations

  // ---- the calendar -----------------------------------------------------------

  const DAY: int := 86_400 * NS_PER_SECOND
  const EPOCH_YEAR: nat := 1970
  const YEAR_LIMIT: nat := 10_000

  predicate Leap(year: nat) {
    year % 4 == 0 && (year % 100 != 0 || year % 400 == 0)
  }

  function DaysInYear(year: nat): nat { if Leap(year) then 366 else 365 }

  function DaysInMonth(year: nat, month: nat): nat {
    if month == 2 then (if Leap(year) then 29 else 28)
    else if month == 4 || month == 6 || month == 9 || month == 11 then 30
    else 31
  }

  /** Days from 1 January of year 0, proleptic. */
  function DaysBeforeYear(year: nat): nat {
    365 * year + Multiples(year, 4) - Multiples(year, 100) + Multiples(year, 400)
  }

  /** How many multiples of k there are below n. */
  function Multiples(n: nat, k: nat): nat
    requires k > 0
  {
    if n == 0 then 0 else (n - 1) / k + 1
  }

  function DaysBeforeMonth(year: nat, month: nat): nat {
    if month <= 1 then 0 else DaysBeforeMonth(year, month - 1) + DaysInMonth(year, month - 1)
  }

  lemma MultiplesStep(n: nat, k: nat)
    requires k == 4 || k == 100 || k == 400
    ensures Multiples(n + 1, k) == Multiples(n, k) + (if n % k == 0 then 1 else 0)
  {
  }

  lemma LeapCount(year: nat)
    ensures DaysInYear(year) == 365 + (if year % 4 == 0 then 1 else 0) - (if year % 100 == 0 then 1 else 0)
                                + (if year % 400 == 0 then 1 else 0)
  {
    assert year % 400 == 0 ==> year % 100 == 0;
    assert year % 100 == 0 ==> year % 4 == 0;
  }

  lemma YearStep(year: nat)
    ensures DaysBeforeYear(year + 1) == DaysBeforeYear(year) + DaysInYear(year)
  {
    MultiplesStep(year, 4);
    MultiplesStep(year, 100);
    MultiplesStep(year, 400);
    LeapCount(year);
  }

  lemma MonthsFill(year: nat)
    ensures DaysBeforeMonth(year, 12) + 31 == DaysInYear(year)
  {
    assert DaysBeforeMonth(year, 2) == 31;
    assert DaysBeforeMonth(year, 4) == DaysBeforeMonth(year, 2) + DaysInMonth(year, 2) + 31;
    assert DaysBeforeMonth(year, 6) == DaysBeforeMonth(year, 4) + 61;
    assert DaysBeforeMonth(year, 8) == DaysBeforeMonth(year, 6) + 61;
    assert DaysBeforeMonth(year, 10) == DaysBeforeMonth(year, 8) + 61;
    assert DaysBeforeMonth(year, 12) == DaysBeforeMonth(year, 10) + 61;
  }

  /** The year a day falls into, counting up. */
  function YearFrom(day: nat, year: nat): (y: nat)
    requires DaysBeforeYear(year) <= day
    ensures DaysBeforeYear(y) <= day < DaysBeforeYear(y + 1)
    decreases day - DaysBeforeYear(year)
  {
    YearStep(year);
    if day < DaysBeforeYear(year + 1) then year else YearFrom(day, year + 1)
  }

  function MonthFrom(year: nat, day: nat, month: nat): (m: nat)
    requires 1 <= month <= 12 && DaysBeforeMonth(year, month) <= day < DaysInYear(year)
    ensures 1 <= m <= 12 && DaysBeforeMonth(year, m) <= day < DaysBeforeMonth(year, m) + DaysInMonth(year, m)
    decreases 12 - month
  {
    MonthsFill(year);
    if month == 12 || day < DaysBeforeMonth(year, month + 1) then month else MonthFrom(year, day, month + 1)
  }

  /** A time that falls into the years 0 to 9999. */
  predicate InRange(t: int) {
    0 <= t + DaysBeforeYear(EPOCH_YEAR) * DAY < DaysBeforeYear(YEAR_LIMIT) * DAY
  }

  // ---- the text ---------------------------------------------------------------

  /** A number written with a fixed count of digits, and what follows it. */
  datatype Field = Field(value: nat, width: nat, separator: string)

  function Padded(n: nat, width: nat): string {
    if width == 0 then "" else Padded(n / 10, width - 1) + [Digit(n % 10)]
  }

  function Encode(fields: seq<Field>, rest: string): string {
    if |fields| == 0 then rest
    else Padded(fields[0].value, fields[0].width) + (fields[0].separator + Encode(fields[1..], rest))
  }

  function DayOf(t: int): nat
    requires InRange(t)
  {
    (t + DaysBeforeYear(EPOCH_YEAR) * DAY) / DAY
  }

  function YearOf(day: nat): nat {
    YearFrom(day, 0)
  }

  function DayOfYear(day: nat): (d: nat)
    ensures d < DaysInYear(YearOf(day))
  {
    YearStep(YearOf(day));
    day - DaysBeforeYear(YearOf(day))
  }

  function MonthOf(day: nat): nat {
    MonthFrom(YearOf(day), DayOfYear(day), 1)
  }

  function DayOfMonth(day: nat): nat {
    DayOfYear(day) - DaysBeforeMonth(YearOf(day), MonthOf(day)) + 1
  }

  function DateFields(day: nat): seq<Field> {
    [Field(YearOf(day), 4, "-"), Field(MonthOf(day), 2, "-"), Field(DayOfMonth(day), 2, "T")]
  }

  /** The time of day at so many seconds after any midnight. */
  function ClockFields(s: int): seq<Field> {
    [Field(s / 3600 % 24, 2, ":"), Field(s / 60 % 60, 2, ":"), Field(s % 60, 2, "")]
  }

  /** Date and time of day down to the second. */
  function SecondFields(t: int): seq<Field>
    requires InRange(t)
  {
    DateFields(DayOf(t)) + ClockFields(t / NS_PER_SECOND)
  }

  function Nanos(t: int): nat { t % NS_PER_SECOND }

  /** The server's layout: always nine digits of fraction. */
  function FormatDBTime(t: int): string
    requires InRange(t)
  {
    Encode(SecondFields(t), "." + Padded(Nanos(t), 9) + "Z")
  }

  function Trimmed(digits: string): string {
    if |digits| > 0 && digits[|digits| - 1] == '0' then Trimmed(digits[..|digits| - 1]) else digits
  }

  function Fraction(nanos: nat): string {
    var digits := Trimmed(Padded(nanos, 9));
    if digits == "" then "" else "." + digits
  }

  /** The client buffer's layout: trailing zeros of the fraction are dropped, and the dot with them. */
  function FormatNano(t: int): string
    requires InRange(t)
  {
    Encode(SecondFields(t), Fraction(Nanos(t)) + "Z")
  }

  // ---- comparing text ---------------------------------------------------------

  /** Character by character, the shorter first: how the database compares text. */
  predicate TextBefore(a: string, b: string) {
    if |b| == 0 then false
    else if |a| == 0 then true
    else a[0] < b[0] || (a[0] == b[0] && TextBefore(a[1..], b[1..]))
  }

  lemma {:induction false} TextBeforeStrict(a: string, b: string)
    ensures TextBefore(a, b) ==> a != b && !TextBefore(b, a)
  {
    if |a| > 0 && |b| > 0 {
      TextBeforeStrict(a[1..], b[1..]);
    }
  }

  lemma {:induction false} SamePrefix(p: string, x: string, y: string)
    ensures TextBefore(p + x, p + y) <==> TextBefore(x, y)
  {
    if |p| > 0 {
      assert (p + x)[1..] == p[1..] + x && (p + y)[1..] == p[1..] + y;
      SamePrefix(p[1..], x, y);
    } else {
      assert p + x == x && p + y == y;
    }
  }

  function Power(width: nat): nat { if width == 0 then 1 else 10 * Power(width - 1) }

  lemma {:induction false} PaddedLength(n: nat, width: nat)
    ensures |Padded(n, width)| == width && forall i :: 0 <= i < width ==> IsDigit(Padded(n, width)[i])
  {
    if width > 0 { PaddedLength(n / 10, width - 1); }
  }

  lemma DigitOrder(d: nat, e: nat, x: string, y: string)
    requires d < 10 && e < 10
    ensures TextBefore([Digit(d)] + x, [Digit(e)] + y) <==> d < e || (d == e && TextBefore(x, y))
  {
    var a, b := [Digit(d)] + x, [Digit(e)] + y;
    assert a[0] == Digit(d) && a[1..] == x && b[0] == Digit(e) && b[1..] == y;
    assert d < e ==> Digit(d) < Digit(e);
    assert e < d ==> Digit(e) < Digit(d);
  }

  /** Equally wide numbers compare as text like numbers, and only then decides what follows. */
  lemma {:induction false} PaddedOrder(n: nat, m: nat, width: nat, x: string, y: string)
    requires n < Power(width) && m < Power(width)
    ensures TextBefore(Padded(n, width) + x, Padded(m, width) + y) <==> n < m || (n == m && TextBefore(x, y))
  {
    if width == 0 {
      assert Padded(n, 0) + x == x && Padded(m, 0) + y == y;
    } else {
      var d, e := [Digit(n % 10)], [Digit(m % 10)];
      assert Padded(n, width) + x == Padded(n / 10, width - 1) + (d + x);
      assert Padded(m, width) + y == Padded(m / 10, width - 1) + (e + y);
      PaddedOrder(n / 10, m / 10, width - 1, d + x, e + y);
      DigitOrder(n % 10, m % 10, x, y);
    }
  }

  ghost predicate SameLayout(a: seq<Field>, b: seq<Field>) {
    |a| == |b| && forall i :: 0 <= i < |a| ==> SameSlot(a[i], b[i])
  }

  ghost predicate SameSlot(f: Field, g: Field) {
    f.width == g.width && f.separator == g.separator && f.value < Power(f.width) && g.value < Power(g.width)
  }

  predicate FieldsBefore(a: seq<Field>, b: seq<Field>)
    requires |a| == |b|
  {
    |a| > 0 && (a[0].value < b[0].value || (a[0].value == b[0].value && FieldsBefore(a[1..], b[1..])))
  }

  lemma SlotOrder(f: Field, g: Field, x: string, y: string)
    requires SameSlot(f, g)
    ensures TextBefore(Padded(f.value, f.width) + (f.separator + x), Padded(g.value, g.width) + (g.separator + y))
       <==> f.value < g.value || (f.value == g.value && TextBefore(x, y))
  {
    PaddedOrder(f.value, g.value, f.width, f.separator + x, g.separator + y);
    SamePrefix(f.separator, x, y);
  }

  lemma {:induction false} EncodeOrder(a: seq<Field>, b: seq<Field>, x: string, y: string)
    requires SameLayout(a, b)
    ensures TextBefore(Encode(a, x), Encode(b, y)) <==> FieldsBefore(a, b) || (a == b && TextBefore(x, y))
  {
    if |a| > 0 {
      assert SameSlot(a[0], b[0]) && SameLayout(a[1..], b[1..]);
      EncodeOrder(a[1..], b[1..], x, y);
      SlotOrder(a[0], b[0], Encode(a[1..], x), Encode(b[1..], y));
      HeadAndTail(a, b);
    }
  }

  lemma HeadAndTail(a: seq<Field>, b: seq<Field>)
    requires |a| > 0 && |b| > 0 && a[0].width == b[0].width && a[0].separator == b[0].separator
    ensures a == b <==> a[0].value == b[0].value && a[1..] == b[1..]
  {
    assert a == [a[0]] + a[1..] && b == [b[0]] + b[1..];
  }

  // ---- the calendar keeps order -----------------------------------------------

  lemma {:induction false} YearsGrow(y: nat, z: nat)
    requires y <= z
    ensures DaysBeforeYear(y) <= DaysBeforeYear(z)
    decreases z - y
  {
    if y < z {
      YearStep(y);
      YearsGrow(y + 1, z);
    }
  }

  lemma {:induction false} MonthsGrow(year: nat, m: nat, n: nat)
    requires 1 <= m <= n
    ensures m < n ==> DaysBeforeMonth(year, m) + DaysInMonth(year, m) <= DaysBeforeMonth(year, n)
    ensures m == n ==> DaysBeforeMonth(year, m) == DaysBeforeMonth(year, n)
  {
    if m + 1 < n {
      MonthsGrow(year, m, n - 1);
    }
  }

  lemma YearOrder(d: nat, e: nat)
    requires d < e
    ensures YearOf(d) < YearOf(e) || (YearOf(d) == YearOf(e) && DayOfYear(d) < DayOfYear(e))
  {
    YearAtMost(YearOf(d), d, YearOf(e), e);
  }

  lemma YearAtMost(y: nat, d: nat, z: nat, e: nat)
    requires DaysBeforeYear(y) <= d < e < DaysBeforeYear(z + 1)
    ensures y <= z
  {
    if z < y {
      YearsGrow(z + 1, y);
    }
  }

  lemma MonthOrder(year: nat, d: nat, e: nat)
    requires d < e < DaysInYear(year)
    ensures var m, n := MonthFrom(year, d, 1), MonthFrom(year, e, 1);
            m < n || (m == n && d - DaysBeforeMonth(year, m) < e - DaysBeforeMonth(year, n))
  {
    var m, n := MonthFrom(year, d, 1), MonthFrom(year, e, 1);
    if n < m {
      MonthsGrow(year, n, m);
    }
  }

  /** Days order like year, month and day of the month. */
  lemma DateOrder(d: nat, e: nat)
    requires d < e
    ensures FieldsBefore(DateFields(d), DateFields(e))
  {
    YearOrder(d, e);
    if YearOf(d) == YearOf(e) {
      MonthOrder(YearOf(d), DayOfYear(d), DayOfYear(e));
    }
    var f, g := DateFields(d), DateFields(e);
    Dropped(f, g, if f[0].value < g[0].value then 0 else if f[1].value < g[1].value then 1 else 2);
  }

  lemma DivOrder(a: int, b: int, k: int)
    requires k == 60 || k == 24 || k == NS_PER_SECOND
    ensures a < b <==> a / k < b / k || (a / k == b / k && a % k < b % k)
  {
  }

  lemma Nested(s: int)
    ensures s / 60 / 60 == s / 3600 && s / 3600 / 24 == s / 86_400
  {
  }

  lemma DayBelow(t: int)
    requires InRange(t)
    ensures DayOf(t) < DaysBeforeYear(YEAR_LIMIT)
  {
  }

  lemma DayOfSeconds(t: int)
    requires InRange(t)
    ensures DayOf(t) == t / NS_PER_SECOND / 86_400 + DaysBeforeYear(EPOCH_YEAR)
  {
    var k := DaysBeforeYear(EPOCH_YEAR);
    assert (t + k * DAY) / DAY == t / DAY + k;
    assert t / DAY == t / NS_PER_SECOND / 86_400;
  }

  /** Within a day the time of day decides like the number of seconds does. */
  lemma ClockOrder(s: int, z: int)
    requires s < z
    ensures s / 86_400 < z / 86_400 || (s / 86_400 == z / 86_400 && FieldsBefore(ClockFields(s), ClockFields(z)))
  {
    Nested(s);
    Nested(z);
    DivOrder(s, z, 60);
    DivOrder(s / 60, z / 60, 60);
    DivOrder(s / 3600, z / 3600, 24);
    if s / 86_400 == z / 86_400 {
      Dropped(ClockFields(s), ClockFields(z), if s / 3600 < z / 3600 then 0 else if s / 60 < z / 60 then 1 else 2);
    }
  }

  lemma DateFit(day: nat)
    requires day < DaysBeforeYear(YEAR_LIMIT)
    ensures YearOf(day) < Power(4) && MonthOf(day) < Power(2) && DayOfMonth(day) < Power(2)
  {
    assert Power(2) == 100 && Power(4) == 100 * Power(2);
    YearBelow(YearOf(day), day);
  }

  lemma YearBelow(year: nat, day: nat)
    requires DaysBeforeYear(year) <= day < DaysBeforeYear(YEAR_LIMIT)
    ensures year < YEAR_LIMIT
  {
    if year >= YEAR_LIMIT {
      YearsGrow(YEAR_LIMIT, year);
    }
  }

  lemma DateLayout(d: nat, e: nat)
    requires d < DaysBeforeYear(YEAR_LIMIT) && e < DaysBeforeYear(YEAR_LIMIT)
    ensures SameLayout(DateFields(d), DateFields(e))
  {
    hide YearOf, MonthOf, DayOfMonth, DaysBeforeYear, Power;
    DateFit(d);
    DateFit(e);
  }

  lemma ClockLayout(s: int, z: int)
    ensures SameLayout(ClockFields(s), ClockFields(z))
  {
    assert Power(2) == 100;
  }

  lemma LayoutConcat(a: seq<Field>, b: seq<Field>, c: seq<Field>, d: seq<Field>)
    requires SameLayout(a, b) && SameLayout(c, d)
    ensures SameLayout(a + c, b + d)
  {
  }

  /** The first field that differs decides. */
  lemma {:induction false} Dropped(a: seq<Field>, b: seq<Field>, i: nat)
    requires |a| == |b| && i < |a| && a[i].value < b[i].value && forall j :: 0 <= j < i ==> a[j].value == b[j].value
    ensures FieldsBefore(a, b)
  {
    if i > 0 {
      Dropped(a[1..], b[1..], i - 1);
    }
  }

  lemma {:induction false} FieldsConcat(a: seq<Field>, b: seq<Field>, c: seq<Field>, d: seq<Field>)
    requires |a| == |b| && |c| == |d| && (FieldsBefore(a, b) || (a == b && FieldsBefore(c, d)))
    ensures FieldsBefore(a + c, b + d)
  {
    if |a| == 0 {
      assert a + c == c && b + d == d;
    } else {
      assert (a + c)[1..] == a[1..] + c && (b + d)[1..] == b[1..] + d;
      if a[0].value == b[0].value {
        FieldsConcat(a[1..], b[1..], c, d);
      }
    }
  }

  /** A later second has later fields; the same second has the same. */
  lemma SecondOrder(a: int, b: int)
    requires InRange(a) && InRange(b) && a / NS_PER_SECOND < b / NS_PER_SECOND
    ensures FieldsBefore(SecondFields(a), SecondFields(b))
  {
    var s, z := a / NS_PER_SECOND, b / NS_PER_SECOND;
    DayOfSeconds(a);
    DayOfSeconds(b);
    ClockOrder(s, z);
    if DayOf(a) < DayOf(b) {
      DateOrder(DayOf(a), DayOf(b));
    }
    FieldsConcat(DateFields(DayOf(a)), DateFields(DayOf(b)), ClockFields(s), ClockFields(z));
  }

  lemma SameSecond(a: int, b: int)
    requires InRange(a) && InRange(b) && a / NS_PER_SECOND == b / NS_PER_SECOND
    ensures SecondFields(a) == SecondFields(b)
  {
    DayOfSeconds(a);
    DayOfSeconds(b);
  }

  lemma {:induction false} FieldsBeforeStrict(a: seq<Field>, b: seq<Field>)
    requires |a| == |b| && FieldsBefore(a, b)
    ensures a != b
  {
    if a[0].value == b[0].value {
      FieldsBeforeStrict(a[1..], b[1..]);
    }
  }

  /** Whatever follows the seconds only decides within one second. */
  lemma TimeOrder(a: int, b: int, x: string, y: string)
    requires InRange(a) && InRange(b) && a <= b
    ensures TextBefore(Encode(SecondFields(a), x), Encode(SecondFields(b), y))
       <==> a / NS_PER_SECOND < b / NS_PER_SECOND || TextBefore(x, y)
  {
    DayBelow(a);
    DayBelow(b);
    DateLayout(DayOf(a), DayOf(b));
    ClockLayout(a / NS_PER_SECOND, b / NS_PER_SECOND);
    LayoutConcat(DateFields(DayOf(a)), DateFields(DayOf(b)), ClockFields(a / NS_PER_SECOND),
                 ClockFields(b / NS_PER_SECOND));
    EncodeOrder(SecondFields(a), SecondFields(b), x, y);
    if a / NS_PER_SECOND < b / NS_PER_SECOND {
      SecondOrder(a, b);
    } else {
      SameSecond(a, b);
      if FieldsBefore(SecondFields(a), SecondFields(b)) {
        FieldsBeforeStrict(SecondFields(a), SecondFields(b));
      }
    }
  }

  // ---- the server's layout ----------------------------------------------------

  lemma NanosFit(n: nat)
    requires n < NS_PER_SECOND
    ensures n < Power(9)
  {
    assert Power(3) == 1000;
    assert Power(6) == 1000 * Power(3);
    assert Power(9) == 1000 * Power(6);
  }

  lemma DBTimeBefore(a: int, b: int)
    requires InRange(a) && InRange(b) && a < b
    ensures TextBefore(FormatDBTime(a), FormatDBTime(b))
  {
    var x, y := Padded(Nanos(a), 9) + "Z", Padded(Nanos(b), 9) + "Z";
    TimeOrder(a, b, "." + x, "." + y);
    assert "." + x == "." + Padded(Nanos(a), 9) + "Z" && "." + y == "." + Padded(Nanos(b), 9) + "Z";
    if a / NS_PER_SECOND == b / NS_PER_SECOND {
      DivOrder(a, b, NS_PER_SECOND);
      NanosFit(Nanos(a));
      NanosFit(Nanos(b));
      PaddedOrder(Nanos(a), Nanos(b), 9, "Z", "Z");
      SamePrefix(".", x, y);
    } else {
      DivOrder(a, b, NS_PER_SECOND);
    }
  }

  /** For times in the years 0 to 9999 the stored texts compare exactly like the times themselves. */
  lemma DBTimeOrder(a: int, b: int)
    requires InRange(a) && InRange(b)
    ensures TextBefore(FormatDBTime(a), FormatDBTime(b)) <==> a < b
    ensures FormatDBTime(a) == FormatDBTime(b) <==> a == b
  {
    TextBeforeStrict(FormatDBTime(a), FormatDBTime(b));
    TextBeforeStrict(FormatDBTime(b), FormatDBTime(a));
    if a < b {
      DBTimeBefore(a, b);
    } else if b < a {
      DBTimeBefore(b, a);
    }
  }

  /** So comparing the texts selects exactly the window of times. */
  lemma TextWindow(at: int, start: int, end: int)
    requires InRange(at) && InRange(start) && InRange(end)
    ensures !TextBefore(FormatDBTime(at), FormatDBTime(start)) && TextBefore(FormatDBTime(at), FormatDBTime(end))
       <==> start <= at < end
  {
    DBTimeOrder(at, start);
    DBTimeOrder(at, end);
  }

  // ---- the client buffer's layout ---------------------------------------------

  lemma {:induction false} TrimmedHead(s: string)
    requires |s| > 0
    ensures Trimmed(s) == if Trimmed(s[1..]) == "" && s[0] == '0' then "" else [s[0]] + Trimmed(s[1..])
  {
    var front := s[..|s| - 1];
    if |s| > 1 {
      TrimmedHead(front);
      assert front[1..] == s[1..][..|s| - 2];
      assert s[1..] == s[1..][..|s| - 2] + [s[|s| - 1]] && s == front + [s[|s| - 1]];
      assert s == [s[0]] + s[1..];
    } else {
      assert s[1..] == "" && front == "" && s == [s[0]];
    }
  }

  ghost predicate Digits(s: string) {
    forall i :: 0 <= i < |s| ==> IsDigit(s[i])
  }

  /** Without trailing zeros, digits keep their order as text exactly when neither runs out inside
      the other: the letter after the shorter one is larger than any digit. */
  lemma {:induction false} TrimmedOrder(p: string, q: string)
    requires |p| == |q| && Digits(p) && Digits(q) && TextBefore(p, q)
    ensures Trimmed(q) != ""
    ensures TextBefore(Trimmed(p) + "Z", Trimmed(q) + "Z") <==> !(Trimmed(p) <= Trimmed(q))
  {
    TrimmedHead(p);
    TrimmedHead(q);
    var tp, tq := Trimmed(p[1..]), Trimmed(q[1..]);
    if p[0] == q[0] {
      TrimmedOrder(p[1..], q[1..]);
    }
    assert [p[0]] + tp + "Z" == [p[0]] + (tp + "Z") && [q[0]] + tq + "Z" == [q[0]] + (tq + "Z");
    assert ([p[0]] + (tp + "Z"))[1..] == tp + "Z" && ([q[0]] + (tq + "Z"))[1..] == tq + "Z";
    PrefixHead(p[0], tp, q[0], tq);
    assert Trimmed(p) == "" ==> (Trimmed(p) + "Z")[0] == 'Z' && (Trimmed(q) + "Z")[0] == q[0];
  }

  lemma PrefixHead(c: char, x: string, d: char, y: string)
    ensures [c] + x <= [d] + y <==> c == d && x <= y
  {
    if [c] + x <= [d] + y {
      assert ([c] + x)[0] == ([d] + y)[0];
      assert forall i :: 0 <= i < |x| ==> ([c] + x)[i + 1] == x[i] && ([d] + y)[i + 1] == y[i];
    }
  }

  lemma FractionOrder(n: nat, m: nat)
    requires n < m < NS_PER_SECOND
    ensures TextBefore(Fraction(n) + "Z", Fraction(m) + "Z") <==> !(Fraction(n) <= Fraction(m))
  {
    var p, q := Padded(n, 9), Padded(m, 9);
    NanosFit(n);
    NanosFit(m);
    PaddedLength(n, 9);
    PaddedLength(m, 9);
    PaddedOrder(n, m, 9, "", "");
    assert p + "" == p && q + "" == q;
    TrimmedOrder(p, q);
    var tp, tq := Trimmed(p), Trimmed(q);
    assert "." + tq + "Z" == "." + (tq + "Z");
    if tp == "" {
      assert ("." + (tq + "Z"))[0] == '.' && (Fraction(n) + "Z")[0] == 'Z';
    } else {
      assert "." + tp + "Z" == "." + (tp + "Z");
      SamePrefix(".", tp + "Z", tq + "Z");
      PrefixHead('.', tp, '.', tq);
    }
  }

  /** The buffer's texts order a earlier than a later b unless both fall into the same second and
      the fraction written for a continues in the one written for b. */
  lemma NanoOrder(a: int, b: int)
    requires InRange(a) && InRange(b) && a < b
    ensures TextBefore(FormatNano(a), FormatNano(b))
       <==> !(a / NS_PER_SECOND == b / NS_PER_SECOND && Fraction(Nanos(a)) <= Fraction(Nanos(b)))
  {
    TimeOrder(a, b, Fraction(Nanos(a)) + "Z", Fraction(Nanos(b)) + "Z");
    DivOrder(a, b, NS_PER_SECOND);
    if a / NS_PER_SECOND == b / NS_PER_SECOND {
      FractionOrder(Nanos(a), Nanos(b));
    }
  }

  /** A whole second, for one, is written as if it came after every other time within it. */
  lemma WholeSecondComesLast(a: int, b: int)
    requires InRange(a) && InRange(b) && a < b && a % NS_PER_SECOND == 0 && a / NS_PER_SECOND == b / NS_PER_SECOND
    ensures !TextBefore(FormatNano(a), FormatNano(b))
  {
    ZerosTrimmed(9);
    NanoOrder(a, b);
  }

  lemma {:induction false} ZerosTrimmed(width: nat)
    ensures Trimmed(Padded(0, width)) == ""
  {
    if width > 0 {
      ZerosTrimmed(width - 1);
      assert Padded(0, width)[..width - 1] == Padded(0, width - 1) by { PaddedLength(0, width - 1); }
    }
  }

  // ---- reading back -----------------------------------------------------------

  lemma {:induction false} EncodeRest(fields: seq<Field>, x: string, y: string)
    requires Encode(fields, x) == Encode(fields, y)
    ensures x == y
  {
    if |fields| > 0 {
      var p := Padded(fields[0].value, fields[0].width);
      var q := fields[0].separator;
      var u, v := Encode(fields[1..], x), Encode(fields[1..], y);
      assert p + (q + u) == p + (q + v);
      assert (p + (q + u))[|p|..] == q + u && (p + (q + v))[|p|..] == q + v;
      assert (q + u)[|q|..] == u && (q + v)[|q|..] == v;
      EncodeRest(fields[1..], x, y);
    }
  }

  lemma {:induction false} TrimmedShorter(s: string)
    ensures |Trimmed(s)| <= |s| && (|s| > 0 && s[|s| - 1] == '0' ==> |Trimmed(s)| < |s|)
  {
    if |s| > 0 {
      TrimmedShorter(s[..|s| - 1]);
    }
  }

  /** Digits of a fixed width can be told apart without their trailing zeros. */
  lemma {:induction false} TrimmedInjective(p: string, q: string)
    requires |p| == |q| && Trimmed(p) == Trimmed(q)
    ensures p == q
  {
    TrimmedShorter(p);
    TrimmedShorter(q);
    if |p| > 0 && p[|p| - 1] == '0' {
      TrimmedInjective(p[..|p| - 1], q[..|q| - 1]);
      assert p == p[..|p| - 1] + ['0'] && q == q[..|q| - 1] + ['0'];
    }
  }

  lemma FractionInjective(n: nat, m: nat)
    requires n < m < NS_PER_SECOND
    ensures Fraction(n) != Fraction(m)
  {
    var p, q := Padded(n, 9), Padded(m, 9);
    NanosFit(n);
    NanosFit(m);
    PaddedLength(n, 9);
    PaddedLength(m, 9);
    PaddedOrder(n, m, 9, "", "");
    assert p + "" == p && q + "" == q;
    TextBeforeStrict(p, q);
    if Fraction(n) == Fraction(m) {
      assert Trimmed(p) == Trimmed(q) by {
        if Trimmed(p) != "" {
          assert ("." + Trimmed(p))[1..] == Trimmed(p) && ("." + Trimmed(q))[1..] == Trimmed(q);
        }
      }
      TrimmedInjective(p, q);
    }
  }

  lemma NanoDiffers(a: int, b: int)
    requires InRange(a) && InRange(b) && a < b
    ensures FormatNano(a) != FormatNano(b)
  {
    hide Fraction;
    NanoOrder(a, b);
    TextBeforeStrict(FormatNano(a), FormatNano(b));
    if FormatNano(a) == FormatNano(b) {
      DivOrder(a, b, NS_PER_SECOND);
      SameSecond(a, b);
      EncodeRest(SecondFields(a), Fraction(Nanos(a)) + "Z", Fraction(Nanos(b)) + "Z");
      assert (Fraction(Nanos(a)) + "Z")[..|Fraction(Nanos(a))|] == Fraction(Nanos(a));
      FractionInjective(Nanos(a), Nanos(b));
    }
  }

  /** The buffer's text determines the time it was written for. */
  lemma NanoText(a: int, b: int)
    requires InRange(a) && InRange(b)
    ensures FormatNano(a) == FormatNano(b) <==> a == b
  {
    if a < b {
      NanoDiffers(a, b);
    } else if b < a {
      NanoDiffers(b, a);
    }
  }
}
