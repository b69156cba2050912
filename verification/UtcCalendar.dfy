/** A calendar there is: the days from 2 January 1 to 31 December 9999 in Coordinated
    Universal Time. */
module UtcCalendar {
  import opened Observations
  import opened TimeText
  import opened Tape

  const DAY_SECONDS: nat := 86_400
  const EPOCH_DAY: nat := 719_528
  const FIRST_DAY: int := -719_161
  const LAST_DAY: int := 2_932_896

  /** The name of a day, as in 2026-07-09; days are counted from 1 January 1970. */
  function IsoDate(day: int): string {
    var n := day + EPOCH_DAY;
    if n < 0 then "" else Front(Encode(DateFields(n), ""))
  }

  function Front(s: string): string { if |s| == 0 then "" else s[..|s| - 1] }

  const UTC: Calendar := Calendar(day => day * DAY_SECONDS, IsoDate, FIRST_DAY, LAST_DAY)

  lemma EpochDay()
    ensures DaysBeforeYear(EPOCH_YEAR) == EPOCH_DAY && DaysBeforeYear(YEAR_LIMIT) == EPOCH_DAY + LAST_DAY + 1
  {
  }

  /** The text of a date has eleven characters, the last one a T. */
  lemma DateText(n: nat)
    ensures var s := Encode(DateFields(n), ""); |s| == 11 && s[10] == 'T'
  {
    var y, m, d := YearOf(n), MonthOf(n), DayOfMonth(n);
    PaddedLength(y, 4);
    PaddedLength(m, 2);
    PaddedLength(d, 2);
    var f := DateFields(n);
    assert f[1..][0] == f[1] && f[1..][1..][0] == f[2] && f[1..][1..][1..] == [];
    var last := Padded(d, 2) + ("T" + "");
    assert Encode(f[1..][1..], "") == last;
    assert Encode(f[1..], "") == Padded(m, 2) + ("-" + last);
    assert Encode(f, "") == Padded(y, 4) + ("-" + (Padded(m, 2) + ("-" + last)));
  }

  /** Different days have different names. */
  lemma DatesDiffer(n: nat, k: nat)
    requires n < k < DaysBeforeYear(YEAR_LIMIT)
    ensures Front(Encode(DateFields(n), "")) != Front(Encode(DateFields(k), ""))
  {
    hide YearOf, MonthOf, DayOfMonth, DateFields, Encode;
    var s, t := Encode(DateFields(n), ""), Encode(DateFields(k), "");
    DateOrder(n, k);
    DateLayout(n, k);
    EncodeOrder(DateFields(n), DateFields(k), "", "");
    TextBeforeStrict(s, t);
    DateText(n);
    DateText(k);
    assert s == s[..10] + [s[10]] && t == t[..10] + [t[10]];
  }

  lemma {:induction false} EncodeConcat(a: seq<Field>, b: seq<Field>, rest: string)
    ensures Encode(a + b, rest) == Encode(a, "") + Encode(b, rest)
  {
    if |a| == 0 {
      assert a + b == b;
    } else {
      assert (a + b)[1..] == a[1..] + b;
      EncodeConcat(a[1..], b, rest);
    }
  }

  /** The name of a day is the date that is stored for its midnight. */
  lemma IsoDateStored(day: int)
    requires UTC.Has(day)
    ensures InRange(UTC.midnight(day) * NS_PER_SECOND)
    ensures |FormatDBTime(UTC.midnight(day) * NS_PER_SECOND)| >= 10
    ensures UTC.iso(day) == FormatDBTime(UTC.midnight(day) * NS_PER_SECOND)[..10]
  {
    hide DaysBeforeYear, Encode, DateFields, ClockFields;
    EpochDay();
    var t, n := UTC.midnight(day) * NS_PER_SECOND, day + EPOCH_DAY;
    assert t + EPOCH_DAY * DAY == n * DAY;
    assert InRange(t) && DayOf(t) == n;
    var rest := "." + Padded(Nanos(t), 9) + "Z";
    EncodeConcat(DateFields(n), ClockFields(t / NS_PER_SECOND), rest);
    DateText(n);
    var date, text := Encode(DateFields(n), ""), FormatDBTime(t);
    assert text[..11] == date && text[..10] == date[..10];
  }

  lemma IsoDates(d: int, e: int)
    requires UTC.Has(d) && UTC.Has(e) && d < e
    ensures IsoDate(d) != IsoDate(e)
  {
    EpochDay();
    DatesDiffer(d + EPOCH_DAY, e + EPOCH_DAY);
  }

  lemma UtcValid(member: string)
    ensures ValidSetting(member, UTC)
  {
    forall d, e | UTC.Has(d) && UTC.Has(e) && UTC.iso(d) == UTC.iso(e) ensures d == e {
      if d < e {
        IsoDates(d, e);
      } else if e < d {
        IsoDates(e, d);
      }
    }
    forall d | UTC.Has(d) ensures |UTC.iso(d)| == 10 {
      DateText(d + EPOCH_DAY);
    }
  }
}
