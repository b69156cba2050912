/** The names the screen-time collector derives its event ids from. */
module Names {
  import opened Intake
  import opened Decimals

  const NAME_PREFIX: string := "rootaika-ios-screentime"

  /** The parts of a name with a bar between neighbours. */
  function Joined(parts: seq<string>): string {
    if |parts| == 0 then ""
    else if |parts| == 1 then parts[0]
    else parts[0] + ("|" + Joined(parts[1..]))
  }

  /** A name is hashed with UUID version 5; the hash is taken to be injective, so the name
      stands for the id. */
  function EventName(member: string, day: string, tag: string, off: nat): string {
    Joined([NAME_PREFIX, member, day, tag, Unsigned(off)])
  }

  lemma EventNameParts(member: string, day: string, tag: string, off: nat)
    ensures EventName(member, day, tag, off)
         == NAME_PREFIX + ("|" + (member + ("|" + (day + ("|" + (tag + ("|" + Unsigned(off))))))))
  {
    var u := Unsigned(off);
    JoinedTail(NAME_PREFIX, [member, day, tag, u]);
    JoinedTail(member, [day, tag, u]);
    JoinedTail(day, [tag, u]);
    JoinedTail(tag, [u]);
    assert [NAME_PREFIX] + [member, day, tag, u] == [NAME_PREFIX, member, day, tag, u];
    assert [member] + [day, tag, u] == [member, day, tag, u];
    assert [day] + [tag, u] == [day, tag, u];
    assert [tag] + [u] == [tag, u];
  }

  lemma JoinedTail(part: string, rest: seq<string>)
    requires |rest| > 0
    ensures Joined([part] + rest) == part + ("|" + Joined(rest))
  {
    assert ([part] + rest)[1..] == rest;
  }

  function MemberName(member: string): string {
    NAME_PREFIX + "|member:" + member
  }

  /** Members have different client ids. */
  lemma MemberNameInjective(a: string, b: string)
    requires MemberName(a) == MemberName(b)
    ensures a == b
  {
    assert MemberName(a) == (NAME_PREFIX + "|member:") + a && MemberName(b) == (NAME_PREFIX + "|member:") + b;
    SplitEqual(NAME_PREFIX + "|member:", NAME_PREFIX + "|member:", a, b);
  }

  lemma LastBar(a: string, n: nat)
    ensures var s := a + ("|" + Unsigned(n)); s[|a|] == '|' && forall i :: |a| < i < |s| ==> IsDigit(s[i])
  {
    UnsignedDigits(n);
    var s, d := a + ("|" + Unsigned(n)), Unsigned(n);
    assert forall i :: |a| < i < |s| ==> s[i] == d[i - |a| - 1];
  }

  /** A tag and a decimal number joined by a bar can be told apart again, whatever the tag. */
  lemma TagInjective(a: string, n: nat, b: string, m: nat)
    requires a + ("|" + Unsigned(n)) == b + ("|" + Unsigned(m))
    ensures a == b && n == m
  {
    LastBar(a, n);
    LastBar(b, m);
    UnsignedDigits(n);
    UnsignedDigits(m);
    assert |a| == |b|;
    SplitEqual(a, b, "|" + Unsigned(n), "|" + Unsigned(m));
    SplitEqual("|", "|", Unsigned(n), Unsigned(m));
    UnsignedInjective(n, m);
  }

  /** For one member the day, the tag and the offset can be read back from the name. */
  lemma EventNameInjective(member: string, day: string, tag: string, off: nat, day': string, tag': string, off': nat)
    requires |day| == |day'|
    requires EventName(member, day, tag, off) == EventName(member, day', tag', off')
    ensures day == day' && tag == tag' && off == off'
  {
    EventNameParts(member, day, tag, off);
    EventNameParts(member, day', tag', off');
    var x, y := tag + ("|" + Unsigned(off)), tag' + ("|" + Unsigned(off'));
    SplitEqual(NAME_PREFIX, NAME_PREFIX,
               "|" + (member + ("|" + (day + ("|" + x)))), "|" + (member + ("|" + (day' + ("|" + y)))));
    SplitEqual("|", "|", member + ("|" + (day + ("|" + x))), member + ("|" + (day' + ("|" + y))));
    SplitEqual(member, member, "|" + (day + ("|" + x)), "|" + (day' + ("|" + y)));
    SplitEqual("|", "|", day + ("|" + x), day' + ("|" + y));
    SplitEqual(day, day', "|" + x, "|" + y);
    SplitEqual("|", "|", x, y);
    TagInjective(tag, off, tag', off');
  }

  lemma EventNameTrimmed(member: string, day: string, tag: string, off: nat)
    ensures Trim(EventName(member, day, tag, off)) == EventName(member, day, tag, off) != ""
  {
    var s := EventName(member, day, tag, off);
    var a := NAME_PREFIX + ("|" + (member + ("|" + (day + ("|" + tag)))));
    EventNameParts(member, day, tag, off);
    UnsignedDigits(off);
    assert s == a + ("|" + Unsigned(off));
    LastBar(a, off);
    assert s[0] == 'r' && IsDigit(s[|s| - 1]);
    TrimIdentity(s);
  }
}
