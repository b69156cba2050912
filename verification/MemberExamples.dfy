/** One run over two members in a real calendar: the second member's day is reported, the first member's
    is recorded and never reported. */
module MemberExamples {
  import opened Tape
  import opened Collector
  import opened TapeUsage
  import opened CollectorRuns
  import opened CollectorMembers
  import opened MemberHistories
  import opened UtcCalendar
  import opened CollectorExamples

  /** The first member's post fails, the second's gets through and is saved. */
  ghost function TwoMembers(member: string, other: string, x: nat): Visit {
    Visit(TODAY, [FirstFails(member, OneApp(x)), SecondPosts(UTC, other, OneApp(x))])
  }

  lemma OneVisit(device: int, member: string, v: Visit)
    ensures After(device, member, UTC, [v]) == Visited(Ledger(map[], [], map[], iset{}), device, member, UTC, v)
  {
    hide Visited;
    assert [v][..0] == [];
  }

  lemma ValidOne(device: int, member: string, v: Visit)
    requires ValidVisit(UTC, member, v) && AtOnce(UTC, map[], member, v)
    ensures ValidVisits(device, member, UTC, [v])
    ensures LosesAt(device, member, UTC, [v], 0) <==> LosesPost(UTC, map[], member, v)
  {
    hide ValidVisit, AtOnce, LosesPost;
    assert [v][..0] == [];
  }

  lemma TwoMembersValid(member: string, other: string, x: nat)
    requires member != other && 0 < x < DAY_SECONDS
    ensures var v := TwoMembers(member, other, x);
            && (forall who :: who == member || who == other ==> ValidVisit(UTC, who, v) && AtOnce(UTC, map[], who, v))
            && TurnAt(v, member, 0) && TurnAt(v, other, 1)
            && LosesPost(UTC, map[], member, v) && !LosesPost(UTC, map[], other, v)
            && Recorded(UTC, map[], v, 0) && Recorded(UTC, map[], v, 1)
  {
    hide RunEvents, RunSent, ValidUsage, SavedLater, SavesAt;
    var v := TwoMembers(member, other, x);
    NamesFit();
    OneAppMeetsAll(member, x, TODAY - KEEP_DAYS);
    OneAppRun(member, UTC, TODAY, SAFARI, x);
    OneAppRun(other, UTC, TODAY, SAFARI, x);
    SecondSaves(UTC, member, other, OneApp(x), Cutoff(v));
    assert TurnAt(v, member, 0) && TurnAt(v, other, 1);
    OnlyTurn(v, member, 0);
    OnlyTurn(v, other, 1);
    TurnEventsAre(UTC, map[], v, member, 0);
    TurnEventsAre(UTC, map[], v, other, 1);
    assert SentOf(map[], member) == map[] && SentOf(map[], other) == map[];
  }

  /** Both members have the same record. */
  lemma TwoMembersTapes(device: int, member: string, other: string, x: nat)
    requires member != other && 0 < x < DAY_SECONDS
    ensures var v := TwoMembers(member, other, x);
            forall who :: who == member || who == other ==>
              && After(device, who, UTC, [v]).tapes == map[TODAY := [Append(SAFARI, x)]]
              && ShortTapes(UTC, After(device, who, UTC, [v]).tapes)
  {
    hide RunEvents, RunSent, RunTapes, ValidUsage, ShortTapes, PostAll, Recorded, Fails, LosesPost;
    var v := TwoMembers(member, other, x);
    TwoMembersValid(member, other, x);
    OneAppMeetsAll(member, x, TODAY - KEEP_DAYS);
    OnlyTurn(v, member, 0);
    OnlyTurn(v, other, 1);
    OneVisit(device, member, v);
    OneVisit(device, other, v);
  }

  lemma OneVisitReported(device: int, member: string, v: Visit)
    requires ValidVisit(UTC, member, v) && AtOnce(UTC, map[], member, v)
    requires ShortTapes(UTC, After(device, member, UTC, [v]).tapes)
    ensures ValidVisits(device, member, UTC, [v])
    ensures AllReported(After(device, member, UTC, [v]), UTC, GAP) <==> !LosesPost(UTC, map[], member, v)
  {
    hide ValidVisit, AtOnce, LosesPost, LosesAt, AllReported, After, ShortTapes, ValidVisits, Cutoff;
    NamesFit();
    UtcValid(member);
    ValidOne(device, member, v);
    RecordsReported(device, member, UTC, [v], GAP, Cutoff(v));
    assert NothingLost(device, member, UTC, [v]) <==> !LosesAt(device, member, UTC, [v], 0);
  }

  /** All that is asked of histories holds; the second member's totals are all reported, and of the first
      member's, which the file records as well, some are not. */
  lemma TwoMembersReported(device: int, device': int, member: string, other: string, x: nat)
    requires member != other && 0 < x < DAY_SECONDS
    ensures var visits := [TwoMembers(member, other, x)];
            && ValidVisits(device, member, UTC, visits) && ValidVisits(device', other, UTC, visits)
            && !AllReported(After(device, member, UTC, visits), UTC, GAP)
            && AllReported(After(device', other, UTC, visits), UTC, GAP)
  {
    hide ValidVisit, AtOnce, LosesPost, AllReported, After, ShortTapes, ValidVisits, TwoMembers, Recorded, TurnAt;
    var v := TwoMembers(member, other, x);
    TwoMembersValid(member, other, x);
    TwoMembersTapes(device, member, other, x);
    TwoMembersTapes(device', member, other, x);
    OneVisitReported(device, member, v);
    OneVisitReported(device', other, v);
  }
}
