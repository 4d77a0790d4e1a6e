/**
 * Concrete runs of the page on its own sample data, for any two dates
 * `today` and `nextWeek`.
 */
module Scenarios {
  import opened Wrappers
  import opened Text
  import opened Decimal
  import opened Events
  import opened Attendance
  import opened Session
  import opened MockData

  /** Only the search box filled in, with "tech". */
  const TECH_SEARCH := Filters("tech", "", "", "")

  /** Sample event 2, "Tech Conference 2024", passes the "tech" search. */
  lemma SampleTitleHasTech2(today: string, nextWeek: string)
    ensures Matches(DummyEvents(today, nextWeek)[1], TECH_SEARCH)
  {
    assert Lower("Tech Conference 2024")[..4] == "tech" == Lower("tech");
    assert OccursAt(Lower("Tech Conference 2024"), Lower("tech"), 0);
  }

  // Each other sample event fails the "tech" search: no two neighbouring
  // letters of its title read "te" in any case. One lemma per title keeps
  // each literal-string proof small.

  lemma SampleTitleLacksTech1(today: string, nextWeek: string)
    ensures !Matches(DummyEvents(today, nextWeek)[0], TECH_SEARCH)
  {
    LowerNotContainedByPair("Summer Music Festival", "tech");
  }

  lemma SampleTitleLacksTech3(today: string, nextWeek: string)
    ensures !Matches(DummyEvents(today, nextWeek)[2], TECH_SEARCH)
  {
    LowerNotContainedByPair("Food & Wine Expo", "tech");
  }

  lemma SampleTitleLacksTech4(today: string, nextWeek: string)
    ensures !Matches(DummyEvents(today, nextWeek)[3], TECH_SEARCH)
  {
    LowerNotContainedByPair("Art Gallery Opening", "tech");
  }

  lemma SampleTitleLacksTech5(today: string, nextWeek: string)
    ensures !Matches(DummyEvents(today, nextWeek)[4], TECH_SEARCH)
  {
    LowerNotContainedByPair("Marathon 2024", "tech");
  }

  lemma SampleTitleLacksTech6(today: string, nextWeek: string)
    ensures !Matches(DummyEvents(today, nextWeek)[5], TECH_SEARCH)
  {
    LowerNotContainedByPair("Book Fair", "tech");
  }

  lemma SampleTitleLacksTech7(today: string, nextWeek: string)
    ensures !Matches(DummyEvents(today, nextWeek)[6], TECH_SEARCH)
  {
    LowerNotContainedByPair("Comedy Night", "tech");
  }

  lemma SampleTitleLacksTech8(today: string, nextWeek: string)
    ensures !Matches(DummyEvents(today, nextWeek)[7], TECH_SEARCH)
  {
    LowerNotContainedByPair("Startup Pitch Competition", "tech");
  }

  lemma SampleTitleLacksTech9(today: string, nextWeek: string)
    ensures !Matches(DummyEvents(today, nextWeek)[8], TECH_SEARCH)
  {
    LowerNotContainedByPair("AI and Machine Learning Conference", "tech");
  }

  lemma SampleTitleLacksTech10(today: string, nextWeek: string)
    ensures !Matches(DummyEvents(today, nextWeek)[9], TECH_SEARCH)
  {
    LowerNotContainedByPair("Sustainable Living Expo", "tech");
  }

  /**
   * Searching "tech" over the ten sample events yields the single event
   * "Tech Conference 2024". The search looks at titles only, so the
   * Technology event "AI and Machine Learning Conference" is not among them.
   */
  lemma SearchTech(today: string, nextWeek: string)
    ensures FilterEvents(DummyEvents(today, nextWeek), TECH_SEARCH)
         == [Event(2, "Tech Conference 2024", nextWeek, "San Francisco", "Technology", PLACEHOLDER_IMAGE)]
  {
    var d := DummyEvents(today, nextWeek);
    forall j | 0 <= j < 10
      ensures Matches(d[j], TECH_SEARCH) <==> j == 1
    {
      if j == 1 {
        SampleTitleHasTech2(today, nextWeek);
      } else if j == 0 {
        SampleTitleLacksTech1(today, nextWeek);
      } else if j == 2 {
        SampleTitleLacksTech3(today, nextWeek);
      } else if j == 3 {
        SampleTitleLacksTech4(today, nextWeek);
      } else if j == 4 {
        SampleTitleLacksTech5(today, nextWeek);
      } else if j == 5 {
        SampleTitleLacksTech6(today, nextWeek);
      } else if j == 6 {
        SampleTitleLacksTech7(today, nextWeek);
      } else if j == 7 {
        SampleTitleLacksTech8(today, nextWeek);
      } else if j == 8 {
        SampleTitleLacksTech9(today, nextWeek);
      } else {
        SampleTitleLacksTech10(today, nextWeek);
      }
    }
    FilterSingleMatch(d, TECH_SEARCH, 1);
  }

  /** The page after typing "user" / "password" into the login form and submitting it. */
  function LoggedInSample(today: string, nextWeek: string): Step {
    Login(SetPassword(SetUsername(Initial(), "user"), "password"), MockUserEvents(today, nextWeek))
  }

  /** The literal credentials log in and load the two user events. */
  lemma SampleLogin(today: string, nextWeek: string)
    ensures LoggedInSample(today, nextWeek).notice == None
    ensures LoggedInSample(today, nextWeek).state.isLoggedIn
    ensures LoggedInSample(today, nextWeek).state.userEvents == MockUserEvents(today, nextWeek)
    ensures Inv(LoggedInSample(today, nextWeek).state, DummyEvents(today, nextWeek), MockUserEvents(today, nextWeek))
  {
  }

  /** Any other password is refused and leaves the page logged out. */
  lemma SampleWrongPassword(today: string, nextWeek: string, password: string)
    requires password != "password"
    ensures Login(SetPassword(SetUsername(Initial(), "user"), password), MockUserEvents(today, nextWeek)).notice
         == Some(InvalidCredentials)
    ensures !Login(SetPassword(SetUsername(Initial(), "user"), password), MockUserEvents(today, nextWeek)).state.isLoggedIn
  {
  }

  /** After login, scanning "101" certifies "user" for the "Web Development Workshop" of today. */
  lemma SampleScan101(today: string, nextWeek: string)
    ensures var r := Scan(LoggedInSample(today, nextWeek).state, DummyEvents(today, nextWeek), "101");
      && r.notice == None
      && r.state.showCertificate && !r.state.showQRScanner
      && r.state.certificateData == Some(Certificate("Web Development Workshop", "user", today))
  {
    assert IntToString(101) == "101";
  }

  /** After login, scanning "1" finds event 1, not event 101 whose id merely starts with 1. */
  lemma SampleScan1(today: string, nextWeek: string)
    ensures Scan(LoggedInSample(today, nextWeek).state, DummyEvents(today, nextWeek), "1").state.certificateData
         == Some(Certificate("Summer Music Festival", "user", today))
  {
    var all := MockUserEvents(today, nextWeek) + DummyEvents(today, nextWeek);
    assert "1" == IntToString(1);
    CodeMatchesOnlyItsId(all[0], 1);
    CodeMatchesOnlyItsId(all[1], 1);
    assert IdMatches(all[2], "1");
  }

  /** After login, scanning "999" matches nothing: the scanner closes with the invalid-code notice. */
  lemma SampleScan999(today: string, nextWeek: string)
    ensures var s := LoggedInSample(today, nextWeek).state;
      var r := Scan(s, DummyEvents(today, nextWeek), "999");
      && r.notice == Some(InvalidQRCode)
      && r.state == s.(showQRScanner := false)
  {
    var s := LoggedInSample(today, nextWeek).state;
    var all := s.userEvents + DummyEvents(today, nextWeek);
    assert "999" == IntToString(999);
    forall e | e in all
      ensures !IdMatches(e, "999")
    {
      CodeMatchesOnlyItsId(e, 999);
    }
    ScanSpec(s, DummyEvents(today, nextWeek), "999");
  }

  /** The two user events and the ten sample events carry twelve distinct ids. */
  lemma SampleIdsDistinct(today: string, nextWeek: string)
    ensures var all := MockUserEvents(today, nextWeek) + DummyEvents(today, nextWeek);
      |all| == 12 && forall a, b :: 0 <= a < b < |all| ==> all[a].id != all[b].id
  {
    var all := MockUserEvents(today, nextWeek) + DummyEvents(today, nextWeek);
    assert forall k :: 0 <= k < 2 ==> all[k].id == 101 + k;
    assert forall k :: 2 <= k < 12 ==> all[k].id == k - 1;
  }

  /** Scanning the code of any event of the combined list finds exactly that event. */
  lemma SampleOwnCodeFindsEvent(today: string, nextWeek: string, i: nat)
    requires i < 12
    ensures var all := MockUserEvents(today, nextWeek) + DummyEvents(today, nextWeek);
      Find(all, IntToString(all[i].id)) == Some(all[i])
  {
    var all := MockUserEvents(today, nextWeek) + DummyEvents(today, nextWeek);
    SampleIdsDistinct(today, nextWeek);
    FindUniqueId(all, all[i].id, i);
  }
}
