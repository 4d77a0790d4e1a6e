/**
 * The attendance matcher: a scanned code is looked up among the user's
 * events followed by all events, by comparing it with each id's decimal
 * string, and the first hit yields the certificate's data.
 */
module Attendance {
  import opened Wrappers
  import opened Decimal
  import opened Events

  /** The record shown by the attendance certificate. */
  datatype Certificate = Certificate(eventTitle: string, attendeeName: string, date: string)

  /** `e.id.toString() === code`. */
  predicate IdMatches(e: Event, code: string) {
    IntToString(e.id) == code
  }

  /** The index `find` stops at: the first event whose id renders as `code`. */
  function FindIndex(events: seq<Event>, code: string): (r: Option<nat>)
    ensures r.Some? ==> r.value < |events| && IdMatches(events[r.value], code)
    ensures r.Some? ==> forall j :: 0 <= j < r.value ==> !IdMatches(events[j], code)
    ensures r.None? <==> forall j :: 0 <= j < |events| ==> !IdMatches(events[j], code)
  {
    if events == [] then None
    else if IdMatches(events[0], code) then Some(0)
    else match FindIndex(events[1..], code)
      case None => None
      case Some(k) => Some(k + 1)
  }

  /** `events.find(e => e.id.toString() === code)`. */
  function Find(events: seq<Event>, code: string): (r: Option<Event>)
    ensures r.Some? <==> exists e :: e in events && IdMatches(e, code)
    ensures r.Some? ==> r.value in events && IdMatches(r.value, code)
  {
    match FindIndex(events, code)
    case None => None
    case Some(k) => Some(events[k])
  }

  /**
   * The certificate a scan of `code` produces: title and date from the
   * first matching event of `userEvents ++ allEvents`, the attendee from
   * `username`; nothing when no id matches.
   */
  function MatchCode(code: string, userEvents: seq<Event>, allEvents: seq<Event>, username: string): Option<Certificate>
  {
    match Find(userEvents + allEvents, code)
    case None => None
    case Some(e) => Some(Certificate(e.title, username, e.date))
  }

  /** The user's events are searched first: a hit there wins over any event of the full list. */
  lemma {:induction false} FindPrefersFirstList(a: seq<Event>, b: seq<Event>, code: string)
    ensures Find(a + b, code) == if Find(a, code).Some? then Find(a, code) else Find(b, code)
  {
    if a == [] {
      assert a + b == b;
    } else {
      assert (a + b)[0] == a[0] && (a + b)[1..] == a[1..] + b;
      if !IdMatches(a[0], code) {
        FindPrefersFirstList(a[1..], b, code);
      }
    }
  }

  /**
   * The match is by exact equality of the decimal string: the code
   * `IntToString(k)` matches an event exactly when its id is `k`, so that
   * "1" finds id 1 and never id 101.
   */
  lemma CodeMatchesOnlyItsId(e: Event, k: int)
    ensures IdMatches(e, IntToString(k)) <==> e.id == k
  {
    if IdMatches(e, IntToString(k)) {
      IntToStringInjective(e.id, k);
    }
  }

  /**
   * A scan finds an event exactly when some event of the combined list has
   * an id rendering as the code; the certificate then describes the first
   * such event and names `username` as the attendee.
   */
  lemma MatchCodeSpec(code: string, userEvents: seq<Event>, allEvents: seq<Event>, username: string)
    ensures MatchCode(code, userEvents, allEvents, username).Some?
        <==> exists e :: e in userEvents + allEvents && IdMatches(e, code)
    ensures MatchCode(code, userEvents, allEvents, username).Some? ==>
      var k := FindIndex(userEvents + allEvents, code).value;
      var e := (userEvents + allEvents)[k];
      && MatchCode(code, userEvents, allEvents, username).value == Certificate(e.title, username, e.date)
      && forall j :: 0 <= j < k ==> !IdMatches((userEvents + allEvents)[j], code)
  {
    var all := userEvents + allEvents;
    if FindIndex(all, code).Some? {
      assert all[FindIndex(all, code).value] in all;
    }
  }

  /** When ids are distinct, a matching event is the only one with that id. */
  lemma FindUniqueId(events: seq<Event>, k: int, i: nat)
    requires forall a, b :: 0 <= a < b < |events| ==> events[a].id != events[b].id
    requires i < |events| && events[i].id == k
    ensures Find(events, IntToString(k)) == Some(events[i])
  {
    CodeMatchesOnlyItsId(events[i], k);
    var r := FindIndex(events, IntToString(k));
    CodeMatchesOnlyItsId(events[r.value], k);
  }
}
