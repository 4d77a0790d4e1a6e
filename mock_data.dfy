/**
 * The page's hard-coded event lists. Six sample dates, four in the full
 * list and both of the user's events, are computed from the clock at render
 * time (today and one week later); they are parameters here, the other
 * dates are the fixed strings of the page.
 */
module MockData {
  import opened Events

  const PLACEHOLDER_IMAGE := "/api/placeholder/400/200"

  /** `dummyEvents`: the ten events of the "All Events" grid. */
  function DummyEvents(today: string, nextWeek: string): (r: seq<Event>)
    ensures |r| == 10
    ensures forall k :: 0 <= k < |r| ==> r[k].id == k + 1
  {
    [ Event(1, "Summer Music Festival", today, "New York", "Music", PLACEHOLDER_IMAGE),
      Event(2, "Tech Conference 2024", nextWeek, "San Francisco", "Technology", PLACEHOLDER_IMAGE),
      Event(3, "Food & Wine Expo", "2024-10-01", "Chicago", "Food", PLACEHOLDER_IMAGE),
      Event(4, "Art Gallery Opening", "2024-07-20", "Los Angeles", "Art", PLACEHOLDER_IMAGE),
      Event(5, "Marathon 2024", "2024-11-10", "Boston", "Sports", PLACEHOLDER_IMAGE),
      Event(6, "Book Fair", "2024-09-15", "Seattle", "Literature", PLACEHOLDER_IMAGE),
      Event(7, "Comedy Night", "2024-08-30", "Chicago", "Entertainment", PLACEHOLDER_IMAGE),
      Event(8, "Startup Pitch Competition", "2024-10-20", "Austin", "Business", PLACEHOLDER_IMAGE),
      Event(9, "AI and Machine Learning Conference", today, "San Francisco", "Technology", PLACEHOLDER_IMAGE),
      Event(10, "Sustainable Living Expo", nextWeek, "Portland", "Lifestyle", PLACEHOLDER_IMAGE) ]
  }

  /** `mockUserEvents`: the two events loaded on login. */
  function MockUserEvents(today: string, nextWeek: string): (r: seq<Event>)
    ensures |r| == 2
    ensures r[0].id == 101 && r[1].id == 102
    ensures r[0].title == "Web Development Workshop" && r[0].date == today
  {
    [ Event(101, "Web Development Workshop", today, "Online", "Technology", PLACEHOLDER_IMAGE),
      Event(102, "Digital Marketing Seminar", nextWeek, "New York", "Business", PLACEHOLDER_IMAGE) ]
  }
}
