/**
 * The event record and the list filter behind the "All Events" grid: a
 * case-insensitive title search combined with exact date, category and
 * location filters, each of which is switched off while it is empty.
 */
module Events {
  import opened Text

  /** One entry of an event list; `date` is an opaque `YYYY-MM-DD` string. */
  datatype Event = Event(
    id: int,
    title: string,
    date: string,
    location: string,
    category: string,
    imageUrl: string)

  /** The four filter inputs of the page. */
  datatype Filters = Filters(
    searchTerm: string,
    dateFilter: string,
    categoryFilter: string,
    locationFilter: string)

  /** The filters in their initial state: every input empty. */
  const NO_FILTERS := Filters("", "", "", "")

  /**
   * `filter ? value === filter : true`: the empty string is falsy in
   * JavaScript, so an empty filter accepts every value.
   */
  predicate FieldAccepts(filter: string, value: string) {
    filter == "" || value == filter
  }

  /** The title contains the search term, both lower-cased. */
  predicate TitleMatches(e: Event, searchTerm: string) {
    Contains(Lower(e.title), Lower(searchTerm))
  }

  /** The predicate passed to `filter`: all four conditions at once. */
  predicate Matches(e: Event, f: Filters) {
    && TitleMatches(e, f.searchTerm)
    && FieldAccepts(f.dateFilter, e.date)
    && FieldAccepts(f.categoryFilter, e.category)
    && FieldAccepts(f.locationFilter, e.location)
  }

  /** `a` can be obtained from `b` by deleting elements, without reordering. */
  ghost predicate IsSubsequence<T>(a: seq<T>, b: seq<T>)
    decreases |b|
  {
    a == [] || (b != [] && ((a[0] == b[0] && IsSubsequence(a[1..], b[1..])) || IsSubsequence(a, b[1..])))
  }

  /**
   * `events.filter(e => Matches(e, f))`: the result keeps, in their original
   * order, exactly the occurrences of events that satisfy all four conditions.
   */
  function FilterEvents(events: seq<Event>, f: Filters): (r: seq<Event>)
    ensures forall e :: e in r <==> e in events && Matches(e, f)
    ensures IsSubsequence(r, events)
  {
    if events == [] then []
    else
      var rest := FilterEvents(events[1..], f);
      if Matches(events[0], f) then [events[0]] + rest else rest
  }

  /**
   * The filtered list keeps every occurrence of a matching event and no
   * occurrence of any other: each event occurs in it as often as in the list
   * if it matches, and not at all otherwise.
   */
  lemma {:induction false} FilterCounts(events: seq<Event>, f: Filters, e: Event)
    ensures multiset(FilterEvents(events, f))[e] == if Matches(e, f) then multiset(events)[e] else 0
  {
    if events != [] {
      assert events == [events[0]] + events[1..];
      FilterCounts(events[1..], f, e);
    }
  }

  /** Filtering a list that starts with `e` decides `e` and then filters the rest. */
  lemma FilterCons(e: Event, events: seq<Event>, f: Filters)
    ensures FilterEvents([e] + events, f) == (if Matches(e, f) then [e] else []) + FilterEvents(events, f)
  {
    assert ([e] + events)[1..] == events;
  }

  /** Filtering distributes over concatenation. */
  lemma {:induction false} FilterAppend(a: seq<Event>, b: seq<Event>, f: Filters)
    ensures FilterEvents(a + b, f) == FilterEvents(a, f) + FilterEvents(b, f)
  {
    if a == [] {
      assert a + b == b;
    } else {
      var head := if Matches(a[0], f) then [a[0]] else [];
      calc {
        FilterEvents(a + b, f);
        { assert a + b == [a[0]] + (a[1..] + b); FilterCons(a[0], a[1..] + b, f); }
        head + FilterEvents(a[1..] + b, f);
        { FilterAppend(a[1..], b, f); }
        head + (FilterEvents(a[1..], f) + FilterEvents(b, f));
        (head + FilterEvents(a[1..], f)) + FilterEvents(b, f);
        { assert a == [a[0]] + a[1..]; FilterCons(a[0], a[1..], f); }
        FilterEvents(a, f) + FilterEvents(b, f);
      }
    }
  }

  /** With every filter input empty, every event matches (`includes("")` is true). */
  lemma NoFiltersMatchAll(e: Event)
    ensures Matches(e, NO_FILTERS)
  {
    assert Lower("") == "";
    ContainsEmpty(Lower(e.title));
  }

  /** With every filter input empty, the filtered list is the whole list. */
  lemma {:induction false} FilterWithNoFilters(events: seq<Event>)
    ensures FilterEvents(events, NO_FILTERS) == events
  {
    if events != [] {
      NoFiltersMatchAll(events[0]);
      FilterWithNoFilters(events[1..]);
    }
  }

  /** The search is case-insensitive: two terms with the same lower-casing filter alike. */
  lemma {:induction false} SearchIgnoresCase(events: seq<Event>, f: Filters, term: string)
    requires Lower(term) == Lower(f.searchTerm)
    ensures FilterEvents(events, f.(searchTerm := term)) == FilterEvents(events, f)
  {
    if events != [] {
      SearchIgnoresCase(events[1..], f, term);
    }
  }

  /** Filtering an already filtered list changes nothing. */
  lemma {:induction false} FilterIdempotent(events: seq<Event>, f: Filters)
    ensures FilterEvents(FilterEvents(events, f), f) == FilterEvents(events, f)
  {
    if events != [] {
      FilterIdempotent(events[1..], f);
      if Matches(events[0], f) {
        FilterCons(events[0], FilterEvents(events[1..], f), f);
      }
    }
  }

  /** When no event passes the filters, the result is empty. */
  lemma FilterNoneMatch(events: seq<Event>, f: Filters)
    requires forall j :: 0 <= j < |events| ==> !Matches(events[j], f)
    ensures FilterEvents(events, f) == []
  {
  }

  /** When exactly the event at index `k` passes the filters, the result is that one event. */
  lemma FilterSingleMatch(events: seq<Event>, f: Filters, k: nat)
    requires k < |events|
    requires forall j :: 0 <= j < |events| ==> (Matches(events[j], f) <==> j == k)
    ensures FilterEvents(events, f) == [events[k]]
  {
    var before, after := events[..k], events[k + 1..];
    assert events == before + ([events[k]] + after);
    assert forall j :: 0 <= j < |before| ==> before[j] == events[j];
    assert forall j :: 0 <= j < |after| ==> after[j] == events[k + 1 + j];
    FilterNoneMatch(before, f);
    FilterNoneMatch(after, f);
    FilterCons(events[k], after, f);
    FilterAppend(before, [events[k]] + after, f);
  }
}
