/**
 * The page's state record and its transitions. Each transition is what one
 * handler or input setter of the page does to the record, taken as a
 * synchronous update; an `alert` becomes a returned notice.
 */
module Session {
  import opened Wrappers
  import opened Events
  import opened Pagination
  import opened Attendance

  /** The two notices the page raises with `alert`. */
  datatype Notice = InvalidCredentials | InvalidQRCode

  /** The text of each notice. */
  function NoticeText(n: Notice): string {
    match n
    case InvalidCredentials => "Invalid credentials"
    case InvalidQRCode => "Invalid QR Code"
  }

  /** Every piece of component state, one field per `useState`. */
  datatype PageState = PageState(
    searchTerm: string,
    dateFilter: string,
    categoryFilter: string,
    locationFilter: string,
    currentPage: int,
    isLoggedIn: bool,
    username: string,
    password: string,
    userEvents: seq<Event>,
    showQRScanner: bool,
    showCertificate: bool,
    certificateData: Option<Certificate>)

  /** A transition's new state together with the notice it raises, if any. */
  datatype Step = Step(state: PageState, notice: Option<Notice>)

  /** The four filter inputs whose change resets the page number. */
  datatype FilterInput = Search | Date | Category | Location

  /** The literal credentials the login form accepts. */
  const VALID_USERNAME := "user"
  const VALID_PASSWORD := "password"

  /** The state of a freshly mounted page. */
  function Initial(): PageState {
    PageState("", "", "", "", 1, false, "", "", [], false, false, None)
  }

  function FiltersOf(s: PageState): Filters {
    Filters(s.searchTerm, s.dateFilter, s.categoryFilter, s.locationFilter)
  }

  /** `filteredEvents`, computed from the full event list. */
  function Filtered(s: PageState, allEvents: seq<Event>): seq<Event> {
    FilterEvents(allEvents, FiltersOf(s))
  }

  /** `totalPages`. */
  function PageCount(s: PageState, allEvents: seq<Event>): nat {
    TotalPages(|Filtered(s, allEvents)|)
  }

  /** `paginatedEvents`. */
  function Paginated(s: PageState, allEvents: seq<Event>): seq<Event> {
    Page(Filtered(s, allEvents), s.currentPage)
  }

  /**
   * What every reachable state satisfies: the page number lies between 1 and
   * the page count (1 when nothing matches), the user's events are loaded
   * exactly while logged in, and a shown certificate has data.
   */
  ghost predicate Inv(s: PageState, allEvents: seq<Event>, mockUserEvents: seq<Event>) {
    && 1 <= s.currentPage <= Max(1, PageCount(s, allEvents))
    && s.userEvents == (if s.isLoggedIn then mockUserEvents else [])
    && (s.showCertificate ==> s.certificateData.Some?)
  }

  /**
   * A filter input's `onChange` followed by the effect on
   * `[searchTerm, dateFilter, categoryFilter, locationFilter]`: the effect
   * runs, and resets the page to 1, only when the value differs.
   */
  function ChangeFilter(s: PageState, input: FilterInput, value: string): PageState {
    var t := match input
      case Search => s.(searchTerm := value)
      case Date => s.(dateFilter := value)
      case Category => s.(categoryFilter := value)
      case Location => s.(locationFilter := value);
    if t == s then s else t.(currentPage := 1)
  }

  function SetUsername(s: PageState, value: string): PageState {
    s.(username := value)
  }

  function SetPassword(s: PageState, value: string): PageState {
    s.(password := value)
  }

  /** `handleLogin`. */
  function Login(s: PageState, mockUserEvents: seq<Event>): Step {
    if s.username == VALID_USERNAME && s.password == VALID_PASSWORD then
      Step(s.(isLoggedIn := true, userEvents := mockUserEvents), None)
    else
      Step(s, Some(InvalidCredentials))
  }

  /** `handleLogout`. */
  function Logout(s: PageState): PageState {
    s.(isLoggedIn := false, username := "", password := "", userEvents := [])
  }

  /** The "Scan QR Code" button. */
  function OpenScanner(s: PageState): PageState {
    s.(showQRScanner := true)
  }

  /** The scanner dialog's `onOpenChange(false)`. */
  function CloseScanner(s: PageState): PageState {
    s.(showQRScanner := false)
  }

  /** `handleQRScan`. */
  function Scan(s: PageState, allEvents: seq<Event>, code: string): Step {
    match MatchCode(code, s.userEvents, allEvents, s.username)
    case Some(c) => Step(s.(certificateData := Some(c), showCertificate := true, showQRScanner := false), None)
    case None => Step(s.(showQRScanner := false), Some(InvalidQRCode))
  }

  /** The certificate dialog's "Close" button; the data stays in place. */
  function CloseCertificate(s: PageState): PageState {
    s.(showCertificate := false)
  }

  /** A page button of the page bar. */
  function SelectPage(s: PageState, page: int): PageState {
    s.(currentPage := page)
  }

  /** The freshly mounted page satisfies the invariant. */
  lemma InitialInv(allEvents: seq<Event>, mockUserEvents: seq<Event>)
    ensures Inv(Initial(), allEvents, mockUserEvents)
  {
  }

  /** The value a filter input currently holds. */
  function FilterValue(s: PageState, input: FilterInput): string {
    match input
    case Search => s.searchTerm
    case Date => s.dateFilter
    case Category => s.categoryFilter
    case Location => s.locationFilter
  }

  /**
   * Changing a filter input to a different value stores it, keeps the other
   * three filters and resets the page to 1; the same value changes nothing.
   * Either way the session and dialog fields stay as they were and the
   * invariant is kept.
   */
  lemma ChangeFilterSpec(s: PageState, input: FilterInput, value: string, allEvents: seq<Event>, mockUserEvents: seq<Event>)
    requires Inv(s, allEvents, mockUserEvents)
    ensures var t := ChangeFilter(s, input, value);
      && FiltersOf(t) == (match input
          case Search => FiltersOf(s).(searchTerm := value)
          case Date => FiltersOf(s).(dateFilter := value)
          case Category => FiltersOf(s).(categoryFilter := value)
          case Location => FiltersOf(s).(locationFilter := value))
      && (FilterValue(s, input) == value ==> t == s)
      && (FilterValue(s, input) != value ==> t.currentPage == 1)
      && t.(searchTerm := s.searchTerm, dateFilter := s.dateFilter, categoryFilter := s.categoryFilter,
            locationFilter := s.locationFilter, currentPage := s.currentPage) == s
      && Inv(t, allEvents, mockUserEvents)
  {
  }

  /**
   * Login succeeds exactly for the credentials "user" / "password"; success
   * logs in and loads the user's events, failure changes nothing and raises
   * the invalid-credentials notice.
   */
  lemma LoginSpec(s: PageState, mockUserEvents: seq<Event>)
    ensures Login(s, mockUserEvents).notice.None? <==> s.username == "user" && s.password == "password"
    ensures Login(s, mockUserEvents).notice.None? ==>
      Login(s, mockUserEvents).state == s.(isLoggedIn := true, userEvents := mockUserEvents)
    ensures Login(s, mockUserEvents).notice.Some? ==>
      Login(s, mockUserEvents).state == s && Login(s, mockUserEvents).notice == Some(InvalidCredentials)
    ensures Login(s, mockUserEvents).notice.Some? ==> NoticeText(Login(s, mockUserEvents).notice.value) == "Invalid credentials"
  {
  }

  /** Login keeps the invariant. */
  lemma LoginInv(s: PageState, allEvents: seq<Event>, mockUserEvents: seq<Event>)
    requires Inv(s, allEvents, mockUserEvents)
    ensures Inv(Login(s, mockUserEvents).state, allEvents, mockUserEvents)
  {
  }

  /**
   * Logout, from any state, leaves the user logged out with empty credentials
   * and no events, and touches nothing else: filters, page number and both
   * dialogs, with the certificate data, stay as they were.
   */
  lemma LogoutSpec(s: PageState, allEvents: seq<Event>, mockUserEvents: seq<Event>)
    ensures !Logout(s).isLoggedIn && Logout(s).username == "" && Logout(s).password == ""
    ensures Logout(s).userEvents == []
    ensures Logout(s).(isLoggedIn := s.isLoggedIn, username := s.username, password := s.password,
                       userEvents := s.userEvents) == s
    ensures FiltersOf(Logout(s)) == FiltersOf(s) && Logout(s).currentPage == s.currentPage
    ensures Paginated(Logout(s), allEvents) == Paginated(s, allEvents)
    ensures Inv(s, allEvents, mockUserEvents) ==> Inv(Logout(s), allEvents, mockUserEvents)
  {
  }

  /** Logging out twice is logging out once. */
  lemma LogoutIdempotent(s: PageState)
    ensures Logout(Logout(s)) == Logout(s)
  {
  }

  /**
   * A scan always closes the scanner. When some event of
   * `userEvents ++ allEvents` has an id rendering as the code, the certificate
   * describes the first such event, names the current username and is shown;
   * otherwise the certificate fields are untouched and the invalid-code notice
   * is raised. Nothing else changes.
   */
  lemma ScanSpec(s: PageState, allEvents: seq<Event>, code: string)
    ensures !Scan(s, allEvents, code).state.showQRScanner
    ensures var all := s.userEvents + allEvents;
      var r := Scan(s, allEvents, code);
      if exists e :: e in all && IdMatches(e, code) then
        var e := all[FindIndex(all, code).value];
        && r.notice == None
        && r.state == s.(showQRScanner := false, showCertificate := true,
                         certificateData := Some(Certificate(e.title, s.username, e.date)))
      else
        && r.notice == Some(InvalidQRCode)
        && NoticeText(r.notice.value) == "Invalid QR Code"
        && r.state == s.(showQRScanner := false)
  {
    MatchCodeSpec(code, s.userEvents, allEvents, s.username);
  }

  /** A scan keeps the invariant. */
  lemma ScanInv(s: PageState, allEvents: seq<Event>, mockUserEvents: seq<Event>, code: string)
    requires Inv(s, allEvents, mockUserEvents)
    ensures Inv(Scan(s, allEvents, code).state, allEvents, mockUserEvents)
  {
  }

  /** Choosing a page from the page bar keeps the page number in range. */
  lemma SelectPageInv(s: PageState, page: int, allEvents: seq<Event>, mockUserEvents: seq<Event>)
    requires Inv(s, allEvents, mockUserEvents)
    requires 1 <= page <= PageCount(s, allEvents)
    ensures Inv(SelectPage(s, page), allEvents, mockUserEvents)
    ensures Paginated(SelectPage(s, page), allEvents) != []
  {
    PageInRangeIsNonEmpty(Filtered(s, allEvents), page);
  }

  /** In a reachable state, the current page shows something whenever some event passes the filters. */
  lemma ValidPageIsNonEmpty(s: PageState, allEvents: seq<Event>, mockUserEvents: seq<Event>)
    requires Inv(s, allEvents, mockUserEvents)
    ensures Filtered(s, allEvents) != [] ==> Paginated(s, allEvents) != []
  {
    if Filtered(s, allEvents) != [] {
      PageInRangeIsNonEmpty(Filtered(s, allEvents), s.currentPage);
    }
  }
}
