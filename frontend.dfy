/**
 * The page component as an object: one field per piece of React state and
 * one method per handler or input setter. Every method is a synchronous
 * update whose new state is the matching transition of `Session` applied
 * to the old state, and every method keeps the invariant `Session.Inv`.
 */
module Frontend {
  import opened Wrappers
  import opened Events
  import opened Pagination
  import opened Attendance
  import opened Session
  import opened MockData

  class ArtChainFrontend {
    /** `dummyEvents` and `mockUserEvents`, fixed for the life of the page. */
    const allEvents: seq<Event>
    const mockUserEvents: seq<Event>

    var searchTerm: string
    var dateFilter: string
    var categoryFilter: string
    var locationFilter: string
    var currentPage: int
    var isLoggedIn: bool
    var username: string
    var password: string
    var userEvents: seq<Event>
    var showQRScanner: bool
    var showCertificate: bool
    var certificateData: Option<Certificate>

    /** The fields gathered into one record. */
    function State(): PageState
      reads this
    {
      PageState(searchTerm, dateFilter, categoryFilter, locationFilter, currentPage, isLoggedIn,
                username, password, userEvents, showQRScanner, showCertificate, certificateData)
    }

    ghost predicate Valid()
      reads this
    {
      Inv(State(), allEvents, mockUserEvents)
    }

    /** Mounting the page on a day `today` whose following week starts at `nextWeek`. */
    constructor (today: string, nextWeek: string)
      ensures allEvents == DummyEvents(today, nextWeek)
      ensures mockUserEvents == MockUserEvents(today, nextWeek)
      ensures State() == Initial()
      ensures Valid()
    {
      allEvents := DummyEvents(today, nextWeek);
      mockUserEvents := MockUserEvents(today, nextWeek);
      searchTerm, dateFilter, categoryFilter, locationFilter := "", "", "", "";
      currentPage := 1;
      isLoggedIn := false;
      username, password := "", "";
      userEvents := [];
      showQRScanner, showCertificate := false, false;
      certificateData := None;
    }

    /** The search box's `onChange`, followed by the page-reset effect. */
    method SetSearchTerm(value: string)
      requires Valid()
      modifies this
      ensures Valid()
      ensures State() == ChangeFilter(old(State()), Search, value)
    {
      if value != searchTerm {
        searchTerm := value;
        currentPage := 1;
      }
    }

    /** The date input's `onChange`, followed by the page-reset effect. */
    method SetDateFilter(value: string)
      requires Valid()
      modifies this
      ensures Valid()
      ensures State() == ChangeFilter(old(State()), Date, value)
    {
      if value != dateFilter {
        dateFilter := value;
        currentPage := 1;
      }
    }

    /** The category select's `onChange`, followed by the page-reset effect. */
    method SetCategoryFilter(value: string)
      requires Valid()
      modifies this
      ensures Valid()
      ensures State() == ChangeFilter(old(State()), Category, value)
    {
      if value != categoryFilter {
        categoryFilter := value;
        currentPage := 1;
      }
    }

    /** The location select's `onChange`, followed by the page-reset effect. */
    method SetLocationFilter(value: string)
      requires Valid()
      modifies this
      ensures Valid()
      ensures State() == ChangeFilter(old(State()), Location, value)
    {
      if value != locationFilter {
        locationFilter := value;
        currentPage := 1;
      }
    }

    /** The login form's username input. */
    method SetUsername(value: string)
      requires Valid()
      modifies this
      ensures Valid()
      ensures State() == Session.SetUsername(old(State()), value)
    {
      username := value;
    }

    /** The login form's password input. */
    method SetPassword(value: string)
      requires Valid()
      modifies this
      ensures Valid()
      ensures State() == Session.SetPassword(old(State()), value)
    {
      password := value;
    }

    /** `handleLogin`; the returned notice stands for the `alert`. */
    method HandleLogin() returns (notice: Option<Notice>)
      requires Valid()
      modifies this
      ensures Valid()
      ensures State() == Login(old(State()), mockUserEvents).state
      ensures notice == Login(old(State()), mockUserEvents).notice
    {
      if username == VALID_USERNAME && password == VALID_PASSWORD {
        isLoggedIn := true;
        userEvents := mockUserEvents;
        notice := None;
      } else {
        notice := Some(InvalidCredentials);
      }
    }

    /** `handleLogout`. */
    method HandleLogout()
      requires Valid()
      modifies this
      ensures Valid()
      ensures State() == Logout(old(State()))
    {
      isLoggedIn := false;
      username := "";
      password := "";
      userEvents := [];
    }

    /** The "Scan QR Code" button, rendered only while logged in. */
    method OpenScanner()
      requires Valid() && isLoggedIn
      modifies this
      ensures Valid()
      ensures State() == Session.OpenScanner(old(State()))
    {
      showQRScanner := true;
    }

    /** Dismissing the scanner dialog. */
    method CloseScanner()
      requires Valid()
      modifies this
      ensures Valid()
      ensures State() == Session.CloseScanner(old(State()))
    {
      showQRScanner := false;
    }

    /** `handleQRScan`; the returned notice stands for the `alert`. */
    method HandleQRScan(qrCode: string) returns (notice: Option<Notice>)
      requires Valid()
      modifies this
      ensures Valid()
      ensures State() == Scan(old(State()), allEvents, qrCode).state
      ensures notice == Scan(old(State()), allEvents, qrCode).notice
    {
      var found := Find(userEvents + allEvents, qrCode);
      if found.Some? {
        var event := found.value;
        certificateData := Some(Certificate(event.title, username, event.date));
        showCertificate := true;
        notice := None;
      } else {
        notice := Some(InvalidQRCode);
      }
      showQRScanner := false;
    }

    /** The certificate dialog's "Close" button. */
    method CloseCertificate()
      requires Valid()
      modifies this
      ensures Valid()
      ensures State() == Session.CloseCertificate(old(State()))
    {
      showCertificate := false;
    }

    /** A button of the page bar, which offers the pages `1..totalPages`. */
    method SelectPage(page: int)
      requires Valid()
      requires 1 <= page <= PageCount(State(), allEvents)
      modifies this
      ensures Valid()
      ensures State() == Session.SelectPage(old(State()), page)
    {
      currentPage := page;
    }

    /**
     * `paginatedEvents` of the current state: never empty while some event
     * passes the filters.
     */
    function PaginatedEvents(): (r: seq<Event>)
      reads this
      requires Valid()
      ensures |r| <= ITEMS_PER_PAGE
      ensures Filtered(State(), allEvents) != [] ==> r != []
    {
      PageAtMostSix(Filtered(State(), allEvents), currentPage);
      ValidPageIsNonEmpty(State(), allEvents, mockUserEvents);
      Paginated(State(), allEvents)
    }
  }
}
