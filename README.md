# EventHub page logic, modelled in Dafny

This project models the logic of the single-page EventHub front end
(`ArtChainFrontend.tsx`): browsing a fixed list of events through a
case-insensitive title search and exact date, category and location
filters; paginating the result six events at a time; a login form that
accepts only the literal credentials `user` / `password` and then shows
"My Events"; and an attendance scanner that matches a typed code against
event ids and fills in a certificate of attendance.

Layout, one module per concern:

- `decimal.dfy` (`Decimal`): `id.toString()` for integer ids, with the
  proof that different ids render differently.
- `text.dfy` (`Text`): ASCII `toLowerCase` and `includes`.
- `events.dfy` (`Events`): the `Event` record, the four filters and
  `filteredEvents`.
- `pagination.dfy` (`Pagination`): `totalPages`, JavaScript `slice` and
  `paginatedEvents`, and when the page bar is shown.
- `attendance.dfy` (`Attendance`): the `find` over `userEvents ++ dummyEvents`
  and the certificate record.
- `session.dfy` (`Session`): the whole component state as one record
  `PageState`, one transition function per handler or input, and the
  invariant every reachable state keeps.
- `frontend.dfy` (`Frontend`): the component as a class with one field per
  `useState`; each method updates its fields in place and is proved to
  produce exactly the `Session` transition of the old state while keeping
  the invariant.
- `mock_data.dfy` (`MockData`): the ten sample events and the two user
  events, with the clock-dependent dates as parameters.
- `scenarios.dfy` (`Scenarios`): concrete runs on the sample data.
- `wrappers.dfy` (`Wrappers`): `Option`.

The browser's `alert` becomes a returned `Notice` (`InvalidCredentials`,
`InvalidQRCode`). React state updates are taken as synchronous field
assignments. The dates the page computes from the clock ("today" and
"today plus seven days") are parameters `today` and `nextWeek`, treated as
opaque strings.

Three behaviours of the code worth knowing:

- Searching "tech" returns "Tech Conference 2024" alone, because the
  search looks only at titles (`Scenarios.SearchTech`).
- The page number is reset only when a filter value actually changes,
  because the effect at lines 160-162 runs only when one of its
  dependencies changes. Setting a filter to its current value leaves the
  page number as it is (`Session.ChangeFilterSpec`).
- Logout does not close the scanner or certificate dialogs
  (`Session.LogoutSpec`). Closing the certificate keeps `certificateData`.

## Model

| member | source | states |
|---|---|---|
| `Decimal.NatToString` | ArtChainFrontend.tsx:146 | the rendering of a natural number is a non-empty string of decimal digits whose value is the number, with no leading zero |
| `Decimal.IntToString` | ArtChainFrontend.tsx:146 | `id.toString()` is non-empty and starts with `-` exactly for negative ids |
| `Decimal.NatToStringInjective` | ArtChainFrontend.tsx:146 | two naturals with the same rendering are equal |
| `Decimal.IntToStringInjective` | ArtChainFrontend.tsx:146 | two integer ids with the same rendering are equal, so a code matches at most one id value |
| `Text.LowerChar` | ArtChainFrontend.tsx:115 | an upper-case ASCII letter becomes its lower-case letter, every other character is kept, and the result is never upper-case |
| `Text.LowerIdempotent` | ArtChainFrontend.tsx:115 | lower-casing twice is lower-casing once |
| `Text.Contains` | ArtChainFrontend.tsx:115 | `includes` holds exactly when the pattern occurs at some index of the text |
| `Text.ShiftOccurrence` | ArtChainFrontend.tsx:115 | without an occurrence at 0, the occurrences in the text are those in its tail, shifted by one |
| `Text.NotContainedByPair` | ArtChainFrontend.tsx:115 | a pattern whose first two characters never stand side by side in the text does not occur in it |
| `Text.LowerNotContainedByPair` | ArtChainFrontend.tsx:115 | the same test, ignoring case, rules out a case-insensitive match |
| `Text.Lower` | ArtChainFrontend.tsx:115 | the ASCII lower-casing of `toLowerCase` keeps the length and lower-cases each character by itself |
| `Text.ContainsEmpty` | ArtChainFrontend.tsx:115 | the empty search term is contained in every title |
| `Events.FieldAccepts` | ArtChainFrontend.tsx:116-118 | an exact field filter accepts every value while empty (falsy) and otherwise only the equal value |
| `Events.TitleMatches` | ArtChainFrontend.tsx:115 | the lower-cased title contains the lower-cased search term |
| `Events.Matches` | ArtChainFrontend.tsx:114-119 | the filter callback: the title search and the three field filters all accept the event |
| `Events.FilterEvents` | ArtChainFrontend.tsx:113-120 | the filtered list holds an event iff the event is in the list and satisfies all four conditions, and it is an order-preserving subsequence of the list |
| `Events.FilterCounts` | ArtChainFrontend.tsx:113-120 | each matching event occurs in the filtered list as often as in the list, and no other event occurs in it |
| `Events.FilterCons` | ArtChainFrontend.tsx:113-120 | filtering a list decides its first event and then filters the rest |
| `Events.FilterAppend` | ArtChainFrontend.tsx:113-120 | filtering distributes over concatenation, so relative order is kept |
| `Events.NoFiltersMatchAll` | ArtChainFrontend.tsx:115-118 | with all four inputs empty, every event matches |
| `Events.FilterWithNoFilters` | ArtChainFrontend.tsx:113-120 | with all four inputs empty, the filtered list is the whole list |
| `Events.SearchIgnoresCase` | ArtChainFrontend.tsx:115 | two search terms with the same lower-casing give the same filtered list |
| `Events.FilterIdempotent` | ArtChainFrontend.tsx:113-120 | filtering the filtered list again changes nothing |
| `Events.FilterNoneMatch` | ArtChainFrontend.tsx:113-120 | when no event matches, the filtered list is empty |
| `Events.FilterSingleMatch` | ArtChainFrontend.tsx:113-120 | when exactly one position matches, the filtered list is that one event |
| `Pagination.TotalPages` | ArtChainFrontend.tsx:122 | `totalPages` is the ceiling of n / 6: the least page count whose pages hold n items |
| `Pagination.SliceBound` | ArtChainFrontend.tsx:123-126 | a `slice` bound inside the list is kept, one past the end is cut to the length, a negative one counts from the end and is clamped at 0 |
| `Pagination.Slice` | ArtChainFrontend.tsx:123-126 | `slice(start, end)` has length max(0, end' - start') for the clamped bounds and holds the list's items from start' on |
| `Pagination.Page` | ArtChainFrontend.tsx:123-126 | `paginatedEvents` is the slice from (p-1)*6 to p*6; its properties are the `Page…` lemmas below |
| `Pagination.ShowsPageBar` | ArtChainFrontend.tsx:286 | the page bar is shown when `totalPages > 1` |
| `Pagination.PageIsWindow` | ArtChainFrontend.tsx:123-126 | for page p >= 1 the page has length min(6, max(0, n - (p-1)*6)) and is the contiguous run of the list starting at (p-1)*6 |
| `Pagination.PageAtMostSix` | ArtChainFrontend.tsx:123-126 | every page, for any page number, has at most six events |
| `Pagination.PageBeyondLastIsEmpty` | ArtChainFrontend.tsx:122-126 | a page number greater than `totalPages` shows nothing |
| `Pagination.PageInRangeIsNonEmpty` | ArtChainFrontend.tsx:122-126 | every page from 1 to `totalPages` shows at least one event |
| `Pagination.PagesUpToIsPrefix` | ArtChainFrontend.tsx:122-126 | pages 1..k laid end to end are the first min(6k, n) events |
| `Pagination.AllPagesRebuildList` | ArtChainFrontend.tsx:122-126 | pages 1..`totalPages` laid end to end are exactly the filtered list |
| `Pagination.PageBarIffMoreThanOnePage` | ArtChainFrontend.tsx:286 | the page bar is rendered iff more than six events pass the filters |
| `Attendance.IdMatches` | ArtChainFrontend.tsx:146 | the `find` callback: the id's decimal string equals the code |
| `Attendance.FindIndex` | ArtChainFrontend.tsx:146 | `find` stops at the first event whose id renders as the code, and finds nothing exactly when no event's id does |
| `Attendance.Find` | ArtChainFrontend.tsx:146 | `find` returns an event iff some event of the list has an id rendering as the code, and what it returns is such an event of the list |
| `Attendance.FindPrefersFirstList` | ArtChainFrontend.tsx:146 | on `userEvents ++ dummyEvents` a hit among the user's events wins; otherwise the result is the search of the full list |
| `Attendance.CodeMatchesOnlyItsId` | ArtChainFrontend.tsx:146 | the code rendering k matches an event iff its id is k, so "1" matches id 1 and never id 101 |
| `Attendance.MatchCode` | ArtChainFrontend.tsx:145-152 | the certificate data a scan builds from the found event and the username; specified by `Attendance.MatchCodeSpec` |
| `Attendance.MatchCodeSpec` | ArtChainFrontend.tsx:145-152 | a certificate is produced iff some event of the combined list has an id rendering as the code; it carries the first such event's title and date and the username as attendee |
| `Attendance.FindUniqueId` | ArtChainFrontend.tsx:146 | in a list with distinct ids, the code of an event's id finds that event |
| `Session.NoticeText` | ArtChainFrontend.tsx:134 | the two `alert` texts, "Invalid credentials" and "Invalid QR Code" (line 155); `Session.LoginSpec` and `Session.ScanSpec` state which notice carries which text |
| `Session.Filtered` | ArtChainFrontend.tsx:113-120 | `filteredEvents`: the filter of the full list by the state's four filter inputs; its properties are those of `Events.FilterEvents` |
| `Session.PageCount` | ArtChainFrontend.tsx:122 | `totalPages` of the state's filtered list, as given by `Pagination.TotalPages` |
| `Session.Paginated` | ArtChainFrontend.tsx:123-126 | `paginatedEvents`: the state's current page of its filtered list, as given by `Pagination.Page` |
| `Session.SetUsername` | ArtChainFrontend.tsx:198 | the username input's `onChange` replaces only `username` |
| `Session.SetPassword` | ArtChainFrontend.tsx:205 | the password input's `onChange` replaces only `password` |
| `Session.Inv` | ArtChainFrontend.tsx:77-84 | the invariant of reachable states: 1 <= `currentPage` <= max(1, `totalPages`), `userEvents` are the user's events exactly while logged in, and a shown certificate has data |
| `Session.Initial` | ArtChainFrontend.tsx:73-84 | the `useState` defaults; proved to satisfy the invariant by `Session.InitialInv` |
| `Session.ChangeFilter` | ArtChainFrontend.tsx:160-162 | a filter input's change followed by the page-reset effect; specified by `Session.ChangeFilterSpec` |
| `Session.Login` | ArtChainFrontend.tsx:128-136 | `handleLogin`; specified by `Session.LoginSpec` |
| `Session.Logout` | ArtChainFrontend.tsx:138-143 | `handleLogout`; specified by `Session.LogoutSpec` |
| `Session.Scan` | ArtChainFrontend.tsx:145-158 | `handleQRScan`; specified by `Session.ScanSpec` |
| `Session.OpenScanner` | ArtChainFrontend.tsx:272 | the scan button sets only `showQRScanner` |
| `Session.CloseScanner` | ArtChainFrontend.tsx:301 | dismissing the scanner clears only `showQRScanner` |
| `Session.CloseCertificate` | ArtChainFrontend.tsx:319 | the close button clears only `showCertificate`, keeping the data |
| `Session.SelectPage` | ArtChainFrontend.tsx:291 | a page button sets only `currentPage`; `Session.SelectPageInv` gives its invariant |
| `Session.InitialInv` | ArtChainFrontend.tsx:73-84 | the freshly mounted page satisfies the invariant |
| `Session.ChangeFilterSpec` | ArtChainFrontend.tsx:160-162 | a filter change stores the new value and keeps the other three filters; the same value changes nothing, a different one resets the page to 1; session and dialog fields stay, and the invariant is kept |
| `Session.LoginSpec` | ArtChainFrontend.tsx:128-136 | login succeeds iff username is "user" and password is "password"; success sets `isLoggedIn` and loads the user events; failure changes nothing and raises the notice whose text is "Invalid credentials" |
| `Session.LoginInv` | ArtChainFrontend.tsx:128-136 | login keeps the invariant |
| `Session.LogoutSpec` | ArtChainFrontend.tsx:138-143 | from any state, logout clears the login flag, both credentials and the user events, changes no other field (filters, page, both dialogs and the certificate data stay), and keeps the invariant |
| `Session.LogoutIdempotent` | ArtChainFrontend.tsx:138-143 | logging out twice equals logging out once |
| `Session.ScanSpec` | ArtChainFrontend.tsx:145-158 | a scan always closes the scanner; on a match it shows the certificate of the first matching event for the current username; otherwise the certificate fields are untouched and the notice "Invalid QR Code" is raised |
| `Session.ScanInv` | ArtChainFrontend.tsx:145-158 | a scan keeps the invariant |
| `Session.SelectPageInv` | ArtChainFrontend.tsx:288-291 | choosing one of the page bar's pages keeps the invariant and shows a non-empty page |
| `Session.ValidPageIsNonEmpty` | ArtChainFrontend.tsx:122-126 | in every reachable state the current page shows something whenever some event passes the filters |
| `Frontend.ArtChainFrontend.constructor` | ArtChainFrontend.tsx:73-111 | the mounted page holds the initial state and the two sample lists, and satisfies the invariant |
| `Frontend.ArtChainFrontend.SetSearchTerm` | ArtChainFrontend.tsx:220 | the search input's change is the `Session.ChangeFilter` transition, keeping the invariant |
| `Frontend.ArtChainFrontend.SetDateFilter` | ArtChainFrontend.tsx:232 | the date input's change is the `Session.ChangeFilter` transition, keeping the invariant |
| `Frontend.ArtChainFrontend.SetCategoryFilter` | ArtChainFrontend.tsx:237 | the category select's change is the `Session.ChangeFilter` transition, keeping the invariant |
| `Frontend.ArtChainFrontend.SetLocationFilter` | ArtChainFrontend.tsx:251 | the location select's change is the `Session.ChangeFilter` transition, keeping the invariant |
| `Frontend.ArtChainFrontend.SetUsername` | ArtChainFrontend.tsx:198 | typing a username changes only `username` |
| `Frontend.ArtChainFrontend.SetPassword` | ArtChainFrontend.tsx:205 | typing a password changes only `password` |
| `Frontend.ArtChainFrontend.HandleLogin` | ArtChainFrontend.tsx:128-136 | the new fields and the notice are those of `Session.Login`, keeping the invariant |
| `Frontend.ArtChainFrontend.HandleLogout` | ArtChainFrontend.tsx:138-143 | the new fields are those of `Session.Logout`, keeping the invariant |
| `Frontend.ArtChainFrontend.OpenScanner` | ArtChainFrontend.tsx:272 | the scan button, which exists only while logged in, only opens the scanner |
| `Frontend.ArtChainFrontend.CloseScanner` | ArtChainFrontend.tsx:301 | dismissing the scanner only closes it |
| `Frontend.ArtChainFrontend.HandleQRScan` | ArtChainFrontend.tsx:145-158 | the new fields and the notice are those of `Session.Scan`, keeping the invariant |
| `Frontend.ArtChainFrontend.CloseCertificate` | ArtChainFrontend.tsx:319 | the close button only hides the certificate |
| `Frontend.ArtChainFrontend.SelectPage` | ArtChainFrontend.tsx:291 | a page button sets only the page number, keeping the invariant |
| `Frontend.ArtChainFrontend.PaginatedEvents` | ArtChainFrontend.tsx:123-126 | the visible page has at most six events and is non-empty whenever some event passes the filters |
| `MockData.DummyEvents` | ArtChainFrontend.tsx:100-111 | the ten sample events, whose ids are 1 to 10 in list order |
| `MockData.MockUserEvents` | ArtChainFrontend.tsx:95-98 | the two user events, ids 101 and 102; the first is today's "Web Development Workshop" |
| `Scenarios.SearchTech` | ArtChainFrontend.tsx:113-120 | searching "tech" over the sample events yields only "Tech Conference 2024" |
| `Scenarios.SampleLogin` | ArtChainFrontend.tsx:128-136 | typing "user" / "password" and submitting logs in with the two user events |
| `Scenarios.SampleWrongPassword` | ArtChainFrontend.tsx:128-136 | any other password is refused with the invalid-credentials notice and stays logged out |
| `Scenarios.SampleScan101` | ArtChainFrontend.tsx:145-158 | after login, "101" certifies "user" for "Web Development Workshop" on today's date |
| `Scenarios.SampleScan1` | ArtChainFrontend.tsx:146 | after login, "1" finds "Summer Music Festival" (id 1), not id 101 |
| `Scenarios.SampleScan999` | ArtChainFrontend.tsx:145-158 | after login, "999" matches nothing: the scanner closes, the invalid-code notice is raised and nothing else changes |
| `Scenarios.SampleIdsDistinct` | ArtChainFrontend.tsx:95-111 | the twelve ids of the combined list are distinct |
| `Scenarios.SampleOwnCodeFindsEvent` | ArtChainFrontend.tsx:146 | scanning any event's own id finds that event |

## Left out

- The markup: `EventCard`, `AttendanceCertificate`, the header, the dialogs,
  icons and styling (lines 9-70, 164-325). They are presentation only.
- `QRCodeScanner`'s own text field state (lines 36-54). The code it passes on
  is the parameter of `HandleQRScan`.
- The clock: `new Date()`, `nextWeek` and `formatDate` (lines 88-93). The two
  computed dates are the parameters `today` and `nextWeek`.
- React scheduling. Updates are synchronous, so the render between a filter
  change and the page-reset effect, which still shows the old page number,
  is not modelled.
- `Text.LowerChar`, `Text.Lower`: lower-case only the ASCII letters, not the
  full Unicode mapping of `toLowerCase`. Keeping the length is a property of
  the ASCII lower-casing; the full mapping can lengthen a string (`"İ"`
  becomes two code units).
- `Decimal.IntToString`: renders every integer with plain digits, while
  `Number.prototype.toString` switches to exponent notation from 10^21 on.
  Fractional or non-finite ids are not modelled.
- `Pagination.TotalPages`: uses exact integer ceiling division where the page
  divides floating-point numbers and applies `Math.ceil`. The two agree for
  every list length the page can hold.
- The browser `alert` dialog. It is the returned `Notice`.
- `e.preventDefault()` in `handleLogin`, a browser form detail.
- The "4 hours" certificate text (line 64), a display constant.
