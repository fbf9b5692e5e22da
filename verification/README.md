# Bus tracker front end: session state machine and bus-list derivations

This project models the logic of the bus tracker page, `app.js`. The page keeps
its session in five top-level variables: `isLoggedIn`, `userRole`,
`currentUser`, `selectedBusId` and `gpsWatchId`. DOM event handlers change them.
The page also turns the backend's bus dataset (a JSON object keyed by bus id)
into a list, status counters and map markers. Here that logic is lifted out of
the handlers. The session is an immutable `Session` record, the dataset is a
`map<string, Bus>`, and every handler is a pure transition or derivation.

Modules:

- `Wrappers`: `Option` (for the page's `null`/`undefined`) and `Result` (for the code paths that throw).
- `Text`: ASCII lower-casing and substring containment. `Includes` is a search loop proved equal to the `Contains` definition.
- `Credentials`: the constant driver and student tables.
- `Sessions`:
  - bus selection, driver login, student login, stop-tracking, logout and start-tracking, as functions over `Session`;
  - an event-driven `Run` of these transitions;
  - the `Consistent` invariant that every run keeps.
- `Buses`:
  - the effective status of a bus and its display name;
  - the list rendering loop, with its tallies;
  - the fallback dataset.
- `Markers`: the marker colour, and the upsert of one marker or of all markers.
- `Search`: the visibility predicate of the search box and the filter loop over the list rows.
- `Loader`: `loadBusData`'s choice between live data and the fallback dataset.

JavaScript truthiness is modelled explicitly:

- A string typed into a form field is never `null`, so `!x` means `x == ""`.
- `selectedBusId`, `bus.status` and `bus.name` may be absent. They are `Option<string>`, and both `None` and `Some("")` count as falsy.
- A missing or non-numeric coordinate makes `toFixed` throw while the list is rendered. Coordinates are therefore `Option<real>`. They are never computed with.

Two more details of the browser runtime are modelled:

- `markers` is a plain object, so `markers[busId]` is truthy for the names it inherits from `Object.prototype` (`toString`, `constructor`, `__proto__` and the rest of `Markers.InheritedNames`). An update of such an id takes the "existing marker" branch, and `setLatLng` throws. The marker loop of `loadBusData` then stops, the markers it already placed stay on the map, and the page falls back. The same throw in the fallback's marker loop, inside the `catch` block, would leave `loadBusData` altogether. The page's own fallback ids are digits, so that never happens (`Loader.RefreshBusData`).
- `response.json()` may yield the JSON literal `null`. Its `for...in` loop in `updateBusList` runs zero times, and then `Object.keys(null)` throws, so the page falls back. A body is therefore not JSON, `null`, or an object of buses (`Loader.Body`).

Three behaviours of the code are stated as lemmas or contracts:

- The marker colour comes from the bus's own `status`. The id-based default status is applied only to the list. So a bus "2" without a status shows as delayed in the list, but the marker that update creates is blue (`Markers.ColorIgnoresDefaultStatus`). A bus that already has a marker keeps its colour whatever the new status (`Markers.FirstStatusSticks`).
- The search lower-cases the term but compares it with the raw id. So a bus whose id has a capital letter is found by typing that id only when its heading contains the id, ignoring case (`Search.CapitalIdNeedsHeading`). Bus "B7" named "Loop" is not found (`Search.CapitalIdMissed`). The page's own ids are digits, and a lower-case id is always found (`Search.LowerCaseIdFinds`).
- `loadBusData` makes one request per call and shows the static dataset on any failure; it does not retry. That dataset is a parameter of `Loader.LoadBusData`. `Loader.RefreshBusData` passes the page's own `Buses.Fallback`, in which every bus has coordinates and no id is an inherited name, and shows its four buses' tallies.

## Model

| member | source | states |
|---|---|---|
| `Credentials.DriverBusesDistinct` | app.js:24-29 | no two drivers in the table are assigned the same bus |
| `Credentials.TableEntriesNonEmpty` | app.js:24-36 | every bus id and password in both tables is non-empty, so none of them is falsy |
| `Sessions.SelectBus` | app.js:683-690 | clicking a bus option sets `selectedBusId` to that option's id and changes nothing else |
| `Sessions.DriverLogin` | app.js:477-520 | login succeeds iff both fields are non-empty, a bus is selected, the id is in the driver table, the password matches and the driver's bus is the selected one. On success the session is logged in as a driver, `currentUser` holds the id, the table name and the selected bus, and selection and watch are untouched. Otherwise the session is unchanged. The notice is exactly: "missing credentials" when a field is empty; "no bus selected" when both fields are filled but no bus is chosen; "invalid credentials" when fields and bus are present but the id is unknown or the password wrong; "not assigned to this bus" when the credentials are right but the bus differs |
| `Sessions.StudentLogin` | app.js:523-560 | login succeeds iff both fields are non-empty, a bus is selected, the id is in the student table and the password matches. On success the role is student, `currentUser` holds only the id and the table name, and `selectedBusId` and the watch are untouched. Otherwise the session is unchanged. The notice is exactly: "missing credentials" when a field is empty; "no bus selected" when both fields are filled but no bus is chosen; "invalid credentials" when fields and bus are present but the id is unknown or the password wrong; "not assigned to this bus" never |
| `Sessions.StopTracking` | app.js:463-474 | the watch handle becomes null and nothing else in the session changes |
| `Sessions.Logout` | app.js:563-568 | whatever the prior state, `isLoggedIn` becomes false and role, user, selected bus and watch handle become null |
| `Sessions.StartWatch` | app.js:283-295 | with a bus selected, the new watch handle is recorded. Without one the session is unchanged, and the stale handle stays. Only the watch handle can change, and the login state is not checked |
| `Sessions.StepKeepsConsistent` | app.js:683-712 | every handler wired to a page event keeps login flag, role and user set or cleared together, with the user matching the table entry for the role |
| `Sessions.RunKeepsConsistent` | app.js:476-568 | any sequence of user actions from a consistent session, in particular from the initial one, ends in a consistent session |
| `Sessions.LogoutResets` | app.js:563-568 | logging out returns exactly to the page's initial state, so logging out twice is the same as once |
| `Sessions.LoginAfterLogoutRejected` | app.js:481-489 | right after a logout every driver or student login is rejected, for missing fields or for the missing bus, and the session stays logged out |
| `Sessions.DriverCanLogIn` | app.js:477-520 | every driver in the table logs in with their own password once their own bus is selected, from any session |
| `Sessions.StudentCanLogIn` | app.js:523-560 | every student in the table logs in with their own password once any bus is selected, from any session |
| `Sessions.DriverLoginUnique` | app.js:492-496 | for a given session at most one driver id can log in successfully |
| `Sessions.DriverSessionBus` | app.js:498-504 | a logged-in driver's `currentUser.busId` is the bus the table assigns to that driver |
| `Buses.EffectiveStatus` | app.js:240-248 | the row status is never empty. It is the bus's own status when present, and otherwise one of the three known statuses |
| `Buses.DefaultStatusById` | app.js:240-248 | without its own status a bus is on time for id "1", delayed for "2", arriving for "3" and on time for any other id |
| `Buses.DisplayName` | app.js:260 | the heading is never empty. It is the bus's name when present, and otherwise "Bus " followed by the id |
| `Buses.ScanBuses` | app.js:233-274 | the loop either stops at a bus whose coordinates are missing, or has built every bus's row and counted exactly the buses with each effective status |
| `Buses.RenderBusList` | app.js:225-280 | rendering throws iff some bus lacks a coordinate. Otherwise there is one row per bus with its display name and effective status, active = total = number of buses, and each tally = number of buses with that effective status |
| `Buses.TalliesBounded` | app.js:229-255 | the three tallies sum to at most the number of buses, with equality iff every effective status is one of the three known ones |
| `Buses.FallbackTallies` | app.js:39-44 | the fallback dataset has four buses with coordinates: two on time, one delayed, one arriving |
| `Markers.MarkerColor` | app.js:195-201 | the colour is one of four, and it is blue exactly when the status is not one of the three known ones (including missing) |
| `Markers.MarkerColorDistinguishes` | app.js:195-201 | the three known statuses get three different colours |
| `Markers.UpsertMarker` | app.js:210-221 | the update throws iff the id has no marker but is an inherited name. Otherwise the key set gains the id and every other marker is untouched. The id's marker is at the new position. An existing marker keeps its colour, popup and click target, and a new one takes them from this call |
| `Markers.UpsertIdempotent` | app.js:210-221 | repeating an update changes nothing: it throws again, or leaves the markers as they were |
| `Markers.FirstStatusSticks` | app.js:210-221 | two updates of an id without a marker go through iff it is not an inherited name. Then the marker is at the second position but has the colour, popup and click target of the first |
| `Markers.UpsertsCommute` | app.js:210-221 | updates of different ids commute: the two orders throw alike, and otherwise leave the same markers |
| `Markers.UpsertAll` | app.js:173-176 | the marker loop throws iff some bus id is an inherited name without a marker. The buses it updated each have a marker at their position, new markers are coloured from the bus's own status, existing ones keep their look, and markers of other ids are untouched. Without a throw, every bus was updated |
| `Markers.ColorMatchesBadge` | app.js:175 | when a bus has its own status, its marker colour agrees with its list badge |
| `Markers.ColorIgnoresDefaultStatus` | app.js:175 | a bus "2" without a status is listed as delayed but gets a blue marker, not a red one |
| `Text.Includes` | app.js:723 | the search loop returns true iff the term occurs in the string |
| `Text.Lower` | app.js:716 | lower-casing keeps the length and lower-cases each character in place |
| `Search.FilterBusList` | app.js:715-728 | exactly the rows whose lower-cased heading contains the lower-cased term, or whose raw id contains it, stay shown. An empty term shows every row |
| `Search.EmptySearchShowsAll` | app.js:715-728 | an empty term makes every row visible |
| `Search.SearchIgnoresTermCase` | app.js:716 | a term and its lower-cased form show the same rows |
| `Search.NarrowingNeverReveals` | app.js:715-728 | a row visible for a term is visible for every piece of that term, so typing more never brings a row back |
| `Search.OwnHeadingFinds` | app.js:720-723 | searching for a row's own heading finds it |
| `Search.UnnamedBusFoundById` | app.js:260 | a bus without a name is found by searching for its id |
| `Search.LowerCaseIdFinds` | app.js:721-723 | a bus whose id has no capitals is found by searching for its id |
| `Search.CapitalIdNeedsHeading` | app.js:721-723 | when an id has a capital letter, typing the id finds its row iff the lower-cased heading contains the lower-cased id |
| `Search.CapitalIdMissed` | app.js:721-723 | bus "B7" named "Loop" is hidden when the term is "B7" |
| `Loader.LoadBusData` | app.js:158-190 | the fallback is used iff the request failed, the status was not 2xx, the body was not a JSON object, a bus lacks a coordinate, or a bus id is an inherited name without a marker. Otherwise the live dataset is shown. The list describes the dataset shown. The live markers placed before a throw stay. Then the fallback buses' markers are upserted; that loop throws out of `loadBusData` iff a fallback id is an inherited name without a marker, and otherwise updates every fallback bus |
| `Loader.FallbackLoadable` | app.js:39-44 | every bus of the page's fallback dataset has coordinates, and no id is an inherited name |
| `Loader.RefreshBusData` | app.js:158-190 | with the page's own fallback dataset, the fallback is used under the same conditions, no error leaves `loadBusData`, and a fallback list has four buses: two on time, one delayed, one arriving |

## Left out

- The map library (map, tiles, marker objects, popups, the accuracy circle): only a marker map keyed by bus id is kept. `stopTracking`'s removal of the accuracy circle and `handleLogout`'s removal of the user marker are not modelled.
- All DOM reads and writes, modal show/hide, the modal close handlers and toasts with their timers. The login functions return the toast's reason as a `LoginNotice` instead.
- The network: `fetch`, `response.json()` and the location POST (`updateBusLocationOnServer`). A request is modelled only by its outcome, a `Response` value.
- The 10-second `setInterval` refresh, `init`, and the geolocation API. This includes the watch callbacks of `startTrackingAsBus` and `trackStudentLocation` (marker updates, server posts, fitting the view), `updateGPSStatus`, `checkGPSAvailability`, and the locate-me and enable-location buttons. A new watch handle is a parameter of `Sessions.StartWatch`.
- Coordinates, accuracy and `toFixed` formatting, which are floating point: coordinates are opaque reals. The `lastUpdate` dates of the fallback data and the last-update time are not modelled.
- `Text.Lower`: only ASCII capitals are lower-cased. `toLowerCase` maps all of Unicode.
- The iteration order of `for...in`: the model visits buses in an arbitrary order. That order decides which bus a throwing loop names (`CoordinateMissing`, `failed`, `escaped`) and which live markers are left on the map after a throw; the contracts only say that the named bus is one that throws and that the kept markers were updated correctly, and leave which ones unpinned.
- Bus fields of other JSON types (a numeric `name` or `status`, a `null` bus entry): names and statuses are strings or absent.
- The heading text is taken to be the display name itself. A name containing HTML markup, which `innerHTML` would parse, is not modelled.
- The arriving tally is counted but never written to the page. The model keeps it in the `Tally` with the other two.
- A JSON body that is a number, string, boolean or array: a body is modelled as not JSON, `null`, or an object of buses.
