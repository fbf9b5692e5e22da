/** The login / role state machine of app.js: the five top-level variables
    `isLoggedIn`, `userRole`, `currentUser`, `selectedBusId` and `gpsWatchId`
    (app.js:5-11), lifted into one immutable record, and the handlers that
    change them as pure transitions. */
module Sessions {
  import opened Wrappers
  import opened Credentials

  datatype Role = Driver | Student

  /** `currentUser`: a driver carries the bus they logged in for, a student
      only an id and a name. */
  datatype User = User(id: string, name: string, busId: Option<string>)

  /** A geolocation watch handle, as returned by `watchPosition`. */
  type WatchId = nat

  datatype Session = Session(
    isLoggedIn: bool,
    userRole: Option<Role>,
    currentUser: Option<User>,
    selectedBusId: Option<string>,
    gpsWatchId: Option<WatchId>)

  /** The state the page starts in (app.js:5-11). */
  const Initial := Session(false, None, None, None, None)

  /** What a login handler tells the user; each rejection is one toast. */
  datatype LoginNotice =
    | MissingCredentials
    | NoBusSelected
    | NotAssignedToBus
    | InvalidCredentials
    | LoggedIn

  datatype LoginOutcome = LoginOutcome(session: Session, notice: LoginNotice)

  /** Clicking a bus option in either login modal (app.js:683-690). */
  function SelectBus(s: Session, busId: string): (r: Session)
    ensures r.selectedBusId == Some(busId)
    ensures r.(selectedBusId := s.selectedBusId) == s
  {
    s.(selectedBusId := Some(busId))
  }

  /** The conditions under which the driver handler logs in: both fields
      filled, a bus selected, the id known, the password right and the
      driver assigned to exactly the selected bus. */
  predicate DriverAccepts(s: Session, id: string, password: string) {
    && id != "" && password != ""
    && Truthy(s.selectedBusId)
    && id in Drivers
    && Drivers[id].password == password
    && s.selectedBusId == Some(Drivers[id].busId)
  }

  /** `handleDriverLogin` (app.js:477-520): a guard sequence that either
      leaves the session untouched with a rejection notice, or logs the
      driver in for the selected bus. */
  function DriverLogin(s: Session, id: string, password: string): (r: LoginOutcome)
    ensures r.notice == LoggedIn <==> DriverAccepts(s, id, password)
    ensures r.notice != LoggedIn ==> r.session == s
    ensures r.notice == LoggedIn ==>
      && r.session.isLoggedIn
      && r.session.userRole == Some(Driver)
      && r.session.currentUser == Some(User(id, Drivers[id].name, s.selectedBusId))
      && r.session.selectedBusId == s.selectedBusId
      && r.session.gpsWatchId == s.gpsWatchId
    ensures r.notice == MissingCredentials <==> (id == "" || password == "")
    ensures r.notice == NoBusSelected <==> id != "" && password != "" && !Truthy(s.selectedBusId)
    ensures r.notice == InvalidCredentials <==>
      && id != "" && password != "" && Truthy(s.selectedBusId)
      && !(id in Drivers && Drivers[id].password == password)
    ensures r.notice == NotAssignedToBus <==>
      && id != "" && password != "" && Truthy(s.selectedBusId)
      && id in Drivers && Drivers[id].password == password
      && s.selectedBusId != Some(Drivers[id].busId)
  {
    if id == "" || password == "" then
      LoginOutcome(s, MissingCredentials)
    else if !Truthy(s.selectedBusId) then
      LoginOutcome(s, NoBusSelected)
    else if id in Drivers && Drivers[id].password == password then
      if Drivers[id].busId != s.selectedBusId.value then
        LoginOutcome(s, NotAssignedToBus)
      else
        var user := User(id, Drivers[id].name, s.selectedBusId);
        LoginOutcome(s.(isLoggedIn := true, userRole := Some(Driver), currentUser := Some(user)), LoggedIn)
    else
      LoginOutcome(s, InvalidCredentials)
  }

  /** The conditions under which the student handler logs in: both fields
      filled, a bus selected, the id known and the password right. Which bus
      is selected does not matter. */
  predicate StudentAccepts(s: Session, id: string, password: string) {
    && id != "" && password != ""
    && Truthy(s.selectedBusId)
    && id in Students
    && Students[id].password == password
  }

  /** `handleStudentLogin` (app.js:523-560). */
  function StudentLogin(s: Session, id: string, password: string): (r: LoginOutcome)
    ensures r.notice == LoggedIn <==> StudentAccepts(s, id, password)
    ensures r.notice != LoggedIn ==> r.session == s
    ensures r.notice == LoggedIn ==>
      && r.session.isLoggedIn
      && r.session.userRole == Some(Student)
      && r.session.currentUser == Some(User(id, Students[id].name, None))
      && r.session.selectedBusId == s.selectedBusId
      && r.session.gpsWatchId == s.gpsWatchId
    ensures r.notice == MissingCredentials <==> (id == "" || password == "")
    ensures r.notice == NoBusSelected <==> id != "" && password != "" && !Truthy(s.selectedBusId)
    ensures r.notice == InvalidCredentials <==>
      && id != "" && password != "" && Truthy(s.selectedBusId)
      && !(id in Students && Students[id].password == password)
    ensures r.notice != NotAssignedToBus
  {
    if id == "" || password == "" then
      LoginOutcome(s, MissingCredentials)
    else if !Truthy(s.selectedBusId) then
      LoginOutcome(s, NoBusSelected)
    else if id in Students && Students[id].password == password then
      var user := User(id, Students[id].name, None);
      LoginOutcome(s.(isLoggedIn := true, userRole := Some(Student), currentUser := Some(user)), LoggedIn)
    else
      LoginOutcome(s, InvalidCredentials)
  }

  /** Every driver in the table can log in once their own bus is chosen,
      whatever the session was before. */
  lemma DriverCanLogIn(s: Session, d: string)
    requires d in Drivers
    ensures DriverLogin(SelectBus(s, Drivers[d].busId), d, Drivers[d].password).notice == LoggedIn
  {
    TableEntriesNonEmpty();
  }

  /** Every student in the table can log in once any bus is chosen. */
  lemma StudentCanLogIn(s: Session, u: string, busId: string)
    requires u in Students && busId != ""
    ensures StudentLogin(SelectBus(s, busId), u, Students[u].password).notice == LoggedIn
  {
    TableEntriesNonEmpty();
  }

  /** `stopTracking` (app.js:463-474): clears the geolocation watch, if any,
      and forgets its handle; nothing else in the session changes. */
  function StopTracking(s: Session): (r: Session)
    ensures r.gpsWatchId == None
    ensures r.(gpsWatchId := s.gpsWatchId) == s
  {
    if s.gpsWatchId.Some? then s.(gpsWatchId := None) else s
  }

  /** `handleLogout` (app.js:563-568): stop tracking, then forget the role,
      the user and the selected bus. */
  function Logout(s: Session): (r: Session)
    ensures !r.isLoggedIn
    ensures r.userRole == None && r.currentUser == None
    ensures r.selectedBusId == None && r.gpsWatchId == None
  {
    var t := StopTracking(s);
    t.(isLoggedIn := false, userRole := None, currentUser := None, selectedBusId := None)
  }

  /** `startTrackingAsBus` (app.js:283-295) and `trackStudentLocation`
      (app.js:378-390), which change the session identically: any previous
      watch is cleared in the browser, but its handle is only replaced when
      a bus is selected and the new watch `w` is started. Neither checks
      that anyone is logged in. */
  function StartWatch(s: Session, w: WatchId): (r: Session)
    ensures Truthy(s.selectedBusId) ==> r.gpsWatchId == Some(w)
    ensures !Truthy(s.selectedBusId) ==> r == s
    ensures r.(gpsWatchId := s.gpsWatchId) == s
  {
    if !Truthy(s.selectedBusId) then s else s.(gpsWatchId := Some(w))
  }

  /** A user action on the page that reaches one of the handlers above. */
  datatype Event =
    | ChooseBus(busId: string)
    | SubmitDriverLogin(driverId: string, driverPassword: string)
    | SubmitStudentLogin(studentId: string, studentPassword: string)
    | ClickLogout
    | ClickStartTracking(watch: WatchId)
    | ClickStopTracking

  /** The handler each event is wired to (app.js:683-712). */
  function Step(s: Session, e: Event): Session {
    match e
    case ChooseBus(b) => SelectBus(s, b)
    case SubmitDriverLogin(id, pw) => DriverLogin(s, id, pw).session
    case SubmitStudentLogin(id, pw) => StudentLogin(s, id, pw).session
    case ClickLogout => Logout(s)
    case ClickStartTracking(w) => StartWatch(s, w)
    case ClickStopTracking => StopTracking(s)
  }

  /** The session after a sequence of events, first event first. */
  function Run(s: Session, events: seq<Event>): Session
    decreases |events|
  {
    if events == [] then s else Run(Step(s, events[0]), events[1..])
  }

  /** The invariant every reachable session keeps: `isLoggedIn`, `userRole`
      and `currentUser` are set and cleared together, and the current user
      is exactly the table entry for their role (a driver also carrying the
      bus the table assigns them). */
  predicate Consistent(s: Session) {
    && (s.isLoggedIn <==> s.userRole.Some?)
    && (s.isLoggedIn <==> s.currentUser.Some?)
    && (s.userRole == Some(Driver) ==>
          var u := s.currentUser.value;
          u.id in Drivers && u.name == Drivers[u.id].name && u.busId == Some(Drivers[u.id].busId))
    && (s.userRole == Some(Student) ==>
          var u := s.currentUser.value;
          u.id in Students && u.name == Students[u.id].name && u.busId == None)
  }

  /** Every handler keeps the session consistent. */
  lemma StepKeepsConsistent(s: Session, e: Event)
    requires Consistent(s)
    ensures Consistent(Step(s, e))
  {
  }

  /** Starting from the initial page state, every sequence of user actions
      leads to a consistent session. */
  lemma {:induction false} RunKeepsConsistent(s: Session, events: seq<Event>)
    requires Consistent(s)
    ensures Consistent(Run(s, events))
    decreases |events|
  {
    if events != [] {
      StepKeepsConsistent(s, events[0]);
      RunKeepsConsistent(Step(s, events[0]), events[1..]);
    }
  }

  /** Logging out always returns to the page's initial state, so it is also
      idempotent. */
  lemma LogoutResets(s: Session)
    ensures Logout(s) == Initial
    ensures Logout(Logout(s)) == Logout(s)
  {
  }

  /** Right after a logout no login can succeed: the selected bus is gone,
      so each login is rejected (for missing fields or for the missing bus)
      and leaves the logged-out session as it is. */
  lemma LoginAfterLogoutRejected(s: Session, id: string, password: string)
    ensures DriverLogin(Logout(s), id, password).session == Initial
    ensures DriverLogin(Logout(s), id, password).notice in {MissingCredentials, NoBusSelected}
    ensures StudentLogin(Logout(s), id, password).session == Initial
    ensures StudentLogin(Logout(s), id, password).notice in {MissingCredentials, NoBusSelected}
  {
  }

  /** For a given selected bus at most one driver id can log in: the one the
      table assigns to that bus. */
  lemma DriverLoginUnique(s: Session, a: string, pa: string, b: string, pb: string)
    requires DriverLogin(s, a, pa).notice == LoggedIn
    requires DriverLogin(s, b, pb).notice == LoggedIn
    ensures a == b
  {
    DriverBusesDistinct(a, b);
  }

  /** A successful driver login records the selected bus, which is the bus
      the table assigns to that driver. */
  lemma DriverSessionBus(s: Session, id: string, password: string)
    requires DriverLogin(s, id, password).notice == LoggedIn
    ensures DriverLogin(s, id, password).session.currentUser.value.busId == Some(Drivers[id].busId)
  {
  }
}
