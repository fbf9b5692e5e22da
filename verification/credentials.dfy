/** The two constant credential tables the login handlers check against
    (app.js:24-36). */
module Credentials {

  /** One row of the driver table: the password, the bus the driver is
      assigned to, and the display name. */
  datatype DriverRecord = DriverRecord(password: string, busId: string, name: string)

  /** One row of the student table: the password and the display name. */
  datatype StudentRecord = StudentRecord(password: string, name: string)

  const Drivers: map<string, DriverRecord> := map[
    "driver1" := DriverRecord("pass1", "1", "John Smith"),
    "driver2" := DriverRecord("pass2", "2", "Maria Garcia"),
    "driver3" := DriverRecord("pass3", "3", "Robert Johnson"),
    "driver4" := DriverRecord("pass4", "4", "Sarah Wilson")
  ]

  const Students: map<string, StudentRecord> := map[
    "student1" := StudentRecord("pass1", "Alex Johnson"),
    "student2" := StudentRecord("pass2", "Emma Davis"),
    "student3" := StudentRecord("pass3", "Michael Brown")
  ]

  /** No two drivers share a bus: the driver table, read backwards, is a
      function from bus id to driver id. */
  lemma DriverBusesDistinct(a: string, b: string)
    requires a in Drivers && b in Drivers
    requires Drivers[a].busId == Drivers[b].busId
    ensures a == b
  {
  }

  /** Every bus id, password and name in both tables is non-empty, so none of
      them is falsy in the browser's sense. */
  lemma TableEntriesNonEmpty()
    ensures forall d :: d in Drivers ==>
      Drivers[d].busId != "" && Drivers[d].password != "" && Drivers[d].name != ""
    ensures forall u :: u in Students ==> Students[u].password != "" && Students[u].name != ""
  {
  }
}
