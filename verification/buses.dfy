/** The bus dataset and what `updateBusList` (app.js:225-280) derives from
    it: each bus's effective status and display name, the rendered rows and
    the status tallies. */
module Buses {
  import opened Wrappers

  /** One bus as delivered by the backend. Coordinates are opaque: `None`
      stands for a missing or non-numeric value, on which `toFixed` throws. */
  datatype Bus = Bus(lat: Option<real>, lng: Option<real>, name: Option<string>, status: Option<string>)

  /** The JSON object keyed by bus id. */
  type BusData = map<string, Bus>

  const OnTime := "on-time"
  const Delayed := "delayed"
  const Arriving := "arriving"

  /** A bus whose coordinates can be formatted for its list row. */
  predicate Placed(b: Bus) {
    b.lat.Some? && b.lng.Some?
  }

  /** The status a bus without one of its own is shown with (app.js:242-247). */
  function DefaultStatus(id: string): string {
    if id == "1" then OnTime
    else if id == "2" then Delayed
    else if id == "3" then Arriving
    else OnTime
  }

  /** The status shown on a bus's row: its own when present, the id-based
      default otherwise (app.js:240-248). */
  function EffectiveStatus(id: string, b: Bus): (r: string)
    ensures r != ""
    ensures Truthy(b.status) ==> r == b.status.value
    ensures !Truthy(b.status) ==> r in {OnTime, Delayed, Arriving}
  {
    if Truthy(b.status) then b.status.value else DefaultStatus(id)
  }

  /** The row heading `bus.name || "Bus " + id` (app.js:260). */
  function DisplayName(id: string, b: Bus): (r: string)
    ensures r != ""
    ensures Truthy(b.name) ==> r == b.name.value
    ensures !Truthy(b.name) ==> |r| == 4 + |id| && r[..4] == "Bus " && r[4..] == id
  {
    if Truthy(b.name) then b.name.value else "Bus " + id
  }

  /** What one list row shows: its heading and its status badge. */
  datatype Row = Row(name: string, status: string)

  /** The row of bus `id`. */
  function RowOf(id: string, b: Bus): Row {
    Row(DisplayName(id, b), EffectiveStatus(id, b))
  }

  /** The three counters `onTimeCount`, `delayedCount`, `arrivingCount`. */
  datatype Tally = Tally(onTime: nat, delayed: nat, arriving: nat)

  /** The `switch (status)` that counts one bus (app.js:251-255): any other
      status is counted nowhere. */
  function Bump(t: Tally, status: string): Tally {
    if status == OnTime then t.(onTime := t.onTime + 1)
    else if status == Delayed then t.(delayed := t.delayed + 1)
    else if status == Arriving then t.(arriving := t.arriving + 1)
    else t
  }

  /** The rendered list and the counters written below it. */
  datatype ListView = ListView(rows: map<string, Row>, active: nat, total: nat, tally: Tally)

  datatype RenderError = CoordinateMissing(busId: string)

  /** The ids among `keys` whose effective status is `st`. */
  ghost function WithStatus(data: BusData, keys: set<string>, st: string): set<string> {
    set id | id in keys && id in data && EffectiveStatus(id, data[id]) == st
  }

  /** The number of buses of `data` whose effective status is `st`. */
  ghost function CountStatus(data: BusData, st: string): nat {
    |WithStatus(data, data.Keys, st)|
  }

  /** `t` holds, for each of the three known statuses, the number of buses
      among `keys` with that effective status. */
  ghost predicate Counts(t: Tally, data: BusData, keys: set<string>) {
    && t.onTime == |WithStatus(data, keys, OnTime)|
    && t.delayed == |WithStatus(data, keys, Delayed)|
    && t.arriving == |WithStatus(data, keys, Arriving)|
  }

  /** The list of `data`: one row per bus with its display name and
      effective status, active and total equal to the number of buses, and
      each tally the number of buses with that effective status. */
  ghost function Listing(data: BusData): ListView {
    ListView(map id | id in data :: RowOf(id, data[id]), |data|, |data|,
             Tally(CountStatus(data, OnTime), CountStatus(data, Delayed), CountStatus(data, Arriving)))
  }

  /** Adding one id to the keys scanned so far adds one to the tally of its
      status and nothing to the others. */
  lemma WithStatusAdd(data: BusData, done: set<string>, x: string, st: string)
    requires x in data && x !in done
    ensures |WithStatus(data, done + {x}, st)| ==
            |WithStatus(data, done, st)| + (if EffectiveStatus(x, data[x]) == st then 1 else 0)
  {
    if EffectiveStatus(x, data[x]) == st {
      assert WithStatus(data, done + {x}, st) == WithStatus(data, done, st) + {x};
    } else {
      assert WithStatus(data, done + {x}, st) == WithStatus(data, done, st);
    }
  }

  /** Counting one more bus keeps the tally exact. */
  lemma CountsAdd(t: Tally, data: BusData, done: set<string>, x: string)
    requires x in data && x !in done
    requires Counts(t, data, done)
    ensures Counts(Bump(t, EffectiveStatus(x, data[x])), data, done + {x})
  {
    WithStatusAdd(data, done, x, OnTime);
    WithStatusAdd(data, done, x, Delayed);
    WithStatusAdd(data, done, x, Arriving);
  }

  /** `rows` holds exactly the rows of the buses in `done`, all of which
      have coordinates, and `t` counts their statuses. */
  ghost predicate Scanned(data: BusData, done: set<string>, rows: map<string, Row>, t: Tally) {
    && done <= data.Keys
    && rows.Keys == done
    && (forall id :: id in done ==> Placed(data[id]) && rows[id] == RowOf(id, data[id]))
    && Counts(t, data, done)
  }

  /** Scanning one more placed bus extends the scanned part by its row and
      its count. */
  lemma ScannedAdd(data: BusData, done: set<string>, rows: map<string, Row>, t: Tally, x: string)
    requires Scanned(data, done, rows, t)
    requires x in data && x !in done && Placed(data[x])
    ensures Scanned(data, done + {x}, rows[x := RowOf(x, data[x])], Bump(t, EffectiveStatus(x, data[x])))
  {
    CountsAdd(t, data, done, x);
  }

  /** Once every bus is scanned, the rows and the tally are the list of the
      whole dataset. */
  lemma ScannedAll(data: BusData, rows: map<string, Row>, t: Tally)
    requires Scanned(data, data.Keys, rows, t)
    ensures ListView(rows, |data|, |data|, t) == Listing(data)
    ensures forall id :: id in data ==> Placed(data[id])
  {
    assert rows == Listing(data).rows;
  }

  /** The loop of `updateBusList` (app.js:233-274): visits the buses one at
      a time, building each row and counting its status, and stops at the
      first bus whose coordinates cannot be formatted. */
  method ScanBuses(data: BusData) returns (rows: map<string, Row>, tally: Tally, missing: Option<string>)
    ensures missing.None? ==> Scanned(data, data.Keys, rows, tally)
    ensures missing.Some? ==> missing.value in data && !Placed(data[missing.value])
  {
    var rest := data.Keys;
    ghost var done: set<string> := {};
    rows, tally, missing := map[], Tally(0, 0, 0), None;
    while rest != {}
      invariant rest <= data.Keys
      invariant done == data.Keys - rest
      invariant Scanned(data, done, rows, tally)
      decreases rest
    {
      var id :| id in rest;
      var b := data[id];
      if !Placed(b) {
        missing := Some(id);
        return;
      }
      ScannedAdd(data, done, rows, tally, id);
      tally := Bump(tally, EffectiveStatus(id, b));
      rows := rows[id := RowOf(id, b)];
      done := done + {id};
      rest := rest - {id};
    }
    assert done == data.Keys;
  }

  /** `updateBusList` (app.js:225-280): the list of every bus with the
      counters below it, or the bus whose missing coordinate made the
      rendering throw. */
  method RenderBusList(data: BusData) returns (r: Result<ListView, RenderError>)
    ensures r.Failure? <==> exists id :: id in data && !Placed(data[id])
    ensures r.Failure? ==> r.error.busId in data && !Placed(data[r.error.busId])
    ensures r.Success? ==> r.value == Listing(data)
  {
    var rows, tally, missing := ScanBuses(data);
    if missing.Some? {
      return Failure(CoordinateMissing(missing.value));
    }
    ScannedAll(data, rows, tally);
    return Success(ListView(rows, |data|, |data|, tally));
  }

  /** A subset is no larger than its superset. */
  lemma SubsetCard(a: set<string>, b: set<string>)
    requires a <= b
    ensures |a| <= |b|
    ensures |a| == |b| ==> a == b
  {
    assert b == a + (b - a);
    if |a| == |b| {
      assert |b - a| == 0;
    }
  }

  /** The three tallies never exceed the number of buses, and they add up to
      it exactly when every bus's effective status is one of the three known
      ones (app.js:229-255, 276-277). */
  lemma {:induction false} TalliesBounded(data: BusData)
    ensures CountStatus(data, OnTime) + CountStatus(data, Delayed) + CountStatus(data, Arriving) <= |data|
    ensures CountStatus(data, OnTime) + CountStatus(data, Delayed) + CountStatus(data, Arriving) == |data|
            <==> forall id :: id in data ==> EffectiveStatus(id, data[id]) in {OnTime, Delayed, Arriving}
  {
    var a := WithStatus(data, data.Keys, OnTime);
    var d := WithStatus(data, data.Keys, Delayed);
    var v := WithStatus(data, data.Keys, Arriving);
    assert a * d == {} && (a + d) * v == {};
    assert |a + d + v| == |a| + |d| + |v|;
    SubsetCard(a + d + v, data.Keys);
    if forall id :: id in data ==> EffectiveStatus(id, data[id]) in {OnTime, Delayed, Arriving} {
      assert a + d + v == data.Keys;
    } else {
      var x :| x in data && EffectiveStatus(x, data[x]) !in {OnTime, Delayed, Arriving};
      assert x !in a + d + v;
      assert a + d + v != data.Keys;
    }
  }

  /** The static dataset shown when the backend cannot be used (app.js:39-44),
      without its `lastUpdate` timestamps. */
  const Fallback: BusData := map[
    "1" := Bus(Some(12.9716), Some(77.5946), Some("Campus Shuttle A"), Some(OnTime)),
    "2" := Bus(Some(12.9352), Some(77.6245), Some("North Route"), Some(Delayed)),
    "3" := Bus(Some(12.9876), Some(77.5512), Some("South Route"), Some(Arriving)),
    "4" := Bus(Some(12.9563), Some(77.5768), Some("East Route"), Some(OnTime))
  ]

  /** The fallback dataset renders without throwing, and its list shows four
      buses: two on time, one delayed, one arriving. */
  lemma FallbackTallies()
    ensures forall id :: id in Fallback ==> Placed(Fallback[id])
    ensures |Fallback| == 4
    ensures CountStatus(Fallback, OnTime) == 2
    ensures CountStatus(Fallback, Delayed) == 1
    ensures CountStatus(Fallback, Arriving) == 1
  {
    assert Fallback.Keys == {"1", "2", "3", "4"};
    assert WithStatus(Fallback, Fallback.Keys, OnTime) == {"1", "4"};
    assert WithStatus(Fallback, Fallback.Keys, Delayed) == {"2"};
    assert WithStatus(Fallback, Fallback.Keys, Arriving) == {"3"};
  }

  /** A bus without a status of its own is shown with the id-based default:
      on time for "1", delayed for "2", arriving for "3" and on time for any
      other id (app.js:240-248). */
  lemma DefaultStatusById(id: string, b: Bus)
    requires !Truthy(b.status)
    ensures id == "1" ==> EffectiveStatus(id, b) == OnTime
    ensures id == "2" ==> EffectiveStatus(id, b) == Delayed
    ensures id == "3" ==> EffectiveStatus(id, b) == Arriving
    ensures id !in {"1", "2", "3"} ==> EffectiveStatus(id, b) == OnTime
  {
  }
}
