/** The map markers of `updateBusMarker` (app.js:194-222), reduced to what
    the map library keeps for each bus: position, the point a click centres
    on, the colour of the icon and the status in the popup. */
module Markers {
  import opened Wrappers
  import opened Buses

  /** A coordinate pair, never computed with. */
  datatype LatLng = LatLng(lat: real, lng: real)

  datatype Marker = Marker(position: LatLng, clickCenter: LatLng, color: string, popupStatus: Option<string>)

  /** The `markers` object, keyed by bus id. */
  type MarkerMap = map<string, Marker>

  const Green := "#10b981"
  const Red := "#ef4444"
  const Amber := "#f59e0b"
  const Blue := "#2563eb"

  /** The icon colour for the status passed in (app.js:195-201): one colour
      per known status, blue for anything else, including a missing one. */
  function MarkerColor(status: Option<string>): (r: string)
    ensures r in {Green, Red, Amber, Blue}
    ensures status == Some(OnTime) ==> r == Green
    ensures status == Some(Delayed) ==> r == Red
    ensures status == Some(Arriving) ==> r == Amber
    ensures r == Blue <==> status !in {Some(OnTime), Some(Delayed), Some(Arriving)}
  {
    match status
    case Some(s) =>
      if s == OnTime then Green
      else if s == Delayed then Red
      else if s == Arriving then Amber
      else Blue
    case None => Blue
  }

  /** Different known statuses get different colours, so the colour of a
      marker tells its status apart from the other two. */
  lemma MarkerColorDistinguishes(a: string, b: string)
    requires a in {OnTime, Delayed, Arriving} && b in {OnTime, Delayed, Arriving}
    requires MarkerColor(Some(a)) == MarkerColor(Some(b))
    ensures a == b
  {
  }

  /** The names every plain JavaScript object answers to through
      `Object.prototype`. `markers[busId]` is truthy for these even when no
      marker was ever stored under them. */
  const InheritedNames: set<string> := {
    "constructor", "__proto__", "toString", "toLocaleString", "valueOf",
    "hasOwnProperty", "isPrototypeOf", "propertyIsEnumerable",
    "__defineGetter__", "__defineSetter__", "__lookupGetter__", "__lookupSetter__"
  }

  /** No inherited name is a one-character id. */
  lemma InheritedNamesLong(id: string)
    requires id in InheritedNames
    ensures |id| > 1
  {
  }

  /** `markers[busId].setLatLng` was called on an inherited member that is
      no marker: the call throws. */
  datatype MarkerError = NotAMarker(busId: string)

  /** `updateBusMarker` (app.js:210-221): an existing marker only moves; a
      new one is created with the colour, popup and click target of this
      call. An inherited name with no marker of its own takes the "existing"
      branch and throws. */
  function UpsertMarker(markers: MarkerMap, id: string, pos: LatLng, status: Option<string>): (r: Result<MarkerMap, MarkerError>)
    ensures r.Failure? <==> id !in markers && id in InheritedNames
    ensures r.Failure? ==> r.error == NotAMarker(id)
    ensures r.Success? ==>
      var m := r.value;
      && m.Keys == markers.Keys + {id}
      && (forall k :: k in markers && k != id ==> m[k] == markers[k])
      && m[id].position == pos
      && (id in markers ==>
            m[id].color == markers[id].color && m[id].clickCenter == markers[id].clickCenter
            && m[id].popupStatus == markers[id].popupStatus)
      && (id !in markers ==>
            m[id].color == MarkerColor(status) && m[id].clickCenter == pos && m[id].popupStatus == status)
  {
    if Upsertable(markers, id) then
      Success(markers[id := Moved(markers, id, pos, status)])
    else
      Failure(NotAMarker(id))
  }

  /** The marker `id` has after a successful update: the existing one moved,
      or a new one. */
  function Moved(markers: MarkerMap, id: string, pos: LatLng, status: Option<string>): Marker {
    if id in markers then markers[id].(position := pos)
    else Marker(pos, pos, MarkerColor(status), status)
  }

  /** A second update after the first one, skipped when the first threw
      (the rest of the loop body does not run). */
  function Then(r: Result<MarkerMap, MarkerError>, id: string, pos: LatLng, status: Option<string>): Result<MarkerMap, MarkerError> {
    if r.Failure? then r else UpsertMarker(r.value, id, pos, status)
  }

  /** Repeating an update changes nothing: it throws again or leaves the
      markers as the first one left them. */
  lemma UpsertIdempotent(markers: MarkerMap, id: string, pos: LatLng, status: Option<string>)
    ensures var r := UpsertMarker(markers, id, pos, status);
      Then(r, id, pos, status) == r
  {
    var r := UpsertMarker(markers, id, pos, status);
    if r.Success? {
      var m := r.value;
      assert m[id := m[id].(position := pos)] == m;
    }
  }

  /** A marker's colour, popup and click target are fixed by the first update
      for its id: a later update with another status only moves it. */
  lemma FirstStatusSticks(markers: MarkerMap, id: string, p1: LatLng, s1: Option<string>, p2: LatLng, s2: Option<string>)
    requires id !in markers
    ensures var r := Then(UpsertMarker(markers, id, p1, s1), id, p2, s2);
      && (r.Success? <==> id !in InheritedNames)
      && (r.Success? ==> r.value[id] == Marker(p2, p1, MarkerColor(s1), s1))
  {
  }

  /** Updates for different ids do not interfere: they commute, both in
      whether they throw and in the markers they leave. */
  lemma UpsertsCommute(markers: MarkerMap, a: string, pa: LatLng, sa: Option<string>,
                       b: string, pb: LatLng, sb: Option<string>)
    requires a != b
    ensures var ab := Then(UpsertMarker(markers, a, pa, sa), b, pb, sb);
            var ba := Then(UpsertMarker(markers, b, pb, sb), a, pa, sa);
      && (ab.Success? <==> ba.Success?)
      && (ab.Success? ==> ab.value == ba.value)
  {
    if Upsertable(markers, a) && Upsertable(markers, b) {
      var ta, tb := Moved(markers, a, pa, sa), Moved(markers, b, pb, sb);
      assert Moved(markers[a := ta], b, pb, sb) == tb;
      assert Moved(markers[b := tb], a, pa, sa) == ta;
      assert markers[a := ta][b := tb] == markers[b := tb][a := ta];
    }
  }

  /** Where the marker of a placed bus goes. */
  function PositionOf(b: Bus): LatLng
    requires Placed(b)
  {
    LatLng(b.lat.value, b.lng.value)
  }

  /** `after` is `before` with every bus of `data` among `done` upserted:
      those markers sit at their bus's position, new ones carry the bus's
      own status, existing ones keep their look, and every other marker is
      untouched. */
  ghost predicate UpsertedFrom(before: MarkerMap, after: MarkerMap, data: BusData, done: set<string>) {
    && done <= data.Keys
    && after.Keys == before.Keys + done
    && (forall k :: k in before && k !in done ==> after[k] == before[k])
    && (forall k :: k in done ==> Placed(data[k]) && Upsertable(before, k))
    && (forall k :: k in done && k in before ==>
          Placed(data[k]) && after[k] == before[k].(position := PositionOf(data[k])))
    && (forall k :: k in done && k !in before ==>
          Placed(data[k]) &&
          after[k] == Marker(PositionOf(data[k]), PositionOf(data[k]), MarkerColor(data[k].status), data[k].status))
  }

  /** One more successful update extends `UpsertedFrom` by its id. */
  lemma UpsertedFromAdd(before: MarkerMap, m: MarkerMap, data: BusData, done: set<string>, id: string)
    requires UpsertedFrom(before, m, data, done)
    requires id in data && id !in done && Placed(data[id])
    requires UpsertMarker(m, id, PositionOf(data[id]), data[id].status).Success?
    ensures UpsertedFrom(before, UpsertMarker(m, id, PositionOf(data[id]), data[id].status).value, data, done + {id})
  {
  }

  /** Whether an update of `id` goes through: the id has a marker, or is not
      one of the inherited names. */
  predicate Upsertable(markers: MarkerMap, id: string) {
    id in markers || id !in InheritedNames
  }

  /** The marker loops of `loadBusData` (app.js:173-176, 184-187): one
      `updateBusMarker` per bus, with the bus's own (not its effective)
      status. The loop throws iff some bus id is an inherited name without
      a marker; the buses updated before it keep their new markers. */
  method UpsertAll(markers: MarkerMap, data: BusData) returns (m: MarkerMap, updated: set<string>, failed: Option<string>)
    requires forall id :: id in data ==> Placed(data[id])
    ensures UpsertedFrom(markers, m, data, updated)
    ensures failed.None? <==> forall id :: id in data ==> Upsertable(markers, id)
    ensures failed.None? ==> updated == data.Keys
    ensures failed.Some? ==> failed.value in data && failed.value !in updated && !Upsertable(markers, failed.value)
  {
    var rest := data.Keys;
    updated := {};
    m := markers;
    while rest != {}
      invariant rest <= data.Keys
      invariant updated == data.Keys - rest
      invariant UpsertedFrom(markers, m, data, updated)
      decreases rest
    {
      var id :| id in rest;
      var r := UpsertMarker(m, id, PositionOf(data[id]), data[id].status);
      if r.Failure? {
        return m, updated, Some(id);
      }
      UpsertedFromAdd(markers, m, data, updated, id);
      m := r.value;
      updated := updated + {id};
      rest := rest - {id};
    }
    failed := None;
  }

  /** Whenever a bus carries its own status, its marker colour agrees with
      the badge on its list row. */
  lemma ColorMatchesBadge(id: string, b: Bus)
    requires Truthy(b.status)
    ensures MarkerColor(b.status) == MarkerColor(Some(EffectiveStatus(id, b)))
  {
  }

  /** Without a status of its own the two disagree: bus "2" is listed as
      delayed, but its marker is created blue rather than red, because the
      marker is coloured from the raw status and the id-based default is only
      applied to the list. */
  lemma ColorIgnoresDefaultStatus(b: Bus)
    requires b.status == None
    ensures EffectiveStatus("2", b) == Delayed
    ensures MarkerColor(b.status) == Blue
    ensures MarkerColor(Some(EffectiveStatus("2", b))) == Red
  {
  }
}
