/** `loadBusData` (app.js:158-191): one request for the live dataset; any
    failure along the way, including one while rendering it or while
    placing its markers, makes the page show the static fallback dataset
    instead. */
module Loader {
  import opened Wrappers
  import opened Buses
  import opened Markers

  /** What `response.json()` made of the body: no JSON at all, the JSON
      literal `null`, or an object of buses keyed by id. */
  datatype Body = NotJson | JsonNull | JsonObject(entries: BusData)

  /** What the single `fetch` of `/buses` produced: no response at all, or a
      response with its HTTP status and its body. */
  datatype Response = NetworkFailure | Received(status: int, body: Body)

  /** `response.ok`: a status in the 2xx range. */
  predicate StatusOk(status: int) {
    200 <= status <= 299
  }

  /** The live dataset arrived and its list renders without throwing. A
      `null` body does not: its `for...in` loop runs zero times, and then
      `Object.keys(null)` throws. */
  predicate LiveRenders(resp: Response) {
    && resp.Received?
    && StatusOk(resp.status)
    && resp.body.JsonObject?
    && forall id :: id in resp.body.entries ==> Placed(resp.body.entries[id])
  }

  /** The live dataset renders and its marker loop does not throw either. */
  predicate LiveUsable(resp: Response, markers: MarkerMap) {
    && LiveRenders(resp)
    && forall id :: id in resp.body.entries ==> Upsertable(markers, id)
  }

  /** What the page shows after one load: the dataset used, its list, the
      marker map, and whether the fallback was used.
      - `liveMarkers` is the marker map when the live attempt ended, and
        `liveUpdated` the buses whose markers that attempt updated; a throw
        in the live marker loop leaves those markers on the map.
      - `fallbackUpdated` is the fallback buses whose markers were updated
        after that, and `escaped` the fallback bus whose update threw inside
        the `catch` block, so that the error left `loadBusData` and the toast
        was never shown. */
  datatype LoadResult = LoadResult(
    shown: BusData, view: ListView, markers: MarkerMap, usedFallback: bool,
    liveMarkers: MarkerMap, liveUpdated: set<string>,
    fallbackUpdated: set<string>, escaped: Option<string>)

  /** One call of `loadBusData`, given what the request produced, the
      static dataset to fall back on (the page always passes `Fallback`,
      app.js:39-44) and the markers already on the map. */
  method LoadBusData(resp: Response, fallback: BusData, markers: MarkerMap) returns (r: LoadResult)
    requires forall id :: id in fallback ==> Placed(fallback[id])
    ensures r.usedFallback <==> !LiveUsable(resp, markers)
    ensures if r.usedFallback then r.shown == fallback
            else resp.Received? && resp.body == JsonObject(r.shown)
    ensures if LiveRenders(resp) then UpsertedFrom(markers, r.liveMarkers, resp.body.entries, r.liveUpdated)
            else r.liveMarkers == markers && r.liveUpdated == {}
    ensures !r.usedFallback ==>
      r.markers == r.liveMarkers && r.liveUpdated == r.shown.Keys && r.fallbackUpdated == {} && r.escaped == None
    ensures r.usedFallback ==> UpsertedFrom(r.liveMarkers, r.markers, fallback, r.fallbackUpdated)
    ensures r.escaped.Some? ==>
      r.usedFallback && r.escaped.value in fallback && r.escaped.value !in r.fallbackUpdated
      && !Upsertable(r.liveMarkers, r.escaped.value)
    ensures r.usedFallback && r.escaped.None? ==> fallback.Keys <= r.fallbackUpdated
    ensures r.view == Listing(r.shown)
  {
    var liveMarkers := markers;
    var liveUpdated := {};
    if resp.Received? && StatusOk(resp.status) && resp.body.JsonObject? {
      var live := resp.body.entries;
      var rendered := RenderBusList(live);
      if rendered.Success? {
        var m, updated, failed := UpsertAll(markers, live);
        if failed.None? {
          return LoadResult(live, rendered.value, m, false, m, updated, {}, None);
        }
        liveMarkers, liveUpdated := m, updated;
      }
    }
    var rendered := RenderBusList(fallback);
    assert rendered.Success?;
    var m, updated, failed := UpsertAll(liveMarkers, fallback);
    return LoadResult(fallback, rendered.value, m, true, liveMarkers, liveUpdated, updated, failed);
  }

  /** Every bus of the page's fallback dataset has coordinates, and no id
      is an inherited name, so its markers can always be placed. */
  lemma FallbackLoadable()
    ensures forall id :: id in Fallback ==> Placed(Fallback[id]) && id !in InheritedNames
  {
    FallbackTallies();
    forall id | id in Fallback
      ensures id !in InheritedNames
    {
      assert |id| == 1;
      if id in InheritedNames {
        InheritedNamesLong(id);
      }
    }
  }

  /** `loadBusData` as the page calls it, with its own fallback dataset:
      no error ever leaves it, and when the fallback is used the page lists
      four buses, two on time, one delayed and one arriving. */
  method RefreshBusData(resp: Response, markers: MarkerMap) returns (r: LoadResult)
    ensures r.usedFallback <==> !LiveUsable(resp, markers)
    ensures !r.usedFallback ==> resp.Received? && resp.body == JsonObject(r.shown)
    ensures r.usedFallback ==> r.view.total == 4 && r.view.tally == Tally(2, 1, 1)
    ensures r.escaped == None
    ensures r.view == Listing(r.shown)
  {
    FallbackLoadable();
    FallbackTallies();
    r := LoadBusData(resp, Fallback, markers);
  }
}
