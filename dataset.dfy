/** The read-only shuttle dataset: facility code -> centre and shifts, shift ->
    routes, route -> ordered stops. JavaScript objects are modelled as
    sequences in their key enumeration order; a key lookup finds the first
    entry with that key, which is the only one when the keys are distinct
    (`UniqueKeys`), as they are in any object `JSON.parse` builds. */
module Dataset {
  import opened Wrappers
  import opened Geo
  import opened Seqs
  import opened Times

  datatype Stop = Stop(name: string, address: string, at: Coord, time: Time)
  datatype Route = Route(name: string, stops: seq<Stop>)
  datatype Shift = Shift(name: string, routes: seq<Route>)
  datatype Center = Center(name: string, address: string, at: Coord)
  /** One facility entry; `center` is absent when the dataset has none. */
  datatype Facility = Facility(code: string, center: Option<Center>, shifts: seq<Shift>)
  type Data = seq<Facility>

  /** A property read `obj[k]` on an object held as its entries: the first
      entry whose key is `k`, or `None` when no entry has that key. */
  function Lookup<T(==)>(s: seq<T>, key: T -> string, k: string): (r: Option<T>)
    ensures r.Some? <==> exists i :: 0 <= i < |s| && key(s[i]) == k
    ensures r.Some? ==> exists i ::
      0 <= i < |s| && s[i] == r.value && key(s[i]) == k && forall j :: 0 <= j < i ==> key(s[j]) != k
  {
    if s == [] then None
    else if key(s[0]) == k then Some(s[0])
    else
      var r := Lookup(s[1..], key, k);
      assert forall i :: 0 < i < |s| ==> s[i] == s[1..][i - 1];
      assert r.Some? ==> exists i ::
        0 <= i < |s| && s[i] == r.value && key(s[i]) == k && forall j :: 0 <= j < i ==> key(s[j]) != k
      by {
        if r.Some? {
          var i :| 0 <= i < |s[1..]| && s[1..][i] == r.value && key(s[1..][i]) == k &&
            forall j :: 0 <= j < i ==> key(s[1..][j]) != k;
          assert s[i + 1] == r.value && forall j :: 0 <= j < i + 1 ==> key(s[j]) != k;
        }
      }
      r
  }

  /** No two entries share a key: the shape of every object `JSON.parse`
      returns, since a repeated key there leaves a single property. */
  predicate UniqueKeys<T>(s: seq<T>, key: T -> string)
  {
    forall i, j :: 0 <= i < j < |s| ==> key(s[i]) != key(s[j])
  }

  /** With distinct keys, the lookup returns the one entry that has the key. */
  lemma LookupUnique<T>(s: seq<T>, key: T -> string, k: string, i: nat)
    requires UniqueKeys(s, key)
    requires i < |s| && key(s[i]) == k
    ensures Lookup(s, key, k) == Some(s[i])
  {
    var r := Lookup(s, key, k);
    var j :| 0 <= j < |s| && s[j] == r.value && key(s[j]) == k &&
      forall j' :: 0 <= j' < j ==> key(s[j']) != k;
    assert !(i < j);
    assert !(j < i);
  }

  function FacilityCode(fc: Facility): string { fc.code }
  function ShiftName(s: Shift): string { s.name }

  /** `shuttleData[code]`. */
  function FindFacility(data: Data, code: string): (r: Option<Facility>)
    ensures r.Some? <==> exists i :: 0 <= i < |data| && data[i].code == code
    ensures r.Some? ==> r.value in data && r.value.code == code
  {
    Lookup(data, FacilityCode, code)
  }

  /** `fc.shifts[name]`. */
  function FindShift(shifts: seq<Shift>, name: string): (r: Option<Shift>)
    ensures r.Some? <==> exists i :: 0 <= i < |shifts| && shifts[i].name == name
    ensures r.Some? ==> r.value in shifts && r.value.name == name
  {
    Lookup(shifts, ShiftName, name)
  }

  // ----- Aggregates shown in the all-centres popup -----

  datatype Summary = Summary(shifts: nat, routes: nat, stops: nat)

  function RoutesOf(s: Shift): seq<Route> { s.routes }
  function StopsOf(r: Route): seq<Stop> { r.stops }

  /** `Object.values(fc.shifts).flatMap(s => Object.values(s))`. */
  function AllRoutes(shifts: seq<Shift>): seq<Route>
  {
    FlatMap(shifts, RoutesOf)
  }

  /** `... .flat()`: every stop of every route, in order. */
  function AllStops(shifts: seq<Shift>): seq<Stop>
  {
    FlatMap(AllRoutes(shifts), StopsOf)
  }

  /** `Object.values(fc.shifts).reduce((s, v) => s + Object.keys(v).length, 0)`. */
  function RouteCount(shifts: seq<Shift>): nat
    decreases |shifts|
  {
    if shifts == [] then 0
    else RouteCount(shifts[..|shifts| - 1]) + |shifts[|shifts| - 1].routes|
  }

  /** The popup summary of one facility. */
  function Summarize(fc: Facility): Summary
  {
    Summary(|fc.shifts|, RouteCount(fc.shifts), |AllStops(fc.shifts)|)
  }

  /** The reduce over route-map sizes counts exactly the routes the flatMap
      lists. */
  lemma {:induction false} RouteCountIsAllRoutes(shifts: seq<Shift>)
    ensures RouteCount(shifts) == |AllRoutes(shifts)|
    decreases |shifts|
  {
    if shifts != [] {
      var init := shifts[..|shifts| - 1];
      assert shifts == init + [shifts[|shifts| - 1]];
      FlatMapSnoc(init, shifts[|shifts| - 1], RoutesOf);
      RouteCountIsAllRoutes(init);
    }
  }

  /** A centre pin of the all-centres view: where it stands and what its
      popup counts. */
  datatype Site = Site(at: Coord, summary: Summary)

  /** The pins of the all-centres view, in dataset order: one per facility
      that has a centre. */
  function Sites(data: Data): seq<Site>
    decreases |data|
  {
    if data == [] then []
    else
      var fc := data[|data| - 1];
      Sites(data[..|data| - 1]) + (if fc.center.Some? then [Site(fc.center.value.at, Summarize(fc))] else [])
  }

  function SiteCoords(sites: seq<Site>): seq<Coord>
  {
    seq(|sites|, i requires 0 <= i < |sites| => sites[i].at)
  }

  /** Every pin is the pin of a facility that has a centre, at that
      centre, carrying that facility's summary; there are at most as many
      pins as facilities. */
  lemma {:induction false} SitesSound(data: Data)
    ensures |Sites(data)| <= |data|
    ensures forall s :: s in Sites(data) ==>
      exists i :: 0 <= i < |data| && data[i].center.Some? && s == Site(data[i].center.value.at, Summarize(data[i]))
    decreases |data|
  {
    if data != [] {
      var n := |data| - 1;
      var init := data[..n];
      SitesSound(init);
      forall s | s in Sites(init)
        ensures exists i :: 0 <= i < |data| && data[i].center.Some? && s == Site(data[i].center.value.at, Summarize(data[i]))
      {
        var i :| 0 <= i < |init| && init[i].center.Some? && s == Site(init[i].center.value.at, Summarize(init[i]));
        assert data[i] == init[i];
      }
    }
  }

  /** Every facility that has a centre gets its pin. */
  lemma {:induction false} SitesComplete(data: Data)
    ensures forall i :: 0 <= i < |data| && data[i].center.Some? ==>
      Site(data[i].center.value.at, Summarize(data[i])) in Sites(data)
    decreases |data|
  {
    if data != [] {
      var n := |data| - 1;
      var init := data[..n];
      SitesComplete(init);
      forall i | 0 <= i < n && data[i].center.Some?
        ensures Site(data[i].center.value.at, Summarize(data[i])) in Sites(data)
      {
        assert data[i] == init[i];
      }
    }
  }

  /** The popup summary counts every shift, every route (the route count is
      the length of the flattened route list) and every stop. */
  lemma SummaryCounts(fc: Facility)
    ensures Summarize(fc) == Summary(|fc.shifts|, |AllRoutes(fc.shifts)|, |AllStops(fc.shifts)|)
  {
    RouteCountIsAllRoutes(fc.shifts);
  }

  // ----- The multi-route plan: which routes a pass draws, in order -----

  /** One route as drawn by the multi-route renderer, with its shift's name. */
  datatype Planned = Planned(shift: string, route: Route)

  function PlanShift(s: Shift): seq<Planned>
  {
    seq(|s.routes|, k requires 0 <= k < |s.routes| => Planned(s.name, s.routes[k]))
  }

  /** Every route of every shift, shift order first, then route order. */
  function Plan(shifts: seq<Shift>): seq<Planned>
  {
    FlatMap(shifts, PlanShift)
  }

  /** The plan draws exactly the routes of the shifts, in the order
      `Object.values(...).flatMap` lists them. */
  lemma {:induction false} PlanListsAllRoutes(shifts: seq<Shift>)
    ensures |Plan(shifts)| == |AllRoutes(shifts)|
    ensures forall k :: 0 <= k < |Plan(shifts)| ==> Plan(shifts)[k].route == AllRoutes(shifts)[k]
    decreases |shifts|
  {
    if shifts != [] {
      var init := shifts[..|shifts| - 1];
      var last := shifts[|shifts| - 1];
      assert shifts == init + [last];
      FlatMapSnoc(init, last, PlanShift);
      FlatMapSnoc(init, last, RoutesOf);
      PlanListsAllRoutes(init);
    }
  }

  /** The shifts a multi-route pass covers: all of them, or only the named
      one (`{ [shiftFilter]: fc.shifts[shiftFilter] }`). A filter that is
      absent or the empty string selects all shifts, as a falsy value does;
      `None` is a filter naming a shift the facility does not have. */
  function Scope(fc: Facility, filter: Option<string>): (r: Option<seq<Shift>>)
    ensures (filter.None? || filter.value == []) ==> r == Some(fc.shifts)
    ensures filter.Some? && filter.value != [] ==>
      (r.Some? <==> exists i :: 0 <= i < |fc.shifts| && fc.shifts[i].name == filter.value)
    ensures filter.Some? && filter.value != [] && r.Some? ==>
      |r.value| == 1 && r.value[0].name == filter.value && r.value[0] in fc.shifts
  {
    if filter.None? || filter.value == [] then Some(fc.shifts)
    else
      match FindShift(fc.shifts, filter.value)
      case None => None
      case Some(s) => Some([Shift(filter.value, s.routes)])
  }

  /** Sum of the stop counts of the planned routes (`totalStops +=
      stops.length`). */
  function TotalStops(plan: seq<Planned>): nat
    decreases |plan|
  {
    if plan == [] then 0
    else TotalStops(plan[..|plan| - 1]) + |plan[|plan| - 1].route.stops|
  }

  function TimesOf(stops: seq<Stop>): seq<Time>
  {
    seq(|stops|, i requires 0 <= i < |stops| => stops[i].time)
  }

  function PlannedTimes(p: Planned): seq<Time>
  {
    NonEmpty(TimesOf(p.route.stops))
  }

  /** The pooled, unsorted list `allTimes`: the non-empty stop times of every
      planned route, route by route. */
  function PooledTimes(plan: seq<Planned>): seq<Time>
  {
    FlatMap(plan, PlannedTimes)
  }

  /** The pooled stop count of a multi-route pass over every shift equals the
      stop total of the facility's popup summary. */
  lemma {:induction false} TotalStopsIsAllStops(shifts: seq<Shift>)
    ensures TotalStops(Plan(shifts)) == |AllStops(shifts)|
  {
    PlanListsAllRoutes(shifts);
    SumMatchesFlat(Plan(shifts), AllRoutes(shifts));
  }

  lemma {:induction false} SumMatchesFlat(plan: seq<Planned>, routes: seq<Route>)
    requires |plan| == |routes|
    requires forall k :: 0 <= k < |plan| ==> plan[k].route == routes[k]
    ensures TotalStops(plan) == |FlatMap(routes, StopsOf)|
    decreases |plan|
  {
    if plan != [] {
      var n := |plan| - 1;
      assert routes == routes[..n] + [routes[n]];
      FlatMapSnoc(routes[..n], routes[n], StopsOf);
      SumMatchesFlat(plan[..n], routes[..n]);
    }
  }

  /** Some stop of some planned route is scheduled at `t`. */
  ghost predicate Scheduled(plan: seq<Planned>, t: Time)
  {
    exists k, i :: 0 <= k < |plan| && 0 <= i < |plan[k].route.stops| && plan[k].route.stops[i].time == t
  }

  /** Every pooled time is a non-empty time of some stop of a planned
      route, and every such time is pooled. */
  lemma {:induction false} PooledTimesAreStopTimes(plan: seq<Planned>, t: Time)
    ensures t in PooledTimes(plan) <==> t != [] && Scheduled(plan, t)
    decreases |plan|
  {
    if plan != [] {
      var n := |plan| - 1;
      assert plan == plan[..n] + [plan[n]];
      FlatMapSnoc(plan[..n], plan[n], PlannedTimes);
      PooledTimesAreStopTimes(plan[..n], t);
      var stops := plan[n].route.stops;
      assert t in TimesOf(stops) <==> exists i :: 0 <= i < |stops| && stops[i].time == t by {
        if t in TimesOf(stops) {
          var i :| 0 <= i < |stops| && TimesOf(stops)[i] == t;
        }
        if exists i :: 0 <= i < |stops| && stops[i].time == t {
          var i :| 0 <= i < |stops| && stops[i].time == t;
          assert TimesOf(stops)[i] == t;
        }
      }
      if t != [] && Scheduled(plan, t) {
        var k, i :| 0 <= k < |plan| && 0 <= i < |plan[k].route.stops| &&
          plan[k].route.stops[i].time == t;
        if k < n {
          assert plan[..n][k] == plan[k];
        }
      }
    }
  }
}
