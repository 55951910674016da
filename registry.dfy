/** The page's module-level state as one value — the map's layers by handle,
    the handle allocator, the tracked handle lists, the route registry and
    the highlighted index — with the invariant every page operation keeps
    and the value-level steps those operations take. */
module PageState {
  import opened Wrappers
  import opened Seqs
  import opened Geo
  import opened Times
  import opened Dataset
  import opened Highlight
  import opened Render

  /** `map` (as its layer set), the next free handle, `currentMarkers`,
      `currentPolylines`, `centerMarkers`, `routeLayerGroups` and
      `activeRouteIndex`. */
  datatype Registry = Registry(
    layers: map<int, Layer>, nextId: int,
    markers: seq<int>, polylines: seq<int>, centers: seq<int>,
    groups: seq<RouteGroup>, active: int)

  /** The numbered-marker handles of the highlighted group, if any. */
  ghost function ActiveNumbered(r: Registry): set<int>
  {
    if 0 <= r.active < |r.groups| then Elems(r.groups[r.active].numberedMarkers) else {}
  }

  /** Every route-level handle: what `clearRoute` removes. */
  ghost function RouteIds(r: Registry): set<int>
  {
    Elems(r.markers) + Elems(r.polylines) + ActiveNumbered(r)
  }

  /** The highlight state of the registry. */
  function Looks(r: Registry): Look
  {
    LookOf(r.layers, r.groups, r.active)
  }

  /** A registry entry is on the map as the multi-route renderer drew it:
      its dashed path through its stops in its colour, one dot per stop, and
      one numbered marker per stop, labelled with the stop's 1-based
      position, for as many numbered markers as it holds. */
  ghost predicate GroupDrawn(layers: map<int, Layer>, cm: seq<int>, cp: seq<int>, g: RouteGroup)
  {
    && g.polyline in cp
    && g.polyline in layers
    && layers[g.polyline].Path?
    && layers[g.polyline].points == CoordsOf(g.stops)
    && layers[g.polyline].color == g.color
    && layers[g.polyline].dash == MultiDash
    && |g.dotMarkers| == |g.stops|
    && (forall m :: 0 <= m < |g.dotMarkers| ==> g.dotMarkers[m] in cm)
    && (forall m :: 0 <= m < |g.dotMarkers| ==>
          g.dotMarkers[m] in layers && layers[g.dotMarkers[m]] == Marker(g.stops[m].at, StopDot(g.color)))
    && |g.numberedMarkers| <= |g.stops|
    && (forall m :: 0 <= m < |g.numberedMarkers| ==>
          g.numberedMarkers[m] in layers &&
          layers[g.numberedMarkers[m]] == Marker(g.stops[m].at, StopNumber(m + 1, Some(g.color))))
  }

  /** The page invariant: handles are allocated below `nextId`; the map
      holds exactly the tracked handles (nothing leaks), with the route
      collections and the centre markers disjoint; every registry entry is
      drawn as its route says; paths are not shared; and the highlight state
      is one of the states the toggle produces, so only the highlighted
      group holds numbered markers. */
  ghost predicate Inv(r: Registry)
  {
    && 0 <= r.nextId
    && (forall id :: id in r.layers ==> 0 <= id < r.nextId)
    && r.layers.Keys == RouteIds(r) + Elems(r.centers)
    && Elems(r.markers) !! Elems(r.polylines)
    && ActiveNumbered(r) !! Elems(r.markers) + Elems(r.polylines)
    && RouteIds(r) !! Elems(r.centers)
    && (forall j :: 0 <= j < |r.groups| ==> GroupDrawn(r.layers, r.markers, r.polylines, r.groups[j]))
    && (forall j, k :: 0 <= j < k < |r.groups| ==> r.groups[j].polyline != r.groups[k].polyline)
    && Consistent(Looks(r))
  }

  /** Under the invariant only the highlighted group holds numbered markers. */
  lemma OnlyActiveNumbered(r: Registry, j: int)
    requires Inv(r) && 0 <= j < |r.groups| && j != r.active
    ensures r.groups[j].numberedMarkers == []
  {
    assert Expected(Looks(r).groups[j], j, r.active);
  }

  /** `n` consecutive handles from `base`. */
  function Range(base: int, n: nat): (ids: seq<int>)
    ensures |ids| == n && forall k :: 0 <= k < n ==> ids[k] == base + k
  {
    seq(n, k requires 0 <= k < n => base + k)
  }

  lemma RangeElems(base: int, n: nat)
    ensures forall id :: id in Range(base, n) <==> base <= id < base + n
  {
    forall id | base <= id < base + n
      ensures id in Range(base, n)
    {
      assert Range(base, n)[id - base] == id;
    }
  }

  /** One more fresh handle after the ones `Range(base, n)` lists. */
  lemma RangeSnoc(prefix: seq<int>, base: int, n: nat)
    ensures prefix + Range(base, n) + [base + n] == prefix + Range(base, n + 1)
  {
    assert Range(base, n) + [base + n] == Range(base, n + 1);
  }

  // ----- Clearing and the centre markers -----

  /** The registry after `clearRoute()`: every route-level layer removed,
      nothing route-level tracked, nothing highlighted. */
  ghost function ClearedReg(r: Registry): Registry
  {
    Registry(r.layers - RouteIds(r), r.nextId, [], [], r.centers, [], -1)
  }

  /** Clearing keeps the invariant and leaves exactly the centre markers
      on the map; clearing again changes nothing. */
  lemma ClearedFacts(r: Registry)
    requires Inv(r)
    ensures Inv(ClearedReg(r))
    ensures ClearedReg(r).layers.Keys == Elems(r.centers)
    ensures ClearedReg(ClearedReg(r)) == ClearedReg(r)
  {
    var c := ClearedReg(r);
    assert c.layers.Keys == Elems(r.centers);
    ClearedInv(c.layers, c.nextId, c.centers);
    assert RouteIds(c) == {};
    assert c.layers - {} == c.layers;
  }

  /** With no route-level state the invariant asks only that the map hold
      exactly the centre markers, all allocated. */
  lemma ClearedInv(layers: map<int, Layer>, nextId: int, centers: seq<int>)
    requires 0 <= nextId && forall id :: id in layers ==> 0 <= id < nextId
    requires layers.Keys == Elems(centers)
    ensures Inv(Registry(layers, nextId, [], [], centers, [], -1))
  {
    assert Looks(Registry(layers, nextId, [], [], centers, [], -1)) == Look(-1, []);
  }

  /** The route-level drawing and the highlight state survive any change of
      the map that keeps every route-level layer, and any growth of the
      tracked route collections. */
  lemma RouteLayersKept(r: Registry, layers: map<int, Layer>, cm: seq<int>, cp: seq<int>)
    requires Inv(r)
    requires forall id :: id in RouteIds(r) ==> id in layers && layers[id] == r.layers[id]
    requires Elems(r.markers) <= Elems(cm) && Elems(r.polylines) <= Elems(cp)
    ensures forall j :: 0 <= j < |r.groups| ==> GroupDrawn(layers, cm, cp, r.groups[j])
    ensures LookOf(layers, r.groups, r.active) == Looks(r)
  {
    forall j | 0 <= j < |r.groups|
      ensures GroupDrawn(layers, cm, cp, r.groups[j])
      ensures GroupLookOf(layers, r.groups[j]) == GroupLookOf(r.layers, r.groups[j])
    {
      var g := r.groups[j];
      assert GroupDrawn(r.layers, r.markers, r.polylines, g);
      if j != r.active {
        OnlyActiveNumbered(r, j);
      }
      forall m | 0 <= m < |g.dotMarkers|
        ensures g.dotMarkers[m] in cm
        ensures g.dotMarkers[m] in layers && layers[g.dotMarkers[m]] == r.layers[g.dotMarkers[m]]
      {
        var x := g.dotMarkers[m];
        assert x in Elems(r.markers);
        assert x in Elems(cm);
        assert x in RouteIds(r);
      }
      forall m | 0 <= m < |g.numberedMarkers|
        ensures g.numberedMarkers[m] in layers
        ensures layers[g.numberedMarkers[m]] == r.layers[g.numberedMarkers[m]]
      {
        var x := g.numberedMarkers[m];
        assert x in ActiveNumbered(r);
        assert x in RouteIds(r);
      }
      assert g.polyline in Elems(r.polylines);
    }
  }

  /** Removing the centre markers keeps the invariant. */
  lemma DropCenters(r: Registry)
    requires Inv(r)
    ensures Inv(r.(layers := r.layers - Elems(r.centers), centers := []))
    ensures Looks(r.(layers := r.layers - Elems(r.centers), centers := [])) == Looks(r)
  {
    RouteLayersKept(r, r.layers - Elems(r.centers), r.markers, r.polylines);
  }

  /** Adding a new centre marker keeps the invariant. */
  lemma AddCenter(r: Registry, l: Layer)
    requires Inv(r)
    ensures Inv(r.(layers := r.layers[r.nextId := l], nextId := r.nextId + 1, centers := r.centers + [r.nextId]))
    ensures Looks(r.(layers := r.layers[r.nextId := l], nextId := r.nextId + 1, centers := r.centers + [r.nextId])) == Looks(r)
  {
    ElemsAppend(r.centers, [r.nextId]);
    RouteLayersKept(r, r.layers[r.nextId := l], r.markers, r.polylines);
  }

  /** `addCenterMarker`: replacing the centre markers by one new marker
      keeps the invariant and the highlight state. */
  lemma ReplaceCenters(r: Registry, l: Layer)
    requires Inv(r)
    ensures var r' := r.(layers := (r.layers - Elems(r.centers))[r.nextId := l], nextId := r.nextId + 1, centers := [r.nextId]);
      Inv(r') && Looks(r') == Looks(r)
  {
    var dropped := r.(layers := r.layers - Elems(r.centers), centers := []);
    DropCenters(r);
    AddCenter(dropped, l);
    assert [] + [r.nextId] == [r.nextId];
  }

  /** A map holding only new layers, all tracked as centre markers, is a
      page in the invariant, with those layers where they were placed. */
  lemma PinsPlaced(ls: seq<Layer>, base: int)
    requires 0 <= base
    ensures Inv(Registry(Placed(map[], ls, base), base + |ls|, [], [], Range(base, |ls|), [], -1))
    ensures forall k :: 0 <= k < |ls| ==> base + k in Placed(map[], ls, base) && Placed(map[], ls, base)[base + k] == ls[k]
  {
    PlacedSpec(map[], ls, base);
    RangeElems(base, |ls|);
    ClearedInv(Placed(map[], ls, base), base + |ls|, Range(base, |ls|));
  }

  // ----- Drawing route-level layers -----

  /** The registry with the layers `ls` on fresh handles, tracking `cm`
      with the markers and `cp` with the polylines. */
  function Added(r: Registry, ls: seq<Layer>, cm: seq<int>, cp: seq<int>): Registry
  {
    r.(layers := Placed(r.layers, ls, r.nextId), nextId := r.nextId + |ls|,
       markers := r.markers + cm, polylines := r.polylines + cp)
  }

  /** Adding new layers on fresh handles, each tracked as a route-level
      marker or path, keeps the invariant and the highlight state. */
  lemma AddRouteLayers(r: Registry, ls: seq<Layer>, cm: seq<int>, cp: seq<int>)
    requires Inv(r)
    requires Elems(cm) + Elems(cp) == Elems(Range(r.nextId, |ls|)) && Elems(cm) !! Elems(cp)
    ensures Inv(Added(r, ls, cm, cp)) && Looks(Added(r, ls, cm, cp)) == Looks(r)
  {
    var added := Placed(map[], ls, r.nextId);
    PlacedAlone(ls, r.nextId);
    PlacedUnion(r.layers, ls, r.nextId);
    AddedLayers(r, Placed(r.layers, ls, r.nextId), added, cm, cp, r.nextId + |ls|);
  }

  /** Layers placed on an empty map occupy exactly the handle range. */
  lemma PlacedAlone(ls: seq<Layer>, base: int)
    ensures Placed(map[], ls, base).Keys == Elems(Range(base, |ls|))
    ensures forall id :: id in Placed(map[], ls, base) ==> base <= id < base + |ls|
  {
    PlacedSpec(map[], ls, base);
    RangeElems(base, |ls|);
  }

  /** `Placed` on a map is the union with the placed layers alone. */
  lemma {:induction false} PlacedUnion(layers: map<int, Layer>, ls: seq<Layer>, base: int)
    ensures Placed(layers, ls, base) == layers + Placed(map[], ls, base)
    decreases |ls|
  {
    if ls != [] {
      PlacedUnion(layers, ls[..|ls| - 1], base);
    }
  }

  lemma AddedLayers(r: Registry, layers: map<int, Layer>, added: map<int, Layer>, cm: seq<int>, cp: seq<int>, nextId: int)
    requires Inv(r) && r.nextId <= nextId && layers == r.layers + added
    requires forall id :: id in added ==> r.nextId <= id < nextId
    requires added.Keys == Elems(cm) + Elems(cp) && Elems(cm) !! Elems(cp)
    ensures Inv(r.(layers := layers, nextId := nextId, markers := r.markers + cm, polylines := r.polylines + cp))
    ensures Looks(r.(layers := layers, nextId := nextId, markers := r.markers + cm, polylines := r.polylines + cp)) == Looks(r)
  {
    var r' := r.(layers := layers, nextId := nextId, markers := r.markers + cm, polylines := r.polylines + cp);
    ElemsAppend(r.markers, cm);
    ElemsAppend(r.polylines, cp);
    RouteLayersKept(r, r'.layers, r'.markers, r'.polylines);
    assert ActiveNumbered(r') == ActiveNumbered(r);
  }

  /** Registering a drawn route while nothing is highlighted keeps the
      invariant, provided its path is its own and shows the baseline style
      and its dots are shown in full. */
  lemma AddGroup(r: Registry, g: RouteGroup)
    requires Inv(r) && r.active == -1
    requires GroupDrawn(r.layers, r.markers, r.polylines, g)
    requires forall j :: 0 <= j < |r.groups| ==> r.groups[j].polyline != g.polyline
    requires g.numberedMarkers == [] && g.dotOpacity == FullOpacity && !g.active && !g.expanded
    requires StyleOf(r.layers, g.polyline) == Baseline
    ensures Inv(r.(groups := r.groups + [g]))
  {
    var r' := r.(groups := r.groups + [g]);
    assert ActiveNumbered(r') == {};
    forall j | 0 <= j < |r'.groups|
      ensures Expected(Looks(r').groups[j], j, -1)
    {
      if j < |r.groups| {
        assert Expected(Looks(r).groups[j], j, -1);
      }
    }
  }

  // ----- The multi-route pass on the registry -----

  /** What the multi-route renderer adds to the map for one route: its
      dashed path at the baseline style, then its dots. */
  function RouteLayers(stops: seq<Stop>, color: string): seq<Layer>
  {
    [Path(CoordsOf(stops), color, Baseline, MultiDash)] + DotLayers(stops, color)
  }

  /** The registry entry of a route drawn with its path on handle `n` and
      its dots on the handles after it. */
  function DrawnGroup(p: Planned, color: string, n: int): RouteGroup
  {
    RouteGroup(p.route.name, color, n, Range(n + 1, |p.route.stops|), p.route.stops, p.shift,
               [], FullOpacity, false, false)
  }

  /** The registry after the multi-route renderer drew one more route in
      `color`: its layers on fresh handles, its path and dots tracked, its
      entry appended. */
  function WithRoute(r: Registry, p: Planned, color: string): Registry
  {
    var n := r.nextId;
    r.(layers := Placed(r.layers, RouteLayers(p.route.stops, color), n),
       nextId := n + 1 + |p.route.stops|,
       markers := r.markers + Range(n + 1, |p.route.stops|),
       polylines := r.polylines + [n],
       groups := r.groups + [DrawnGroup(p, color, n)])
  }

  /** Drawing a route while nothing is highlighted keeps the invariant. */
  lemma WithRouteInv(r: Registry, p: Planned, color: string)
    requires Inv(r) && r.active == -1
    ensures Inv(WithRoute(r, p, color))
  {
    var n := r.nextId;
    var r1 := WithRoute(r, p, color).(groups := r.groups);
    RouteLayersInv(r, p, color);
    NewGroupDrawn(r, p, color);
    forall j | 0 <= j < |r.groups|
      ensures r.groups[j].polyline != n
    {
      assert GroupDrawn(r.layers, r.markers, r.polylines, r.groups[j]);
    }
    AddGroup(r1, DrawnGroup(p, color, n));
  }

  /** The layers step of `WithRoute`, before the entry is appended, keeps
      the invariant. */
  lemma RouteLayersInv(r: Registry, p: Planned, color: string)
    requires Inv(r)
    ensures Inv(WithRoute(r, p, color).(groups := r.groups))
  {
    var n, stops := r.nextId, p.route.stops;
    var ls := RouteLayers(stops, color);
    var dots := Range(n + 1, |stops|);
    assert |ls| == 1 + |stops|;
    assert WithRoute(r, p, color).(groups := r.groups)
        == r.(layers := Placed(r.layers, ls, n), nextId := n + |ls|,
              markers := r.markers + dots, polylines := r.polylines + [n]);
    RangeElems(n + 1, |stops|);
    RangeElems(n, |ls|);
    assert Elems(dots) + Elems([n]) == Elems(Range(n, |ls|));
    AddRouteLayers(r, ls, dots, [n]);
  }

  /** The entry of a newly drawn route is drawn as its route says, its
      path at the baseline style. */
  lemma NewGroupDrawn(r: Registry, p: Planned, color: string)
    requires forall x :: x in r.layers ==> x < r.nextId
    ensures var w := WithRoute(r, p, color);
      && GroupDrawn(w.layers, w.markers, w.polylines, DrawnGroup(p, color, r.nextId))
      && StyleOf(w.layers, r.nextId) == Baseline
  {
    var n, stops := r.nextId, p.route.stops;
    var ls := RouteLayers(stops, color);
    var layers := Placed(r.layers, ls, n);
    var markers := r.markers + Range(n + 1, |stops|);
    var w := WithRoute(r, p, color);
    assert w.layers == layers && w.markers == markers && w.polylines == r.polylines + [n];
    PlacedSpec(r.layers, ls, n);
    var g := DrawnGroup(p, color, n);
    assert layers[n + 0] == ls[0];
    forall m | 0 <= m < |g.dotMarkers|
      ensures g.dotMarkers[m] in markers
      ensures g.dotMarkers[m] in layers && layers[g.dotMarkers[m]] == Marker(stops[m].at, StopDot(color))
    {
      assert g.dotMarkers[m] == n + (1 + m);
      assert ls[1 + m] == Marker(stops[m].at, StopDot(color));
      assert markers[|r.markers| + m] == g.dotMarkers[m];
    }
    assert (r.polylines + [n])[|r.polylines|] == n;
  }

  /** The registry after a multi-route pass drew the planned routes in
      order, the `k`-th of the pass in `RouteColor(k)`. */
  function DrawPlan(r: Registry, plan: seq<Planned>): (r': Registry)
    ensures |r'.groups| == |r.groups| + |plan|
    decreases |plan|
  {
    if plan == [] then r
    else
      var init := plan[..|plan| - 1];
      WithRoute(DrawPlan(r, init), plan[|plan| - 1], RouteColor(|init|))
  }

  /** A multi-route pass started with nothing highlighted keeps the
      invariant; it changes neither the centre markers nor the highlight. */
  lemma {:induction false} DrawPlanInv(r: Registry, plan: seq<Planned>)
    requires Inv(r) && r.active == -1
    ensures Inv(DrawPlan(r, plan))
    ensures DrawPlan(r, plan).active == -1 && DrawPlan(r, plan).centers == r.centers
    decreases |plan|
  {
    if plan != [] {
      var init := plan[..|plan| - 1];
      DrawPlanInv(r, init);
      WithRouteInv(DrawPlan(r, init), plan[|plan| - 1], RouteColor(|init|));
    }
  }

  /** Registry entry `g` is the `k`-th route of a pass, planned as `p`, not
      highlighted. */
  predicate DrawnAs(g: RouteGroup, p: Planned, k: nat)
  {
    && g.name == p.route.name && g.color == RouteColor(k) && g.stops == p.route.stops
    && g.shiftName == p.shift && g.numberedMarkers == [] && g.dotOpacity == FullOpacity
    && !g.active && !g.expanded
  }

  function PolylineOf(g: RouteGroup): seq<int> { [g.polyline] }
  function DotsOf(g: RouteGroup): seq<int> { g.dotMarkers }

  /** A pass registers one entry per planned route, after the entries it
      found, in plan order and with the pass's colours. */
  lemma {:induction false} DrawPlanGroups(r: Registry, plan: seq<Planned>)
    ensures var r' := DrawPlan(r, plan);
      && r'.groups[..|r.groups|] == r.groups
      && forall k :: 0 <= k < |plan| ==> DrawnAs(r'.groups[|r.groups| + k], plan[k], k)
    decreases |plan|
  {
    if plan != [] {
      var init := plan[..|plan| - 1];
      DrawPlanGroups(r, init);
      var gs := DrawPlan(r, init).groups;
      var gs' := DrawPlan(r, plan).groups;
      assert gs' == gs + [gs'[|gs|]];
      forall k | 0 <= k < |init|
        ensures DrawnAs(gs'[|r.groups| + k], plan[k], k)
      {
        assert init[k] == plan[k];
        assert gs'[|r.groups| + k] == gs[|r.groups| + k];
      }
    }
  }

  /** A pass over an empty registry tracks exactly the paths and the dots
      of the entries it registers. */
  lemma {:induction false} DrawPlanTracks(r: Registry, plan: seq<Planned>)
    requires r.groups == [] && r.markers == [] && r.polylines == []
    ensures DrawPlan(r, plan).polylines == FlatMap(DrawPlan(r, plan).groups, PolylineOf)
    ensures DrawPlan(r, plan).markers == FlatMap(DrawPlan(r, plan).groups, DotsOf)
    decreases |plan|
  {
    if plan != [] {
      var init := plan[..|plan| - 1];
      var r0 := DrawPlan(r, init);
      DrawPlanTracks(r, init);
      var p, c := plan[|plan| - 1], RouteColor(|init|);
      var g := DrawnGroup(p, c, r0.nextId);
      assert DrawPlan(r, plan) == WithRoute(r0, p, c);
      WithRouteTracks(r0, p, c);
      FlatMapSnoc(r0.groups, g, PolylineOf);
      FlatMapSnoc(r0.groups, g, DotsOf);
    }
  }

  /** Drawing a route tracks its path and its dots, in the order of its
      registry entry. */
  lemma WithRouteTracks(r: Registry, p: Planned, color: string)
    ensures var w, g := WithRoute(r, p, color), DrawnGroup(p, color, r.nextId);
      && w.groups == r.groups + [g]
      && w.polylines == r.polylines + PolylineOf(g)
      && w.markers == r.markers + DotsOf(g)
  {
  }

  /** One more planned route, on every quantity a multi-route pass keeps:
      the registry, the stop count, the time pool and the bounds. */
  lemma PlanSnoc(r: Registry, cur: seq<Planned>, p: Planned, b: Bounds)
    ensures DrawPlan(r, cur + [p]) == WithRoute(DrawPlan(r, cur), p, RouteColor(|cur|))
    ensures TotalStops(cur + [p]) == TotalStops(cur) + |p.route.stops|
    ensures PooledTimes(cur + [p]) == PooledTimes(cur) + PlannedTimes(p)
    ensures ExtendAll(b, FlatMap(cur + [p], PlannedCoords))
         == ExtendAll(ExtendAll(b, FlatMap(cur, PlannedCoords)), PlannedCoords(p))
  {
    assert (cur + [p])[..|cur|] == cur;
    FlatMapSnoc(cur, p, PlannedTimes);
    FlatMapSnoc(cur, p, PlannedCoords);
    ExtendAllAppend(b, FlatMap(cur, PlannedCoords), PlannedCoords(p));
  }

  /** One more stop of a route in the multi-route pass: one more dot on the
      next handle, its time pooled when non-empty, its point in the bounds. */
  lemma DotStep(stops: seq<Stop>, m: nat, color: string, layers: map<int, Layer>, base: int, b: Bounds)
    requires m < |stops|
    ensures Placed(layers, DotLayers(stops[..m + 1], color), base)
         == Placed(layers, DotLayers(stops[..m], color), base)[base + m := Marker(stops[m].at, StopDot(color))]
    ensures NonEmpty(TimesOf(stops[..m + 1]))
         == NonEmpty(TimesOf(stops[..m])) + (if stops[m].time != [] then [stops[m].time] else [])
    ensures ExtendAll(b, CoordsOf(stops[..m + 1])) == Extend(ExtendAll(b, CoordsOf(stops[..m])), stops[m].at)
  {
    var stop := stops[m];
    assert DotLayers(stops[..m + 1], color) == DotLayers(stops[..m], color) + [Marker(stop.at, StopDot(color))];
    PlacedSnoc(layers, DotLayers(stops[..m], color), Marker(stop.at, StopDot(color)), base);
    assert TimesOf(stops[..m + 1]) == TimesOf(stops[..m]) + [stop.time];
    NonEmptyAppend(TimesOf(stops[..m]), [stop.time]);
    assert NonEmpty([stop.time]) == (if stop.time != [] then [stop.time] else []) + NonEmpty([]);
    assert CoordsOf(stops[..m + 1]) == CoordsOf(stops[..m]) + [stop.at];
    ExtendAllSnoc(b, CoordsOf(stops[..m]), stop.at);
  }

  // ----- The single-route view on the registry -----

  /** Whether the single-route view draws the connector from the centre to
      the last stop: only with a centre and at least one stop. */
  predicate HasConnector(stops: seq<Stop>, center: Option<Center>)
  {
    center.Some? && |stops| > 0
  }

  /** The single-route path: through every stop, in `color`. */
  function SingleLine(stops: seq<Stop>, color: string): Layer
  {
    Path(CoordsOf(stops), color, SingleStyle, SingleDash)
  }

  /** The connector from the centre to the last stop. */
  function Connector(stops: seq<Stop>, center: Option<Center>): Layer
    requires HasConnector(stops, center)
  {
    Path([center.value.at, stops[|stops| - 1].at], ConnectorColor, ConnectorStyle, ConnectorDash)
  }

  /** What the single-route renderer adds, in order: a numbered marker per
      stop, the path, and the connector when there is one. */
  function SingleLayers(stops: seq<Stop>, center: Option<Center>, color: string): seq<Layer>
  {
    NumberedLayers(stops, None) + [SingleLine(stops, color)]
      + (if HasConnector(stops, center) then [Connector(stops, center)] else [])
  }

  /** The registry after `renderSingleRoute`: the layers on fresh handles,
      the numbered markers and the connector tracked with the markers, the
      path with the polylines. */
  function WithSingle(r: Registry, stops: seq<Stop>, center: Option<Center>, color: string): Registry
  {
    var n, k := r.nextId, |stops|;
    r.(layers := Placed(r.layers, SingleLayers(stops, center, color), n),
       nextId := n + |SingleLayers(stops, center, color)|,
       markers := r.markers + Range(n, k) + (if HasConnector(stops, center) then [n + k + 1] else []),
       polylines := r.polylines + [n + k])
  }

  /** The single-route layers are placed as the numbered markers, then
      the path on the next handle, then the connector, if any, on the one
      after. */
  lemma SinglePlaced(layers: map<int, Layer>, stops: seq<Stop>, center: Option<Center>, color: string, n: int)
    ensures |SingleLayers(stops, center, color)| == |stops| + if HasConnector(stops, center) then 2 else 1
    ensures Placed(layers, SingleLayers(stops, center, color), n)
         == var withLine := Placed(layers, NumberedLayers(stops, None), n)[n + |stops| := SingleLine(stops, color)];
            if HasConnector(stops, center) then withLine[n + |stops| + 1 := Connector(stops, center)] else withLine
  {
    var ls := NumberedLayers(stops, None) + [SingleLine(stops, color)];
    PlacedSnoc(layers, NumberedLayers(stops, None), SingleLine(stops, color), n);
    if HasConnector(stops, center) {
      PlacedSnoc(layers, ls, Connector(stops, center), n);
    } else {
      assert SingleLayers(stops, center, color) == ls;
    }
  }

  /** Drawing a single route keeps the invariant and the highlight state. */
  lemma WithSingleInv(r: Registry, stops: seq<Stop>, center: Option<Center>, color: string)
    requires Inv(r)
    ensures Inv(WithSingle(r, stops, center, color))
    ensures Looks(WithSingle(r, stops, center, color)) == Looks(r)
  {
    var n, k := r.nextId, |stops|;
    var ls := SingleLayers(stops, center, color);
    var conn := if HasConnector(stops, center) then [n + k + 1] else [];
    var cm := Range(n, k) + conn;
    assert WithSingle(r, stops, center, color)
        == r.(layers := Placed(r.layers, ls, n), nextId := n + |ls|,
              markers := r.markers + cm, polylines := r.polylines + [n + k]);
    RangeElems(n, k);
    RangeElems(n, |ls|);
    ElemsAppend(Range(n, k), conn);
    assert Elems(cm) + Elems([n + k]) == Elems(Range(n, |ls|));
    AddRouteLayers(r, ls, cm, [n + k]);
  }

  /** The single-route view draws a marker per stop, numbered from 1 at
      the stop, on the handles from `nextId`; then exactly one path, through
      the stops in order; then the connector from the centre to the last
      stop, present exactly when there is a centre and a stop. Nothing
      already on the map changes. */
  lemma SingleDrawn(r: Registry, stops: seq<Stop>, center: Option<Center>, color: string)
    requires forall x :: x in r.layers ==> x < r.nextId
    ensures var w, n, k := WithSingle(r, stops, center, color), r.nextId, |stops|;
      && (forall x :: x in r.layers ==> x in w.layers && w.layers[x] == r.layers[x])
      && (forall i :: 0 <= i < k ==> n + i in w.layers && w.layers[n + i] == Marker(stops[i].at, StopNumber(i + 1, None)))
      && n + k in w.layers && w.layers[n + k] == Path(CoordsOf(stops), color, SingleStyle, SingleDash)
      && w.polylines == r.polylines + [n + k]
      && (n + k + 1 in w.layers <==> HasConnector(stops, center))
      && (HasConnector(stops, center) ==>
            w.layers[n + k + 1] == Path([center.value.at, stops[k - 1].at], ConnectorColor, ConnectorStyle, ConnectorDash))
  {
    var n, k := r.nextId, |stops|;
    var ls := SingleLayers(stops, center, color);
    var w := WithSingle(r, stops, center, color);
    assert w.layers == Placed(r.layers, ls, n);
    PlacedSpec(r.layers, ls, n);
    forall i | 0 <= i < k
      ensures w.layers[n + i] == Marker(stops[i].at, StopNumber(i + 1, None))
    {
      assert ls[i] == NumberedLayers(stops, None)[i];
    }
    assert ls[k] == SingleLine(stops, color);
    if HasConnector(stops, center) {
      assert ls[k + 1] == Connector(stops, center);
    }
  }

  /** One more stop of the single-route view: one more numbered marker
      on the next handle, one more stop item. */
  lemma StopStep(stops: seq<Stop>, k: nat, layers: map<int, Layer>, base: int, list0: seq<ListEntry>)
    requires k < |stops|
    ensures CoordsOf(stops[..k + 1]) == CoordsOf(stops[..k]) + [stops[k].at]
    ensures Placed(layers, NumberedLayers(stops[..k + 1], None), base)
         == Placed(layers, NumberedLayers(stops[..k], None), base)[base + k := Marker(stops[k].at, StopNumber(k + 1, None))]
    ensures list0 + StopItems(k) + [StopItem(k + 1)] == list0 + StopItems(k + 1)
  {
    var m := Marker(stops[k].at, StopNumber(k + 1, None));
    var pre, ext := NumberedLayers(stops[..k], None), NumberedLayers(stops[..k + 1], None);
    forall i | 0 <= i < |ext|
      ensures ext[i] == (pre + [m])[i]
    {
      if i < k {
        assert stops[..k + 1][i] == stops[..k][i];
      }
    }
    assert ext == pre + [m];
    PlacedSnoc(layers, pre, m, base);
  }

  /** One more facility of the all-centres view: a facility with a centre
      adds one site, whose pin goes on the next handle and whose centre
      extends the bounds; one without adds nothing. */
  lemma SiteStep(data: Data, k: nat, layers: map<int, Layer>, base: int)
    requires k < |data|
    ensures data[k].center.None? ==> Sites(data[..k + 1]) == Sites(data[..k])
    ensures data[k].center.Some? ==>
      var sites := Sites(data[..k]);
      var site := Site(data[k].center.value.at, Summarize(data[k]));
      && Sites(data[..k + 1]) == sites + [site]
      && BoundsOf(SiteCoords(sites + [site])) == Extend(BoundsOf(SiteCoords(sites)), site.at)
      && Placed(layers, CenterPins(sites + [site]), base)
         == Placed(layers, CenterPins(sites), base)[base + |sites| := Marker(site.at, CenterPin(Some(site.summary)))]
  {
    assert data[..k + 1][..k] == data[..k];
    var sites := Sites(data[..k]);
    if data[k].center.Some? {
      var site := Site(data[k].center.value.at, Summarize(data[k]));
      assert SiteCoords(sites + [site]) == SiteCoords(sites) + [site.at];
      ExtendAllSnoc(Empty, SiteCoords(sites), site.at);
      assert CenterPins(sites + [site]) == CenterPins(sites) + [Marker(site.at, CenterPin(Some(site.summary)))];
      PlacedSnoc(layers, CenterPins(sites), Marker(site.at, CenterPin(Some(site.summary))), base);
    } else {
      assert Sites(data[..k + 1]) == sites + [];
    }
  }

  // ----- The highlight toggle on the registry -----

  /** The path style and dot opacity every group is reset to: the baseline
      when deselecting, dimmed otherwise. */
  function ResetStyle(deselecting: bool): PathStyle
  {
    if deselecting then Baseline else Dimmed
  }

  function ResetOpacity(deselecting: bool): real
  {
    if deselecting then FullOpacity else DimOpacity
  }

  /** `setStyle` on a path handle; any other handle is untouched. */
  function Restyle(layers: map<int, Layer>, id: int, style: PathStyle): (r: map<int, Layer>)
    ensures r.Keys == layers.Keys
    ensures forall x :: x in layers && x != id ==> r[x] == layers[x]
    ensures id in layers && layers[id].Path? ==> r[id] == layers[id].(style := style)
  {
    if id in layers && layers[id].Path? then layers[id := layers[id].(style := style)] else layers
  }

  /** A group after the reset step: no numbered markers, dots reset,
      header inactive and stop list collapsed. */
  function Cleared(g: RouteGroup, deselecting: bool): RouteGroup
  {
    g.(numberedMarkers := [], dotOpacity := ResetOpacity(deselecting), active := false, expanded := false)
  }

  function ClearedGroups(gs: seq<RouteGroup>, deselecting: bool): seq<RouteGroup>
  {
    seq(|gs|, k requires 0 <= k < |gs| => Cleared(gs[k], deselecting))
  }

  /** The map after the reset step has visited the groups `gs` in order:
      each path restyled, each group's numbered markers removed. */
  function ResetLayers(layers: map<int, Layer>, gs: seq<RouteGroup>, deselecting: bool): map<int, Layer>
    decreases |gs|
  {
    if gs == [] then layers
    else
      var g := gs[|gs| - 1];
      Restyle(ResetLayers(layers, gs[..|gs| - 1], deselecting), g.polyline, ResetStyle(deselecting))
        - Elems(g.numberedMarkers)
  }

  /** The reset step visits one more group. */
  lemma ResetStep(layers: map<int, Layer>, gs: seq<RouteGroup>, j: nat, deselecting: bool)
    requires j < |gs|
    ensures ResetLayers(layers, gs[..j + 1], deselecting)
         == Restyle(ResetLayers(layers, gs[..j], deselecting), gs[j].polyline, ResetStyle(deselecting)) - Elems(gs[j].numberedMarkers)
    ensures ClearedGroups(gs[..j + 1], deselecting) + gs[j + 1..]
         == (ClearedGroups(gs[..j], deselecting) + gs[j..])[j := Cleared(gs[j], deselecting)]
  {
    assert gs[..j + 1][..j] == gs[..j];
  }

  /** All numbered-marker handles of a list of groups. */
  ghost function NumberedIds(gs: seq<RouteGroup>): set<int>
    decreases |gs|
  {
    if gs == [] then {} else NumberedIds(gs[..|gs| - 1]) + Elems(gs[|gs| - 1].numberedMarkers)
  }

  ghost function PolylineSet(gs: seq<RouteGroup>): set<int>
  {
    set k | 0 <= k < |gs| :: gs[k].polyline
  }

  /** When only group `a` may hold numbered markers, they are all of them. */
  lemma {:induction false} NumberedIdsOfOne(gs: seq<RouteGroup>, a: int)
    requires forall j :: 0 <= j < |gs| && j != a ==> gs[j].numberedMarkers == []
    ensures NumberedIds(gs) == if 0 <= a < |gs| then Elems(gs[a].numberedMarkers) else {}
    decreases |gs|
  {
    if gs != [] {
      var init := gs[..|gs| - 1];
      NumberedIdsOfOne(init, a);
      if 0 <= a < |gs| - 1 {
        assert init[a] == gs[a];
      }
    }
  }

  lemma PolylineSetSnoc(gs: seq<RouteGroup>)
    requires gs != []
    ensures PolylineSet(gs) == PolylineSet(gs[..|gs| - 1]) + {gs[|gs| - 1].polyline}
  {
    var n := |gs| - 1;
    var init := gs[..n];
    forall x | x in PolylineSet(gs) ensures x in PolylineSet(init) + {gs[n].polyline} {
      var k :| 0 <= k < |gs| && gs[k].polyline == x;
      if k < n { assert init[k] == gs[k]; }
    }
    forall x | x in PolylineSet(init) ensures x in PolylineSet(gs) {
      var k :| 0 <= k < |init| && init[k].polyline == x;
      assert gs[k] == init[k];
    }
  }

  /** The reset step removes exactly the numbered markers of the groups. */
  lemma {:induction false} ResetLayersKeys(layers: map<int, Layer>, gs: seq<RouteGroup>, d: bool)
    ensures ResetLayers(layers, gs, d).Keys == layers.Keys - NumberedIds(gs)
    decreases |gs|
  {
    if gs != [] {
      ResetLayersKeys(layers, gs[..|gs| - 1], d);
    }
  }

  /** The reset step leaves every layer that is not a path of the groups as
      it was. */
  lemma {:induction false} ResetLayersOthers(layers: map<int, Layer>, gs: seq<RouteGroup>, d: bool)
    ensures forall id :: id in ResetLayers(layers, gs, d) && id !in PolylineSet(gs) ==>
      id in layers && ResetLayers(layers, gs, d)[id] == layers[id]
    decreases |gs|
  {
    if gs != [] {
      PolylineSetSnoc(gs);
      ResetLayersOthers(layers, gs[..|gs| - 1], d);
    }
  }

  /** The reset step gives every path of the groups the reset style, as long
      as no path is shared or is also a numbered marker. */
  lemma {:induction false} ResetLayersPaths(layers: map<int, Layer>, gs: seq<RouteGroup>, d: bool)
    requires forall j, k :: 0 <= j < k < |gs| ==> gs[j].polyline != gs[k].polyline
    requires PolylineSet(gs) !! NumberedIds(gs)
    ensures forall k :: 0 <= k < |gs| && gs[k].polyline in layers && layers[gs[k].polyline].Path? ==>
      gs[k].polyline in ResetLayers(layers, gs, d) &&
      ResetLayers(layers, gs, d)[gs[k].polyline] == layers[gs[k].polyline].(style := ResetStyle(d))
    decreases |gs|
  {
    if gs != [] {
      var n := |gs| - 1;
      var init, g := gs[..n], gs[n];
      PolylineSetSnoc(gs);
      ResetLayersPaths(layers, init, d);
      ResetLayersKeys(layers, init, d);
      ResetLayersOthers(layers, init, d);
      assert g.polyline !in PolylineSet(init);
      forall k | 0 <= k < |gs| && gs[k].polyline in layers && layers[gs[k].polyline].Path?
        ensures gs[k].polyline in ResetLayers(layers, gs, d)
        ensures ResetLayers(layers, gs, d)[gs[k].polyline] == layers[gs[k].polyline].(style := ResetStyle(d))
      {
        if k < n {
          assert init[k] == gs[k];
          assert gs[k].polyline in PolylineSet(gs);
        } else {
          assert g.polyline in PolylineSet(gs);
        }
      }
    }
  }

  /** Under the invariant the reset step removes exactly the highlighted
      group's numbered markers, gives each registered path the reset style
      and keeps every layer that is not a registered path. */
  lemma ResetFacts(r: Registry, d: bool)
    requires Inv(r)
    ensures ResetLayers(r.layers, r.groups, d).Keys == r.layers.Keys - ActiveNumbered(r)
    ensures forall id :: id in ResetLayers(r.layers, r.groups, d) && id !in PolylineSet(r.groups) ==>
      id in r.layers && ResetLayers(r.layers, r.groups, d)[id] == r.layers[id]
    ensures forall k :: 0 <= k < |r.groups| ==>
      r.groups[k].polyline in ResetLayers(r.layers, r.groups, d) &&
      ResetLayers(r.layers, r.groups, d)[r.groups[k].polyline]
        == r.layers[r.groups[k].polyline].(style := ResetStyle(d))
  {
    forall j | 0 <= j < |r.groups| && j != r.active
      ensures r.groups[j].numberedMarkers == []
    {
      OnlyActiveNumbered(r, j);
    }
    NumberedIdsOfOne(r.groups, r.active);
    assert PolylineSet(r.groups) <= Elems(r.polylines) by {
      forall x | x in PolylineSet(r.groups) ensures x in Elems(r.polylines) {
        var k :| 0 <= k < |r.groups| && r.groups[k].polyline == x;
        assert GroupDrawn(r.layers, r.markers, r.polylines, r.groups[k]);
      }
    }
    ResetLayersKeys(r.layers, r.groups, d);
    ResetLayersOthers(r.layers, r.groups, d);
    ResetLayersPaths(r.layers, r.groups, d);
    forall k | 0 <= k < |r.groups|
      ensures r.groups[k].polyline in r.layers && r.layers[r.groups[k].polyline].Path?
    {
      assert GroupDrawn(r.layers, r.markers, r.polylines, r.groups[k]);
    }
  }

  /** `layers` with the layers `ls` added one at a time on the handles
      `base`, `base + 1`, .... */
  function Placed(layers: map<int, Layer>, ls: seq<Layer>, base: int): map<int, Layer>
    decreases |ls|
  {
    if ls == [] then layers
    else Placed(layers, ls[..|ls| - 1], base)[base + |ls| - 1 := ls[|ls| - 1]]
  }

  /** Placing layers on handles above every existing one adds exactly the
      handles `base` to `base + |ls| - 1`, holding `ls` in order, and keeps
      the existing layers. */
  lemma {:induction false} PlacedSpec(layers: map<int, Layer>, ls: seq<Layer>, base: int)
    requires forall x :: x in layers ==> x < base
    ensures forall id :: id in Placed(layers, ls, base) <==> id in layers || base <= id < base + |ls|
    ensures forall x :: x in layers ==> Placed(layers, ls, base)[x] == layers[x]
    ensures forall k :: 0 <= k < |ls| ==> Placed(layers, ls, base)[base + k] == ls[k]
    decreases |ls|
  {
    if ls != [] {
      var n := |ls| - 1;
      var prev := Placed(layers, ls[..n], base);
      PlacedSpec(layers, ls[..n], base);
      assert Placed(layers, ls, base) == prev[base + n := ls[n]];
      forall k | 0 <= k < n
        ensures base + k in Placed(layers, ls, base) && Placed(layers, ls, base)[base + k] == ls[k]
      {
        assert base + k in prev && prev[base + k] == ls[..n][k] == ls[k];
      }
    }
  }

  /** Placing one more layer is one more map update. */
  lemma PlacedSnoc(layers: map<int, Layer>, ls: seq<Layer>, l: Layer, base: int)
    ensures Placed(layers, ls + [l], base) == Placed(layers, ls, base)[base + |ls| := l]
  {
    assert (ls + [l])[..|ls|] == ls;
  }

  /** Placing two batches is placing their concatenation. */
  lemma {:induction false} PlacedAppend(layers: map<int, Layer>, a: seq<Layer>, b: seq<Layer>, base: int)
    ensures Placed(layers, a + b, base) == Placed(Placed(layers, a, base), b, base + |a|)
    decreases |b|
  {
    if b == [] {
      assert a + b == a;
    } else {
      var n := |b| - 1;
      assert (a + b)[..|a + b| - 1] == a + b[..n];
      PlacedAppend(layers, a, b[..n], base);
    }
  }

  /** One numbered marker per stop, at the stop, labelled with its 1-based
      position. */
  function NumberedLayers(stops: seq<Stop>, badge: Option<string>): seq<Layer>
  {
    seq(|stops|, k requires 0 <= k < |stops| => Marker(stops[k].at, StopNumber(k + 1, badge)))
  }

  /** `layers` with the numbered markers the highlight adds for `stops`
      on handles `base`, `base + 1`, .... */
  function AddNumbered(layers: map<int, Layer>, stops: seq<Stop>, base: int, badge: Option<string>): map<int, Layer>
  {
    Placed(layers, NumberedLayers(stops, badge), base)
  }

  /** One numbered marker per stop, at the stop, labelled with its 1-based
      position, on exactly the handles `base` to `base + |stops| - 1`; the
      layers below `base` are kept. */
  lemma AddNumberedSpec(layers: map<int, Layer>, stops: seq<Stop>, base: int, badge: Option<string>)
    requires forall x :: x in layers ==> x < base
    ensures forall id :: id in AddNumbered(layers, stops, base, badge) <==>
      id in layers || base <= id < base + |stops|
    ensures forall x :: x in layers ==> AddNumbered(layers, stops, base, badge)[x] == layers[x]
    ensures forall k :: 0 <= k < |stops| ==>
      AddNumbered(layers, stops, base, badge)[base + k] == Marker(stops[k].at, StopNumber(k + 1, badge))
  {
    var ls := NumberedLayers(stops, badge);
    PlacedSpec(layers, ls, base);
    forall k | 0 <= k < |stops|
      ensures AddNumbered(layers, stops, base, badge)[base + k] == Marker(stops[k].at, StopNumber(k + 1, badge))
    {
      assert ls[k] == Marker(stops[k].at, StopNumber(k + 1, badge));
    }
  }

  /** A group after the highlight step. */
  function Highlighted(g: RouteGroup, ids: seq<int>): RouteGroup
  {
    g.(dotOpacity := FullOpacity, numberedMarkers := ids, active := true, expanded := true)
  }

  /** The parts of a registry entry that describe its route, not its
      highlight state. */
  predicate SameRoute(g: RouteGroup, h: RouteGroup)
  {
    g.name == h.name && g.color == h.color && g.polyline == h.polyline &&
    g.dotMarkers == h.dotMarkers && g.stops == h.stops && g.shiftName == h.shiftName
  }

  /** A registry entry whose path is only restyled, whose dots are kept and
      whose numbered markers are labelled in stop order is still drawn. */
  lemma GroupRedrawn(r: Registry, layers: map<int, Layer>, j: int, g: RouteGroup, s: PathStyle)
    requires Inv(r) && 0 <= j < |r.groups| && SameRoute(g, r.groups[j])
    requires g.polyline in layers && layers[g.polyline] == r.layers[g.polyline].(style := s)
    requires forall x :: x in Elems(r.markers) ==> x in layers && layers[x] == r.layers[x]
    requires |g.numberedMarkers| <= |g.stops|
    requires forall m :: 0 <= m < |g.numberedMarkers| ==>
      g.numberedMarkers[m] in layers &&
      layers[g.numberedMarkers[m]] == Marker(g.stops[m].at, StopNumber(m + 1, Some(g.color)))
    ensures GroupDrawn(layers, r.markers, r.polylines, g)
    ensures GroupLookOf(layers, g) == GroupLook(s, g.dotOpacity, g.active, g.expanded, |g.numberedMarkers|, |g.stops|)
  {
    assert GroupDrawn(r.layers, r.markers, r.polylines, r.groups[j]);
    forall m | 0 <= m < |g.dotMarkers|
      ensures g.dotMarkers[m] in layers && layers[g.dotMarkers[m]] == r.layers[g.dotMarkers[m]]
    {
      var x := g.dotMarkers[m];
      assert x in Elems(r.markers);
    }
  }

  /** The registry `r'` is `r` after `toggleRouteHighlight(i)` deselected
      the highlighted group `i`: every group reset to the baseline, its
      numbered markers gone, every path at the baseline style and every
      other layer kept. */
  ghost predicate ToggledOff(r: Registry, i: int, r': Registry)
    requires 0 <= i < |r.groups|
  {
    && r'.nextId == r.nextId && r'.markers == r.markers && r'.polylines == r.polylines
    && r'.centers == r.centers && r'.active == -1
    && r'.groups == ClearedGroups(r.groups, true)
    && (forall id :: id in r'.layers <==> id in r.layers && id !in ActiveNumbered(r))
    && (forall x :: x in r'.layers && x !in PolylineSet(r.groups) ==> r'.layers[x] == r.layers[x])
    && (forall k :: 0 <= k < |r.groups| ==>
          r.groups[k].polyline in r'.layers && r.groups[k].polyline in r.layers &&
          r.layers[r.groups[k].polyline].Path? &&
          r'.layers[r.groups[k].polyline] == r.layers[r.groups[k].polyline].(style := Baseline))
  }

  /** The registry `r'` is `r` after `toggleRouteHighlight(i)` highlighted
      group `i`: every other group dimmed, group `i` at its peak with one
      numbered marker per stop on fresh handles, and every other layer
      kept. */
  ghost predicate ToggledOn(r: Registry, i: int, r': Registry)
    requires 0 <= i < |r.groups|
  {
    var n, g := r.nextId, r.groups[i];
    && r'.nextId == n + |g.stops| && r'.markers == r.markers && r'.polylines == r.polylines
    && r'.centers == r.centers && r'.active == i
    && r'.groups == ClearedGroups(r.groups, false)[i := Highlighted(Cleared(g, false), Range(n, |g.stops|))]
    && (forall id :: id in r'.layers <==> (id in r.layers && id !in ActiveNumbered(r)) || n <= id < n + |g.stops|)
    && (forall x :: x in r.layers && x in r'.layers && x !in PolylineSet(r.groups) ==> r'.layers[x] == r.layers[x])
    && (forall k :: 0 <= k < |r.groups| ==>
          r.groups[k].polyline in r'.layers && r.groups[k].polyline in r.layers &&
          r.layers[r.groups[k].polyline].Path? &&
          r'.layers[r.groups[k].polyline] == r.layers[r.groups[k].polyline].(style := if k == i then Peak else Dimmed))
    && (forall m :: 0 <= m < |g.stops| ==>
          n + m in r'.layers && r'.layers[n + m] == Marker(g.stops[m].at, StopNumber(m + 1, Some(g.color))))
  }

  /** Deselecting keeps the invariant and moves the highlight state exactly
      as the toggle specification says. */
  lemma ToggleOffStep(r: Registry, i: int, r': Registry)
    requires Inv(r) && 0 <= i < |r.groups| && r.active == i
    requires ToggledOff(r, i, r')
    ensures Inv(r')
    ensures Looks(r') == Toggle(Looks(r), i)
  {
    assert ActiveNumbered(r') == {};
    forall x | x in Elems(r.markers)
      ensures x in r'.layers && r'.layers[x] == r.layers[x]
    {
    }
    forall j | 0 <= j < |r.groups|
      ensures GroupDrawn(r'.layers, r'.markers, r'.polylines, r'.groups[j])
      ensures Looks(r').groups[j] == Toggle(Looks(r), i).groups[j]
    {
      GroupRedrawn(r, r'.layers, j, r'.groups[j], Baseline);
    }
    forall id
      ensures id in r'.layers <==> id in RouteIds(r') + Elems(r'.centers)
    {
    }
    ToggleIsConsistent(Looks(r), i);
  }

  /** Highlighting another group keeps the invariant and moves the
      highlight state exactly as the toggle specification says. */
  lemma ToggleOnStep(r: Registry, i: int, r': Registry)
    requires Inv(r) && 0 <= i < |r.groups| && r.active != i
    requires ToggledOn(r, i, r')
    ensures Inv(r')
    ensures Looks(r') == Toggle(Looks(r), i)
  {
    var n, g := r.nextId, r.groups[i];
    RangeElems(n, |g.stops|);
    assert ActiveNumbered(r') == Elems(Range(n, |g.stops|));
    forall j | 0 <= j < |r.groups|
      ensures GroupDrawn(r'.layers, r'.markers, r'.polylines, r'.groups[j])
      ensures Looks(r').groups[j] == Toggle(Looks(r), i).groups[j]
    {
      ToggleOnGroup(r, i, r', j);
    }
    forall id
      ensures id in r'.layers <==> id in RouteIds(r') + Elems(r'.centers)
    {
    }
    ToggleIsConsistent(Looks(r), i);
  }

  /** After highlighting group `i`, each group `j` is still drawn and looks
      as the toggle specification says. */
  lemma ToggleOnGroup(r: Registry, i: int, r': Registry, j: int)
    requires Inv(r) && 0 <= i < |r.groups| && r.active != i
    requires ToggledOn(r, i, r') && 0 <= j < |r.groups|
    ensures GroupDrawn(r'.layers, r'.markers, r'.polylines, r'.groups[j])
    ensures GroupLookOf(r'.layers, r'.groups[j]) == Toggle(Looks(r), i).groups[j]
  {
    forall x | x in Elems(r.markers)
      ensures x in r'.layers && r'.layers[x] == r.layers[x]
    {
    }
    GroupRedrawn(r, r'.layers, j, r'.groups[j], if j == i then Peak else Dimmed);
  }

  /** The reset pass followed by deselecting is the step `ToggledOff`
      describes. */
  lemma ToggleOffBuilt(r: Registry, i: int, r': Registry)
    requires Inv(r) && 0 <= i < |r.groups|
    requires r'.layers == ResetLayers(r.layers, r.groups, true)
    requires r'.groups == ClearedGroups(r.groups, true) && r'.active == -1
    requires r'.nextId == r.nextId && r'.markers == r.markers && r'.polylines == r.polylines
    requires r'.centers == r.centers
    ensures ToggledOff(r, i, r')
  {
    ResetFacts(r, true);
  }

  /** The reset pass followed by the highlight of group `i` (its path
      restyled, then its numbered markers added from `nextId` on) is the
      step `ToggledOn` describes. */
  lemma ToggleOnBuilt(r: Registry, i: int, r': Registry)
    requires Inv(r) && 0 <= i < |r.groups|
    requires var g := r.groups[i];
      r'.layers == AddNumbered(Restyle(ResetLayers(r.layers, r.groups, false), g.polyline, Peak),
                               g.stops, r.nextId, Some(g.color))
    requires r'.groups == ClearedGroups(r.groups, false)[i := Highlighted(Cleared(r.groups[i], false), Range(r.nextId, |r.groups[i].stops|))]
    requires r'.active == i && r'.nextId == r.nextId + |r.groups[i].stops|
    requires r'.markers == r.markers && r'.polylines == r.polylines && r'.centers == r.centers
    ensures ToggledOn(r, i, r')
  {
    ResetFacts(r, false);
    assert GroupDrawn(r.layers, r.markers, r.polylines, r.groups[i]);
    HighlightLayers(r, i, ResetLayers(r.layers, r.groups, false), r'.layers);
  }

  /** The map side of `ToggleOnBuilt`, from the facts about the reset map
      alone. */
  lemma HighlightLayers(r: Registry, i: int, reset: map<int, Layer>, out: map<int, Layer>)
    requires 0 <= i < |r.groups|
    requires forall id :: id in r.layers ==> id < r.nextId
    requires forall j, k :: 0 <= j < k < |r.groups| ==> r.groups[j].polyline != r.groups[k].polyline
    requires reset.Keys == r.layers.Keys - ActiveNumbered(r)
    requires forall id :: id in reset && id !in PolylineSet(r.groups) ==> id in r.layers && reset[id] == r.layers[id]
    requires forall k :: 0 <= k < |r.groups| ==>
      r.groups[k].polyline in reset && r.groups[k].polyline in r.layers &&
      r.layers[r.groups[k].polyline].Path? &&
      reset[r.groups[k].polyline] == r.layers[r.groups[k].polyline].(style := Dimmed)
    requires var g := r.groups[i];
      out == AddNumbered(Restyle(reset, g.polyline, Peak), g.stops, r.nextId, Some(g.color))
    ensures var n, g := r.nextId, r.groups[i];
      && (forall id :: id in out <==> (id in r.layers && id !in ActiveNumbered(r)) || n <= id < n + |g.stops|)
      && (forall x :: x in r.layers && x in out && x !in PolylineSet(r.groups) ==> out[x] == r.layers[x])
      && (forall k :: 0 <= k < |r.groups| ==>
            r.groups[k].polyline in out && out[r.groups[k].polyline]
              == r.layers[r.groups[k].polyline].(style := if k == i then Peak else Dimmed))
      && (forall m :: 0 <= m < |g.stops| ==>
            n + m in out && out[n + m] == Marker(g.stops[m].at, StopNumber(m + 1, Some(g.color))))
  {
    var n, g := r.nextId, r.groups[i];
    var lit := Restyle(reset, g.polyline, Peak);
    AddNumberedSpec(lit, g.stops, n, Some(g.color));
    forall x | x in r.layers && x in out && x !in PolylineSet(r.groups)
      ensures out[x] == r.layers[x]
    {
      assert g.polyline in PolylineSet(r.groups);
      assert x in lit && out[x] == lit[x];
    }
    forall k | 0 <= k < |r.groups|
      ensures r.groups[k].polyline in out && out[r.groups[k].polyline]
        == r.layers[r.groups[k].polyline].(style := if k == i then Peak else Dimmed)
    {
      var pl := r.groups[k].polyline;
      assert pl in lit && out[pl] == lit[pl];
      if k != i {
        assert pl != g.polyline by {
          if k < i {} else {}
        }
      }
    }
  }
}
