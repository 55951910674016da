/** The page controller: the module-level state of the map page (what is on
    the map, the route registry, the highlighted route, the side panel and
    the last camera request) and the operations that tear it down and
    rebuild it. Map-library handles are integers handed out by `AddLayer`;
    `layers` is the map's current layer set, keyed by handle. */
module App {
  import opened Wrappers
  import opened Seqs
  import opened Geo
  import opened Times
  import opened Viewport
  import opened Dataset
  import opened Highlight
  import opened Render
  import opened PageState

  /** How a multi-route pass ended: it drew its routes, the facility code was
      unknown (nothing drawn), or the shift filter named no shift of the
      facility (the source then fails at `Object.entries(undefined)` after
      having cleared and shown the empty panel). */
  datatype MultiOutcome = Drawn | UnknownFacility | MissingShift

  class MapView {
    /** The window size, read by `isMobile()` and the sheet height. */
    const screen: Screen
    /** `shuttleData`, loaded once. */
    const data: Data

    var layers: map<int, Layer>
    var nextId: int
    var currentMarkers: seq<int>
    var currentPolylines: seq<int>
    var centerMarkers: seq<int>
    var routeLayerGroups: seq<RouteGroup>
    var activeRouteIndex: int
    /** The children of the `stop-list` element. */
    var stopList: seq<ListEntry>
    /** Whether `route-details` and `route-stats` are displayed. */
    var routeDetailsShown: bool
    var routeStatsShown: bool
    /** The statistics panel texts; `None` before any `updateStats`. */
    var stats: Option<Stats>
    /** The last `mapFlyToBounds` request issued. */
    var lastFit: Option<FitRequest>

    /** The page state as a value. */
    function Reg(): Registry
      reads this
    {
      Registry(layers, nextId, currentMarkers, currentPolylines, centerMarkers,
               routeLayerGroups, activeRouteIndex)
    }

    ghost predicate Valid()
      reads this
    {
      Inv(Reg())
    }

    /** The highlight state of the registry. */
    function CurrentLook(): Look
      reads this
    {
      Looks(Reg())
    }

    /** The page after `initMap()` and `loadData()`: nothing drawn. */
    constructor (screen: Screen, data: Data)
      ensures Valid()
      ensures this.screen == screen && this.data == data
      ensures layers == map[] && currentMarkers == [] && currentPolylines == []
      ensures centerMarkers == [] && routeLayerGroups == [] && activeRouteIndex == -1
      ensures stopList == [] && !routeDetailsShown && !routeStatsShown
      ensures stats == None && lastFit == None
    {
      this.screen := screen;
      this.data := data;
      layers := map[];
      nextId := 0;
      currentMarkers := [];
      currentPolylines := [];
      centerMarkers := [];
      routeLayerGroups := [];
      activeRouteIndex := -1;
      stopList := [];
      routeDetailsShown := false;
      routeStatsShown := false;
      stats := None;
      lastFit := None;
    }

    /** `L.marker(...).addTo(map)` / `L.polyline(...).addTo(map)`: a new
        handle, never used before, now on the map. */
    method AddLayer(l: Layer) returns (id: int)
      modifies this`layers, this`nextId
      ensures id == old(nextId) && nextId == id + 1
      ensures layers == old(layers)[id := l]
    {
      id := nextId;
      layers := layers[id := l];
      nextId := nextId + 1;
    }

    /** `ids.forEach(m => map.removeLayer(m))`. */
    method RemoveLayers(ids: seq<int>)
      modifies this`layers
      ensures layers == old(layers) - Elems(ids)
    {
      for k := 0 to |ids|
        invariant layers == old(layers) - Elems(ids[..k])
      {
        assert Elems(ids[..k + 1]) == Elems(ids[..k]) + {ids[k]} by {
          assert ids[..k + 1] == ids[..k] + [ids[k]];
        }
        layers := layers - {ids[k]};
      }
      assert ids[..|ids|] == ids;
    }

    /** The removal half of `clearRoute()`: every tracked route-level
        layer leaves the map. */
    method RemoveRouteLayers()
      modifies this`layers
      ensures layers == old(layers) - (Elems(currentMarkers) + Elems(currentPolylines) + NumberedIds(routeLayerGroups))
    {
      RemoveLayers(currentMarkers);
      RemoveLayers(currentPolylines);
      ghost var afterPaths := layers;
      var groups := routeLayerGroups;
      for j := 0 to |groups|
        invariant layers == afterPaths - NumberedIds(groups[..j])
      {
        assert groups[..j + 1][..j] == groups[..j];
        RemoveLayers(groups[j].numberedMarkers);
      }
      assert groups[..|groups|] == groups;
      assert layers.Keys == old(layers).Keys - (Elems(currentMarkers) + Elems(currentPolylines) + NumberedIds(groups));
    }

    /** `clearRoute()`: removes every route-level layer (markers, paths,
        the highlighted group's numbered markers), empties the registry,
        forgets the highlight and hides the route panels. Afterwards only
        the centre markers remain on the map and nothing route-level is
        tracked, so a second call changes nothing. */
    method ClearRoute()
      requires Valid()
      modifies this`layers, this`currentMarkers, this`currentPolylines
      modifies this`routeLayerGroups, this`activeRouteIndex, this`routeDetailsShown, this`routeStatsShown
      ensures Valid() && Reg() == ClearedReg(old(Reg()))
      ensures layers.Keys == Elems(centerMarkers)
      ensures !routeDetailsShown && !routeStatsShown
    {
      ghost var r0 := Reg();
      ClearedFacts(r0);
      forall j | 0 <= j < |routeLayerGroups| && j != activeRouteIndex
        ensures routeLayerGroups[j].numberedMarkers == []
      {
        OnlyActiveNumbered(r0, j);
      }
      NumberedIdsOfOne(routeLayerGroups, activeRouteIndex);
      RemoveRouteLayers();
      ForgetRoutes();
    }

    /** The bookkeeping half of `clearRoute()`: the route collections and
        the registry are emptied, the highlight forgotten and the route
        panels hidden. */
    method ForgetRoutes()
      modifies this`currentMarkers, this`currentPolylines, this`routeLayerGroups
      modifies this`activeRouteIndex, this`routeDetailsShown, this`routeStatsShown
      ensures currentMarkers == [] && currentPolylines == []
      ensures routeLayerGroups == [] && activeRouteIndex == -1
      ensures !routeDetailsShown && !routeStatsShown
    {
      currentMarkers := [];
      currentPolylines := [];
      routeLayerGroups := [];
      activeRouteIndex := -1;
      routeDetailsShown := false;
      routeStatsShown := false;
    }

    /** `clearAll()`: `clearRoute()` and the centre markers too; the map is
        then empty. */
    method ClearAll()
      requires Valid()
      modifies this`layers, this`nextId, this`currentMarkers, this`currentPolylines, this`centerMarkers
      modifies this`routeLayerGroups, this`activeRouteIndex, this`routeDetailsShown, this`routeStatsShown
      ensures Valid() && Reg() == Registry(map[], old(nextId), [], [], [], [], -1)
      ensures !routeDetailsShown && !routeStatsShown
    {
      ClearRoute();
      RemoveLayers(centerMarkers);
      centerMarkers := [];
      ClearedInv(layers, nextId, []);
    }

    /** `addCenterMarker(center)`: replaces the centre markers by one pin at
        the centre; route-level state is untouched. */
    method AddCenterMarker(center: Center)
      requires Valid()
      modifies this`layers, this`nextId, this`centerMarkers
      ensures Valid() && CurrentLook() == old(CurrentLook())
      ensures centerMarkers == [old(nextId)] && nextId == old(nextId) + 1
      ensures layers == (old(layers) - Elems(old(centerMarkers)))[old(nextId) := Marker(center.at, CenterPin(None))]
    {
      ReplaceCenters(Reg(), Marker(center.at, CenterPin(None)));
      RemoveLayers(centerMarkers);
      centerMarkers := [];
      var id := AddLayer(Marker(center.at, CenterPin(None)));
      centerMarkers := [id];
    }

    // ----- The all-centres view -----

    /** `showAllCenters()`: clears everything, then pins every facility
        that has a centre, in dataset order, with its popup summary; the
        statistics count the pins and the camera frames them. The route
        panels stay hidden and the stop list is untouched. */
    method ShowAllCenters()
      requires Valid()
      modifies this`layers, this`nextId, this`currentMarkers, this`currentPolylines, this`centerMarkers
      modifies this`routeLayerGroups, this`activeRouteIndex, this`routeDetailsShown, this`routeStatsShown
      modifies this`stats, this`lastFit
      ensures Valid()
      ensures Reg() == Registry(Placed(map[], CenterPins(Sites(data)), old(nextId)), old(nextId) + |Sites(data)|,
                                [], [], Range(old(nextId), |Sites(data)|), [], -1)
      ensures !routeDetailsShown && !routeStatsShown
      ensures stats == Some(CentersStats(|Sites(data)|))
      ensures lastFit == Some(FlyToBounds(screen, BoundsOf(SiteCoords(Sites(data))), Padded(60.0)))
    {
      ClearAll();
      PinCenters();
    }

    /** The pins, statistics and camera of `showAllCenters` on an empty
        map. */
    method PinCenters()
      requires Reg() == Registry(map[], nextId, [], [], [], [], -1) && 0 <= nextId
      modifies this`layers, this`nextId, this`centerMarkers, this`stats, this`lastFit
      ensures Valid()
      ensures Reg() == Registry(Placed(map[], CenterPins(Sites(data)), old(nextId)), old(nextId) + |Sites(data)|,
                                [], [], Range(old(nextId), |Sites(data)|), [], -1)
      ensures stats == Some(CentersStats(|Sites(data)|))
      ensures lastFit == Some(FlyToBounds(screen, BoundsOf(SiteCoords(Sites(data))), Padded(60.0)))
    {
      ghost var base := nextId;
      var bounds, count := PlaceCenters();
      ghost var pins := CenterPins(Sites(data));
      assert Reg() == Registry(Placed(map[], pins, base), base + |pins|, [], [], Range(base, |pins|), [], -1);
      PinsPlaced(pins, base);
      stats := Some(CentersStats(count));
      lastFit := Some(FlyToBounds(screen, bounds, Padded(60.0)));
    }

    /** The loop of `showAllCenters`: facilities without a centre are
        skipped; each other one extends the bounds and gets a pin on a
        fresh handle, tracked as a centre marker. */
    method PlaceCenters() returns (bounds: Bounds, count: nat)
      modifies this`layers, this`nextId, this`centerMarkers
      ensures count == |Sites(data)| && bounds == BoundsOf(SiteCoords(Sites(data)))
      ensures nextId == old(nextId) + count
      ensures centerMarkers == old(centerMarkers) + Range(old(nextId), count)
      ensures layers == Placed(old(layers), CenterPins(Sites(data)), old(nextId))
    {
      bounds, count := Empty, 0;
      for k := 0 to |data|
        invariant Pinned(data[..k], old(layers), old(nextId), old(centerMarkers), bounds, count)
      {
        bounds, count := PinCenter(k, old(layers), old(nextId), old(centerMarkers), bounds, count);
      }
      assert data[..|data|] == data;
    }

    /** The pins of the facilities `done` are placed from handle `base` on,
        tracked as centre markers, counted and bounded. */
    ghost predicate Pinned(done: Data, layers0: map<int, Layer>, base: int, centers0: seq<int>,
                           bounds: Bounds, count: nat)
      reads this
    {
      var sites := Sites(done);
      && count == |sites| && bounds == BoundsOf(SiteCoords(sites))
      && nextId == base + count
      && centerMarkers == centers0 + Range(base, count)
      && layers == Placed(layers0, CenterPins(sites), base)
    }

    /** One facility of `PlaceCenters`. */
    method PinCenter(k: nat, ghost layers0: map<int, Layer>, ghost base: int, ghost centers0: seq<int>,
                     bounds0: Bounds, count0: nat)
      returns (bounds: Bounds, count: nat)
      requires k < |data| && Pinned(data[..k], layers0, base, centers0, bounds0, count0)
      modifies this`layers, this`nextId, this`centerMarkers
      ensures Pinned(data[..k + 1], layers0, base, centers0, bounds, count)
    {
      SiteStep(data, k, layers0, base);
      bounds, count := bounds0, count0;
      var fc := data[k];
      if fc.center.Some? {
        RangeSnoc(centers0, base, count);
        var site := Site(fc.center.value.at, Summarize(fc));
        bounds := Extend(bounds, site.at);
        var id := AddLayer(Marker(site.at, CenterPin(Some(site.summary))));
        centerMarkers := centerMarkers + [id];
        count := count + 1;
      }
    }

    // ----- The multi-route view -----

    /** `showMultiRoute(fcCode, shiftFilter)`. Clears the route-level state;
        an unknown facility code stops there. Otherwise the route panels are
        shown with an empty stop list, and every route of the shifts in
        scope (all of them, or the one the filter names) is drawn in order:
        a baseline path in the next palette colour, a dot per stop, a
        sidebar header, and a registry entry. The statistics pool the stops
        and their times and the camera frames the centre and every stop.
        A filter naming no shift of the facility fails after the panels
        were shown, with nothing drawn. The centre markers stay. */
    method ShowMultiRoute(code: string, filter: Option<string>) returns (outcome: MultiOutcome)
      requires Valid()
      modifies this`layers, this`nextId, this`currentMarkers, this`currentPolylines
      modifies this`routeLayerGroups, this`activeRouteIndex, this`routeDetailsShown, this`routeStatsShown
      modifies this`stopList, this`stats, this`lastFit
      ensures Valid() && centerMarkers == old(centerMarkers)
      ensures outcome == UnknownFacility <==> FindFacility(data, code).None?
      ensures outcome == UnknownFacility ==>
        && Reg() == ClearedReg(old(Reg())) && !routeDetailsShown && !routeStatsShown
        && stopList == old(stopList) && stats == old(stats) && lastFit == old(lastFit)
      ensures outcome != UnknownFacility ==>
        ShowsFacility(FindFacility(data, code).value, filter, ClearedReg(old(Reg())), old(stats), old(lastFit), outcome)
    {
      ClearRoute();
      ghost var cleared := Reg();
      var found := FindFacility(data, code);
      if found.None? {
        return UnknownFacility;
      }
      outcome := ShowFacility(found.value, filter, cleared);
    }

    /** What `showMultiRoute` leaves behind for the facility `fc` once the
        route-level state was cleared to `cleared`: the route panels shown;
        for a filter naming no shift, an empty stop list and nothing drawn;
        otherwise the plan of the shifts in scope drawn, the sidebar built,
        the pooled statistics shown and the camera framing the centre and
        every stop. */
    ghost predicate ShowsFacility(fc: Facility, filter: Option<string>, cleared: Registry,
                                  stats0: Option<Stats>, fit0: Option<FitRequest>, outcome: MultiOutcome)
      reads this
    {
      && routeDetailsShown && routeStatsShown
      && (outcome == MissingShift <==> Scope(fc, filter).None?)
      && (outcome == MissingShift ==> Reg() == cleared && stopList == [] && stats == stats0 && lastFit == fit0)
      && (outcome == Drawn ==>
            var plan := Plan(Scope(fc, filter).value);
            && Reg() == DrawPlan(cleared, plan)
            && stopList == MultiSidebar(Scope(fc, filter).value, Headers(filter))
            && stats == Some(MultiStats(plan))
            && lastFit == Some(FlyToBounds(screen, BoundsOf(CenterCoords(fc.center) + FlatMap(plan, PlannedCoords)), Padded(60.0))))
    }

    /** `showMultiRoute` past the facility lookup. */
    method ShowFacility(fc: Facility, filter: Option<string>, ghost cleared: Registry) returns (outcome: MultiOutcome)
      requires Reg() == cleared && Inv(cleared) && cleared.groups == [] && cleared.active == -1
      modifies this`layers, this`nextId, this`currentMarkers, this`currentPolylines
      modifies this`routeLayerGroups, this`activeRouteIndex, this`routeDetailsShown, this`routeStatsShown
      modifies this`stopList, this`stats, this`lastFit
      ensures Valid() && centerMarkers == old(centerMarkers) && outcome != UnknownFacility
      ensures ShowsFacility(fc, filter, cleared, old(stats), old(lastFit), outcome)
    {
      var bounds := OpenPanels(fc);
      var scope := Scope(fc, filter);
      if scope.None? {
        return MissingShift;
      }
      DrawScope(fc, filter, scope.value, cleared, bounds);
      outcome := Drawn;
    }

    /** The set-up of `showMultiRoute` for a known facility: the stop list
        emptied, the route panels shown, the bounds started at the centre,
        and the registry (already cleared) reset to empty. */
    method OpenPanels(fc: Facility) returns (bounds: Bounds)
      requires routeLayerGroups == [] && activeRouteIndex == -1
      modifies this`stopList, this`routeDetailsShown, this`routeStatsShown
      modifies this`routeLayerGroups, this`activeRouteIndex
      ensures Reg() == old(Reg()) && stopList == [] && routeDetailsShown && routeStatsShown
      ensures bounds == BoundsOf(CenterCoords(fc.center))
    {
      bounds := StartPanels(fc.center);
      routeLayerGroups := [];
      activeRouteIndex := -1;
    }

    /** The common set-up of both route views: the stop list emptied, the
        route panels shown, and the bounds started at the centre, if any. */
    method StartPanels(center: Option<Center>) returns (bounds: Bounds)
      modifies this`stopList, this`routeDetailsShown, this`routeStatsShown
      ensures stopList == [] && routeDetailsShown && routeStatsShown
      ensures bounds == BoundsOf(CenterCoords(center))
    {
      stopList := [];
      routeDetailsShown := true;
      routeStatsShown := true;
      bounds := Empty;
      if center.Some? {
        bounds := Extend(bounds, center.value.at);
        ExtendAllSnoc(Empty, [], center.value.at);
        assert [] + [center.value.at] == CenterCoords(center);
      }
    }

    /** The drawing part of `showMultiRoute` for the shifts in scope: the
        plan drawn over the cleared registry, the sidebar built, the
        statistics pooled and the camera framing the centre and every
        stop. */
    method DrawScope(fc: Facility, filter: Option<string>, shifts: seq<Shift>, ghost cleared: Registry, bounds0: Bounds)
      requires Reg() == cleared && Inv(cleared) && cleared.groups == [] && cleared.active == -1
      requires stopList == [] && bounds0 == BoundsOf(CenterCoords(fc.center))
      modifies this`layers, this`nextId, this`currentMarkers, this`currentPolylines
      modifies this`routeLayerGroups, this`stopList, this`stats, this`lastFit
      ensures Valid() && Reg() == DrawPlan(cleared, Plan(shifts))
      ensures stopList == MultiSidebar(shifts, Headers(filter))
      ensures stats == Some(MultiStats(Plan(shifts)))
      ensures lastFit == Some(FlyToBounds(screen, BoundsOf(CenterCoords(fc.center) + FlatMap(Plan(shifts), PlannedCoords)), Padded(60.0)))
    {
      var totalStops, allTimes, bounds := DrawShifts(shifts, Headers(filter), cleared, bounds0);
      var sorted := SortTimes(allTimes);
      stats := Some(Stats(totalStops, FirstOrDash(sorted), LastOrDash(sorted), StopsLabel));
      ExtendAllAppend(Empty, CenterCoords(fc.center), FlatMap(Plan(shifts), PlannedCoords));
      lastFit := Some(FlyToBounds(screen, bounds, Padded(60.0)));
      DrawPlanInv(cleared, Plan(shifts));
    }

    /** The running totals of a multi-route pass after the routes of
        `plan`: `totalStops` counts their stops, `allTimes` pools their
        non-empty times and `bounds` has grown from `b0` by every stop. */
    ghost predicate Tallied(plan: seq<Planned>, b0: Bounds, totalStops: nat, allTimes: seq<Time>, bounds: Bounds)
    {
      && totalStops == TotalStops(plan) && allTimes == PooledTimes(plan)
      && bounds == ExtendAll(b0, FlatMap(plan, PlannedCoords))
    }

    /** A multi-route pass from `r0` has drawn the routes `drawn`, the
        colour index counts them, and the totals are kept. */
    ghost predicate Drew(r0: Registry, drawn: seq<Planned>, colorIndex: nat, totalStops: nat,
                         allTimes: seq<Time>, b0: Bounds, bounds: Bounds)
      reads this
    {
      && r0.groups == [] && Reg() == DrawPlan(r0, drawn) && colorIndex == |drawn|
      && Tallied(drawn, b0, totalStops, allTimes, bounds)
    }

    /** The loop over the shifts in scope of `showMultiRoute`, from the
        cleared registry: it ends with the whole plan drawn, the stop
        counts summed, the non-empty times pooled, every stop in the bounds
        and the sidebar built. */
    method DrawShifts(shifts: seq<Shift>, headers: bool, ghost r0: Registry, b0: Bounds)
      returns (totalStops: nat, allTimes: seq<Time>, bounds: Bounds)
      requires Reg() == r0 && r0.groups == [] && stopList == []
      modifies this`layers, this`nextId, this`currentMarkers, this`currentPolylines
      modifies this`routeLayerGroups, this`stopList
      ensures Reg() == DrawPlan(r0, Plan(shifts))
      ensures totalStops == TotalStops(Plan(shifts)) && allTimes == PooledTimes(Plan(shifts))
      ensures bounds == ExtendAll(b0, FlatMap(Plan(shifts), PlannedCoords))
      ensures stopList == MultiSidebar(shifts, headers)
    {
      totalStops, allTimes, bounds := 0, [], b0;
      var colorIndex := 0;
      ghost var drawn := [];
      for s := 0 to |shifts|
        invariant drawn == Plan(shifts[..s]) && colorIndex == |drawn|
        invariant Reg() == DrawPlan(r0, drawn)
        invariant Tallied(drawn, b0, totalStops, allTimes, bounds)
        invariant stopList == MultiSidebar(shifts[..s], headers)
      {
        assert shifts[..s + 1] == shifts[..s] + [shifts[s]];
        assert shifts[..s + 1][..s] == shifts[..s];
        FlatMapSnoc(shifts[..s], shifts[s], PlanShift);
        colorIndex, totalStops, allTimes, bounds :=
          DrawShift(shifts[s], headers, r0, drawn, colorIndex, totalStops, allTimes, b0, bounds);
        drawn := drawn + PlanShift(shifts[s]);
      }
      assert shifts[..|shifts|] == shifts;
    }

    /** One shift of `showMultiRoute`: its section header when headers are
        shown, then its routes. */
    method DrawShift(sh: Shift, headers: bool, ghost r0: Registry, ghost done: seq<Planned>,
                     c0: nat, t0: nat, times0: seq<Time>, ghost b0: Bounds, bounds0: Bounds)
      returns (colorIndex: nat, totalStops: nat, allTimes: seq<Time>, bounds: Bounds)
      requires r0.groups == [] && Reg() == DrawPlan(r0, done) && c0 == |done|
      requires Tallied(done, b0, t0, times0, bounds0)
      modifies this`layers, this`nextId, this`currentMarkers, this`currentPolylines
      modifies this`routeLayerGroups, this`stopList
      ensures Reg() == DrawPlan(r0, done + PlanShift(sh)) && colorIndex == c0 + |sh.routes|
      ensures Tallied(done + PlanShift(sh), b0, totalStops, allTimes, bounds)
      ensures stopList == old(stopList) + ShiftEntries(sh, headers, c0)
    {
      ShiftEntriesSplit(stopList, sh, headers, c0);
      var hd := if headers then [SectionHeader(sh.name, |sh.routes|)] else [];
      stopList := stopList + hd;
      colorIndex, totalStops, allTimes, bounds := DrawRoutes(PlanShift(sh), r0, done, c0, t0, times0, b0, bounds0);
    }

    /** The route loop of one shift of `showMultiRoute`. */
    method DrawRoutes(plan: seq<Planned>, ghost r0: Registry, ghost done: seq<Planned>,
                      c0: nat, t0: nat, times0: seq<Time>, ghost b0: Bounds, bounds0: Bounds)
      returns (colorIndex: nat, totalStops: nat, allTimes: seq<Time>, bounds: Bounds)
      requires r0.groups == [] && Reg() == DrawPlan(r0, done) && c0 == |done|
      requires Tallied(done, b0, t0, times0, bounds0)
      modifies this`layers, this`nextId, this`currentMarkers, this`currentPolylines
      modifies this`routeLayerGroups, this`stopList
      ensures Reg() == DrawPlan(r0, done + plan) && colorIndex == c0 + |plan|
      ensures Tallied(done + plan, b0, totalStops, allTimes, bounds)
      ensures stopList == old(stopList) + RouteHeaders(c0, |plan|)
    {
      colorIndex, totalStops, allTimes, bounds := c0, t0, times0, bounds0;
      ghost var list0 := stopList;
      ghost var drawn := done;
      assert done + plan[..0] == done;
      assert list0 + RouteHeaders(c0, 0) == list0;
      for j := 0 to |plan|
        invariant drawn == done + plan[..j] && colorIndex == c0 + j
        invariant Drew(r0, drawn, colorIndex, totalStops, allTimes, b0, bounds)
        invariant stopList == list0 + RouteHeaders(c0, j)
      {
        PrefixSnoc(done, plan, j);
        colorIndex, totalStops, allTimes, bounds :=
          DrawNext(plan[j], r0, drawn, list0, c0, j, colorIndex, totalStops, allTimes, b0, bounds);
        drawn := drawn + [plan[j]];
      }
      assert plan[..|plan|] == plan;
    }

    /** The body of the route loop of `showMultiRoute`: the next colour,
        the route's registry index (the number of routes drawn so far), the
        running totals, the route drawn, its sidebar header. */
    method DrawNext(p: Planned, ghost r0: Registry, ghost cur: seq<Planned>,
                    ghost list0: seq<ListEntry>, ghost base: nat, ghost k: nat,
                    c0: nat, t0: nat, times0: seq<Time>, ghost b0: Bounds, bounds0: Bounds)
      returns (colorIndex: nat, totalStops: nat, allTimes: seq<Time>, bounds: Bounds)
      requires Drew(r0, cur, c0, t0, times0, b0, bounds0)
      requires c0 == base + k && stopList == list0 + RouteHeaders(base, k)
      modifies this`layers, this`nextId, this`currentMarkers, this`currentPolylines
      modifies this`routeLayerGroups, this`stopList
      ensures colorIndex == c0 + 1 && stopList == list0 + RouteHeaders(base, k + 1)
      ensures Drew(r0, cur + [p], colorIndex, totalStops, allTimes, b0, bounds)
    {
      RouteHeadersSnoc(list0, base, k);
      PlanSnoc(r0, cur, p, b0);
      var color := RouteColor(c0);
      var routeIdx := |routeLayerGroups|;
      colorIndex := c0 + 1;
      totalStops := t0 + |p.route.stops|;
      allTimes, bounds := DrawRoute(p, color, times0, bounds0);
      stopList := stopList + [RouteHeader(routeIdx)];
    }

    /** One route of `showMultiRoute`: its times join the pool, its stops
        extend the bounds, its baseline path and its dots go on the map, and
        it is registered and tracked as the registry's multi-route step
        says. */
    method DrawRoute(p: Planned, color: string, times0: seq<Time>, bounds0: Bounds)
      returns (allTimes: seq<Time>, bounds: Bounds)
      modifies this`layers, this`nextId, this`currentMarkers, this`currentPolylines, this`routeLayerGroups
      ensures Reg() == WithRoute(old(Reg()), p, color)
      ensures allTimes == times0 + PlannedTimes(p)
      ensures bounds == ExtendAll(bounds0, PlannedCoords(p))
    {
      var stops := p.route.stops;
      ghost var n := nextId;
      var polyline := AddLayer(Path(CoordsOf(stops), color, Baseline, MultiDash));
      var dots;
      allTimes, bounds, dots := PlaceDots(stops, color, times0, bounds0);
      PlacedAppend(old(layers), [Path(CoordsOf(stops), color, Baseline, MultiDash)], DotLayers(stops, color), n);
      routeLayerGroups := routeLayerGroups + [RouteGroup(p.route.name, color, polyline, dots, stops, p.shift,
                                                         [], FullOpacity, false, false)];
      currentPolylines := currentPolylines + [polyline];
      currentMarkers := currentMarkers + dots;
    }

    /** The per-stop passes of one route in `showMultiRoute`: each stop's
        time, when non-empty, joins the pool, each stop extends the bounds,
        and each gets a dot marker on a fresh handle. */
    method PlaceDots(stops: seq<Stop>, color: string, times0: seq<Time>, bounds0: Bounds)
      returns (allTimes: seq<Time>, bounds: Bounds, dots: seq<int>)
      modifies this`layers, this`nextId
      ensures dots == Range(old(nextId), |stops|) && nextId == old(nextId) + |stops|
      ensures layers == Placed(old(layers), DotLayers(stops, color), old(nextId))
      ensures allTimes == times0 + NonEmpty(TimesOf(stops))
      ensures bounds == ExtendAll(bounds0, CoordsOf(stops))
    {
      allTimes, bounds, dots := times0, bounds0, [];
      for m := 0 to |stops|
        invariant Dotted(stops[..m], color, old(layers), old(nextId), times0, bounds0, allTimes, bounds, dots)
      {
        allTimes, bounds, dots := PlaceDot(stops, m, color, old(layers), old(nextId), times0, bounds0, allTimes, bounds, dots);
      }
      assert stops[..|stops|] == stops;
    }

    /** The dot markers of the stops `done` are placed from handle `base`
        on, and their times and points are pooled. */
    ghost predicate Dotted(done: seq<Stop>, color: string, layers0: map<int, Layer>, base: int,
                           times0: seq<Time>, bounds0: Bounds, allTimes: seq<Time>, bounds: Bounds, dots: seq<int>)
      reads this
    {
      && dots == Range(base, |done|) && nextId == base + |done|
      && layers == Placed(layers0, DotLayers(done, color), base)
      && allTimes == times0 + NonEmpty(TimesOf(done))
      && bounds == ExtendAll(bounds0, CoordsOf(done))
    }

    /** One stop of `PlaceDots`. */
    method PlaceDot(stops: seq<Stop>, m: nat, color: string, ghost layers0: map<int, Layer>, ghost base: int,
                    ghost times0: seq<Time>, ghost bounds0: Bounds, allTimes0: seq<Time>, bounds1: Bounds, dots0: seq<int>)
      returns (allTimes: seq<Time>, bounds: Bounds, dots: seq<int>)
      requires m < |stops| && Dotted(stops[..m], color, layers0, base, times0, bounds0, allTimes0, bounds1, dots0)
      modifies this`layers, this`nextId
      ensures Dotted(stops[..m + 1], color, layers0, base, times0, bounds0, allTimes, bounds, dots)
    {
      var stop := stops[m];
      DotStep(stops, m, color, layers0, base, bounds0);
      RangeSnoc([], base, m);
      allTimes := allTimes0;
      if stop.time != [] {
        allTimes := allTimes + [stop.time];
      }
      bounds := Extend(bounds1, stop.at);
      var id := AddLayer(Marker(stop.at, StopDot(color)));
      dots := dots0 + [id];
    }

    // ----- The single-route view -----

    /** `renderSingleRoute(stops, center, routeName, color)` (the route
        name only reaches the popups). The stop list is rebuilt with one
        numbered item per stop and the route panels are shown; every stop
        gets a numbered marker, the route one path, and, with a centre and
        at least one stop, a connector from the centre to the last stop. The
        statistics show the route's stop count and its first and last
        times; the camera frames the centre and the stops. Nothing is
        cleared first (the caller does that), and the highlight state is
        untouched. */
    method RenderSingleRoute(stops: seq<Stop>, center: Option<Center>, color: string)
      requires Valid()
      modifies this`layers, this`nextId, this`currentMarkers, this`currentPolylines
      modifies this`stopList, this`routeDetailsShown, this`routeStatsShown, this`stats, this`lastFit
      ensures Valid() && CurrentLook() == old(CurrentLook())
      ensures Reg() == WithSingle(old(Reg()), stops, center, color)
      ensures stopList == StopItems(|stops|) && routeDetailsShown && routeStatsShown
      ensures stats == Some(SingleStats(stops))
      ensures lastFit == Some(FlyToBounds(screen, BoundsOf(CenterCoords(center) + CoordsOf(stops)), Padded(60.0)))
    {
      ghost var r0 := Reg();
      WithSingleInv(r0, stops, center, color);
      var bounds := DrawSingle(stops, center, color, r0);
      stats := Some(SingleStats(stops));
      lastFit := Some(FlyToBounds(screen, bounds, Padded(60.0)));
    }

    /** The panels, the stop loop and the lines of `renderSingleRoute`; the
        bounds it returns cover the centre and every stop. */
    method DrawSingle(stops: seq<Stop>, center: Option<Center>, color: string, ghost r0: Registry)
      returns (bounds: Bounds)
      requires Reg() == r0
      modifies this`layers, this`nextId, this`currentMarkers, this`currentPolylines
      modifies this`stopList, this`routeDetailsShown, this`routeStatsShown
      ensures Reg() == WithSingle(r0, stops, center, color)
      ensures stopList == StopItems(|stops|) && routeDetailsShown && routeStatsShown
      ensures bounds == BoundsOf(CenterCoords(center) + CoordsOf(stops))
    {
      bounds := StartPanels(center);
      var path;
      path, bounds := PlaceStops(stops, bounds);
      ExtendAllAppend(Empty, CenterCoords(center), CoordsOf(stops));
      DrawSingleLines(stops, path, center, color, r0);
    }

    /** The stop loop of `renderSingleRoute`: the path collects the stops'
        points, the bounds grow by each, and each stop gets a numbered
        marker on a fresh handle, tracked, and a numbered stop item. */
    method PlaceStops(stops: seq<Stop>, b0: Bounds) returns (path: seq<Coord>, bounds: Bounds)
      modifies this`layers, this`nextId, this`currentMarkers, this`stopList
      ensures path == CoordsOf(stops) && bounds == ExtendAll(b0, path)
      ensures nextId == old(nextId) + |stops|
      ensures layers == Placed(old(layers), NumberedLayers(stops, None), old(nextId))
      ensures currentMarkers == old(currentMarkers) + Range(old(nextId), |stops|)
      ensures stopList == old(stopList) + StopItems(|stops|)
    {
      path, bounds := [], b0;
      ghost var list0 := stopList;
      assert list0 + StopItems(0) == list0;
      for k := 0 to |stops|
        invariant Numbered(stops[..k], old(layers), old(nextId), old(currentMarkers), list0, b0, path, bounds)
      {
        path, bounds := PlaceStop(stops, k, old(layers), old(nextId), old(currentMarkers), list0, b0, path, bounds);
      }
      assert stops[..|stops|] == stops;
    }

    /** The numbered markers and stop items of the stops `done` are placed
        from handle `base` on, their points collected and bounded. */
    ghost predicate Numbered(done: seq<Stop>, layers0: map<int, Layer>, base: int, markers0: seq<int>,
                             list0: seq<ListEntry>, b0: Bounds, path: seq<Coord>, bounds: Bounds)
      reads this
    {
      && path == CoordsOf(done) && bounds == ExtendAll(b0, path)
      && nextId == base + |done|
      && layers == Placed(layers0, NumberedLayers(done, None), base)
      && currentMarkers == markers0 + Range(base, |done|)
      && stopList == list0 + StopItems(|done|)
    }

    /** One stop of `PlaceStops`. */
    method PlaceStop(stops: seq<Stop>, k: nat, ghost layers0: map<int, Layer>, ghost base: int, ghost markers0: seq<int>,
                     ghost list0: seq<ListEntry>, ghost b0: Bounds, path0: seq<Coord>, bounds0: Bounds)
      returns (path: seq<Coord>, bounds: Bounds)
      requires k < |stops| && Numbered(stops[..k], layers0, base, markers0, list0, b0, path0, bounds0)
      modifies this`layers, this`nextId, this`currentMarkers, this`stopList
      ensures Numbered(stops[..k + 1], layers0, base, markers0, list0, b0, path, bounds)
    {
      var stop := stops[k];
      StopStep(stops, k, layers0, base, list0);
      RangeSnoc(markers0, base, k);
      ExtendAllSnoc(b0, path0, stop.at);
      path := path0 + [stop.at];
      bounds := Extend(bounds0, stop.at);
      var marker := AddLayer(Marker(stop.at, StopNumber(k + 1, None)));
      currentMarkers := currentMarkers + [marker];
      stopList := stopList + [StopItem(k + 1)];
    }

    /** The lines of `renderSingleRoute` after the stop loop: the path,
        tracked as a polyline, and the connector, tracked with the markers,
        when there is a centre and a stop. */
    method DrawSingleLines(stops: seq<Stop>, path: seq<Coord>, center: Option<Center>, color: string, ghost r0: Registry)
      requires path == CoordsOf(stops)
      requires layers == Placed(r0.layers, NumberedLayers(stops, None), r0.nextId)
      requires nextId == r0.nextId + |stops| && currentMarkers == r0.markers + Range(r0.nextId, |stops|)
      requires currentPolylines == r0.polylines && centerMarkers == r0.centers
      requires routeLayerGroups == r0.groups && activeRouteIndex == r0.active
      modifies this`layers, this`nextId, this`currentMarkers, this`currentPolylines
      ensures Reg() == WithSingle(r0, stops, center, color)
    {
      SinglePlaced(r0.layers, stops, center, color, r0.nextId);
      var line := AddLayer(Path(path, color, SingleStyle, SingleDash));
      currentPolylines := currentPolylines + [line];
      if center.Some? && |path| > 0 {
        var conn := AddLayer(Path([center.value.at, path[|path| - 1]], ConnectorColor, ConnectorStyle, ConnectorDash));
        currentMarkers := currentMarkers + [conn];
      }
    }

    // ----- The highlight -----

    /** The reset pass of `toggleRouteHighlight`: every group in turn gets
        the reset path style, loses its numbered markers (removed from the
        map), takes the reset dot opacity and is deactivated and
        collapsed. */
    method ResetGroups(deselecting: bool)
      modifies this`layers, this`routeLayerGroups
      ensures layers == ResetLayers(old(layers), old(routeLayerGroups), deselecting)
      ensures routeLayerGroups == ClearedGroups(old(routeLayerGroups), deselecting)
    {
      var groups := routeLayerGroups;
      for j := 0 to |groups|
        invariant layers == ResetLayers(old(layers), groups[..j], deselecting)
        invariant routeLayerGroups == ClearedGroups(groups[..j], deselecting) + groups[j..]
      {
        ResetStep(old(layers), groups, j, deselecting);
        var g := groups[j];
        layers := Restyle(layers, g.polyline, ResetStyle(deselecting));
        RemoveLayers(g.numberedMarkers);
        routeLayerGroups := routeLayerGroups[j := Cleared(g, deselecting)];
      }
      assert groups[..|groups|] == groups;
    }

    /** Adds the layers `ls` to the map in order, on fresh handles. */
    method AddLayers(ls: seq<Layer>) returns (ids: seq<int>)
      modifies this`layers, this`nextId
      ensures ids == Range(old(nextId), |ls|) && nextId == old(nextId) + |ls|
      ensures layers == Placed(old(layers), ls, old(nextId))
    {
      ids := [];
      for k := 0 to |ls|
        invariant ids == Range(old(nextId), k) && nextId == old(nextId) + k
        invariant layers == Placed(old(layers), ls[..k], old(nextId))
      {
        PlacedSnoc(old(layers), ls[..k], ls[k], old(nextId));
        assert ls[..k + 1] == ls[..k] + [ls[k]];
        RangeSnoc([], old(nextId), k);
        var id := AddLayer(ls[k]);
        ids := ids + [id];
      }
      assert ls[..|ls|] == ls;
    }

    /** `toggleRouteHighlight(i)`. Every group is first reset (to the
        baseline when `i` is the highlighted group, dimmed otherwise), its
        numbered markers removed. Then either nothing is highlighted, or
        group `i` is: its path at the peak style, its dots fully shown, a
        numbered marker per stop, its header active and its stops expanded,
        and the camera frames its stops. The invariant is kept, the
        highlight state moves as the toggle specification says, and the
        panels and the statistics are untouched. */
    method ToggleRouteHighlight(i: int)
      requires Valid() && 0 <= i < |routeLayerGroups|
      modifies this`layers, this`nextId, this`routeLayerGroups, this`activeRouteIndex, this`lastFit
      ensures Valid()
      ensures CurrentLook() == Toggle(old(CurrentLook()), i)
      ensures old(activeRouteIndex) == i ==> ToggledOff(old(Reg()), i, Reg()) && lastFit == old(lastFit)
      ensures old(activeRouteIndex) != i ==>
        && ToggledOn(old(Reg()), i, Reg())
        && lastFit == Some(FlyToBounds(screen, BoundsOf(CoordsOf(old(routeLayerGroups)[i].stops)), Padded(80.0)))
    {
      if activeRouteIndex == i {
        Deselect(i);
      } else {
        Select(i);
      }
    }

    /** `toggleRouteHighlight(i)` on the highlighted group. */
    method Deselect(i: int)
      requires Valid() && 0 <= i < |routeLayerGroups| && activeRouteIndex == i
      modifies this`layers, this`routeLayerGroups, this`activeRouteIndex
      ensures Valid()
      ensures CurrentLook() == Toggle(old(CurrentLook()), i)
      ensures ToggledOff(old(Reg()), i, Reg())
    {
      ghost var r0 := Reg();
      ResetGroups(true);
      activeRouteIndex := -1;
      ToggleOffBuilt(r0, i, Reg());
      ToggleOffStep(r0, i, Reg());
    }

    /** `toggleRouteHighlight(i)` on a group that is not highlighted. */
    method Select(i: int)
      requires Valid() && 0 <= i < |routeLayerGroups| && activeRouteIndex != i
      modifies this`layers, this`nextId, this`routeLayerGroups, this`activeRouteIndex, this`lastFit
      ensures Valid()
      ensures CurrentLook() == Toggle(old(CurrentLook()), i)
      ensures ToggledOn(old(Reg()), i, Reg())
      ensures lastFit == Some(FlyToBounds(screen, BoundsOf(CoordsOf(old(routeLayerGroups)[i].stops)), Padded(80.0)))
    {
      ghost var r0 := Reg();
      ResetGroups(false);
      HighlightGroup(i);
      ghost var r1 := Reg();
      assert ToggledOn(r0, i, r1) by {
        ToggleOnBuilt(r0, i, r1);
      }
      ToggleOnStep(r0, i, r1);
    }

    /** The highlight half of `toggleRouteHighlight(i)` after the reset:
        group `i` becomes the highlighted one, its path takes the peak
        style, its dots are fully shown, its numbered markers are added on
        fresh handles, its header is activated and expanded, and the camera
        frames its stops. */
    method HighlightGroup(i: int)
      requires 0 <= i < |routeLayerGroups|
      modifies this`layers, this`nextId, this`routeLayerGroups, this`activeRouteIndex, this`lastFit
      ensures var g := old(routeLayerGroups)[i];
        && activeRouteIndex == i
        && nextId == old(nextId) + |g.stops|
        && layers == AddNumbered(Restyle(old(layers), g.polyline, Peak), g.stops, old(nextId), Some(g.color))
        && routeLayerGroups == old(routeLayerGroups)[i := Highlighted(g, Range(old(nextId), |g.stops|))]
        && lastFit == Some(FlyToBounds(screen, BoundsOf(CoordsOf(g.stops)), Padded(80.0)))
    {
      activeRouteIndex := i;
      var g := routeLayerGroups[i];
      layers := Restyle(layers, g.polyline, Peak);
      var ids := AddLayers(NumberedLayers(g.stops, Some(g.color)));
      routeLayerGroups := routeLayerGroups[i := Highlighted(g, ids)];
      lastFit := Some(FlyToBounds(screen, BoundsOf(CoordsOf(g.stops)), Padded(80.0)));
    }
  }
}
