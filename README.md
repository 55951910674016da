# Shuttle map page: route layers and highlight state

This project models the page controller of a shuttle-route map (`app.js`).
The page loads one data set: facilities, each with an optional centre,
shifts, routes and stops. It draws three kinds of view on a Leaflet map and
keeps a registry of what it drew:

- **All centres** (`showAllCenters`): one pin per facility that has a centre.
  The statistics panel shows the count and the camera frames every pin.
- **Multi-route view** (`showMultiRoute`): every route of the shifts in scope.
  Each route gets a dashed path in the next palette colour, one dot per stop,
  a sidebar header and an entry in the route registry (`routeLayerGroups`).
  The statistics pool all stops and their departure times.
- **Single-route view** (`renderSingleRoute`): numbered markers, one path
  and, when there is a centre and at least one stop, a connector from the
  centre to the last stop.

In the multi-route view, clicking a route header runs
`toggleRouteHighlight`. It resets every route to a common style and removes
their numbered markers. Then it either leaves nothing highlighted (the route
was already highlighted) or highlights the clicked route: peak style, full
dots, a numbered marker per stop, an expanded stop list, and the camera on
its stops.

The model is split into these modules:

- `Dataset`: the data set and its lookups and summaries.
- `Times`: time strings and their sort.
- `Geo`: bounds.
- `Viewport`: `mapFlyToBounds` and the mobile bottom-sheet padding.
- `Render`: the palette, the layers, the sidebar entries and the statistics.
- `Highlight`: the highlight state machine on values.
- `PageState`: the page state as one value, with its invariant and the
  value-level effect of every drawing step.
- `App`: class `MapView`, with the page's module-level variables as fields
  and one method per operation.

Map-library handles are integers from an allocator (`nextId`). The map is
`layers`, a map from handle to the layer drawn there. The invariant
`PageState.Inv` says four things:

- The map holds exactly the tracked handles: route markers, route paths, the
  highlighted route's numbered markers, and the centre pins. Nothing leaks.
- Every registry entry is drawn as its route says.
- No two entries share a path.
- The highlight looks are one of the states the toggle produces.

Every page operation (`ClearRoute`, `ClearAll`, `AddCenterMarker`,
`ShowAllCenters`, `ShowMultiRoute`, `RenderSingleRoute`,
`ToggleRouteHighlight`) keeps the invariant. The helper methods they are
built from state their effect field by field instead. Each page operation's
effect is stated against the old state in one of three ways:

- as a registry-valued function of it: `DrawPlan`, `WithRoute`, `WithSingle`
  or `ClearedReg`;
- for the toggle, as a relation between the old and new registry: the
  ghost predicates `ToggledOn` and `ToggledOff`;
- or as an explicit registry or layer-map expression (`ClearAll`,
  `AddCenterMarker`, `ShowAllCenters`).

The properties are proved about those functions and relations.

Highlighting a route dims every other route to (opacity 0.12, weight 2),
app.js:528-531.

## Model

| member | source | states |
|---|---|---|
| `App.MapView.constructor` | app.js:1-11 | After start-up nothing is drawn, nothing is tracked, nothing is highlighted, the panels are hidden and the invariant holds. |
| `App.MapView.AddLayer` | app.js:429-431 | `addTo(map)` puts the layer on a fresh handle, one above every handle used so far, and changes nothing else on the map. |
| `App.MapView.RemoveLayers` | app.js:694 | `removeLayer` over a handle list removes exactly those handles from the map. |
| `App.MapView.RemoveRouteLayers` | app.js:694-699 | The removal half of `clearRoute` removes exactly the route markers, the route paths and every group's numbered markers. |
| `App.MapView.ForgetRoutes` | app.js:695-704 | The bookkeeping half of `clearRoute` empties the route collections, clears the highlight and hides both panels. |
| `App.MapView.ClearRoute` | app.js:693-705 | `clearRoute` keeps the invariant and leaves exactly the centre pins on the map. Its result is `ClearedReg` of the old state. |
| `App.MapView.ClearAll` | app.js:707-711 | `clearAll` leaves the map empty and tracks nothing. Handle allocation goes on from where it was. |
| `App.MapView.AddCenterMarker` | app.js:671-684 | The old centre pins are removed and one new pin is placed at the centre on a fresh handle. The invariant and the highlight state are kept. |
| `App.MapView.ShowAllCenters` | app.js:350-382 | The map holds exactly one pin per facility with a centre, in data order, on consecutive fresh handles. The count is the number of such facilities, and the camera frames exactly their positions with 60-pixel padding. |
| `App.MapView.PinCenters` | app.js:353-381 | On an emptied page, pins every site, sets the centre statistics and fits the camera to the sites. |
| `App.MapView.PlaceCenters` | app.js:355-378 | The loop over facilities skips those without a centre. For the rest it places one pin each on consecutive handles, counts them and extends the bounds with their positions. |
| `App.MapView.PinCenter` | app.js:356-377 | One iteration of the facility loop extends the placed pins, the count and the bounds from the first `k` facilities to the first `k+1`. |
| `App.MapView.ShowMultiRoute` | app.js:385-518 | An unknown code leaves exactly the cleared page. Otherwise the panels are shown and one of two outcomes follows. A filter naming no shift draws nothing. Any other filter draws the plan of the shifts in scope (`DrawPlan`) and builds the sidebar, pooled statistics and camera request. The centre pins stay and the invariant holds. |
| `App.MapView.ShowFacility` | app.js:390-518 | The known-facility part of `showMultiRoute`: the same outcomes, from the cleared registry. |
| `App.MapView.OpenPanels` | app.js:390-397 | Empties the stop list and shows both panels. The bounds start with the facility's centre, if it has one. |
| `App.MapView.StartPanels` | app.js:608-614 | The panel set-up shared by both route views: the stop list emptied, the panels shown, and the bounds holding the centre if there is one. |
| `App.MapView.DrawScope` | app.js:399-518 | Draws the plan of the shifts in scope and builds the sidebar, with shift section headers only when there is no filter. The statistics are `MultiStats` of the plan, and the camera frames the centre and every stop. |
| `App.MapView.DrawShifts` | app.js:409-512 | The shift loop leaves the registry at `DrawPlan` of the whole plan and the stop list at `MultiSidebar`. The totals hold the stop count, the pooled times and the bounds of every stop. |
| `App.MapView.DrawShift` | app.js:409-512 | One shift adds its section header (when headers are shown) and one route header per route. The registry advances by that shift's routes, with the colour index continuing. |
| `App.MapView.DrawRoutes` | app.js:418-512 | The route loop of a shift draws route `k` of the pass in `RouteColor(k)`. It appends one header per route, and the colour index advances by the number of routes. |
| `App.MapView.DrawNext` | app.js:419-512 | One iteration of the route loop picks the next palette colour, draws the route and appends its header. |
| `App.MapView.DrawRoute` | app.js:421-511 | One route: the registry becomes `WithRoute` of the old one. Its times join the pool and its points extend the bounds. |
| `App.MapView.PlaceDots` | app.js:423-447 | The per-stop passes place one dot per stop on consecutive fresh handles. They pool the non-empty times and extend the bounds with every stop. |
| `App.MapView.PlaceDot` | app.js:434-447 | One stop of the per-stop passes extends the dots, the pool and the bounds by that stop. |
| `App.MapView.RenderSingleRoute` | app.js:605-669 | The registry becomes `WithSingle` of the old one. The stop list holds one item per stop, numbered from 1, and the statistics are those of the stop list. The camera frames the centre and every stop. The invariant and the highlight state are kept. |
| `App.MapView.DrawSingle` | app.js:606-665 | The panels, the stop loop and the lines of `renderSingleRoute`. The bounds cover the centre and every stop. |
| `App.MapView.PlaceStops` | app.js:616-652 | The stop loop collects the path and the bounds. It places numbered markers on consecutive fresh handles, tracks them as route markers and appends one numbered stop item per stop. |
| `App.MapView.PlaceStop` | app.js:617-651 | One stop of the stop loop extends the path, the bounds, the markers and the stop list by that stop. |
| `App.MapView.DrawSingleLines` | app.js:654-665 | The path through every stop is added and tracked as a polyline. The connector is added and tracked as a marker only when there is a centre and the path is non-empty. |
| `App.MapView.ResetGroups` | app.js:526-548 | The reset pass restyles every path to the baseline (deselecting) or dimmed style and sets every group's dot opacity. It removes every group's numbered markers, deactivates and collapses every header, and changes nothing else. |
| `App.MapView.AddLayers` | app.js:571-586 | The layers are added in order on consecutive fresh handles. |
| `App.MapView.ToggleRouteHighlight` | app.js:522-603 | The invariant is kept and the highlight state moves exactly as `Toggle` says. On the highlighted route the result is the `ToggledOff` state and the camera does not move. On any other route it is the `ToggledOn` state and the camera frames that route's stops with 80-pixel padding. Only the entries' paths and numbered markers change; every other layer, including a tracked path that belongs to no entry, is kept. |
| `App.MapView.Deselect` | app.js:522-553 | Toggling the highlighted route resets every entry's path to the baseline, removes its numbered markers and leaves nothing highlighted. Every remaining layer that is not an entry's path keeps its value. |
| `App.MapView.Select` | app.js:522-602 | Toggling another route dims every entry's path and then highlights that route, with one numbered marker per stop on fresh handles. Every older layer that is not an entry's path keeps its value. |
| `App.MapView.HighlightGroup` | app.js:556-602 | Route `i` becomes the highlighted one: peak style, numbered markers on fresh handles, header active and expanded, and the camera on its stops. |
| `Dataset.Lookup` | app.js:387-388 | A property read on an object held as its entries finds a value exactly when some entry has the key. The value is that of the first such entry. |
| `Dataset.LookupUnique` | app.js:387-388 | With distinct keys, as in parsed JSON, the lookup returns the one entry that has the key. |
| `Dataset.FindFacility` | app.js:387-388 | The lookup finds a facility exactly when one has that code, and what it returns has that code. |
| `Dataset.FindShift` | app.js:405-407 | The lookup finds a shift exactly when one has that name, and what it returns has that name. |
| `Dataset.Scope` | app.js:405-407 | An absent or empty filter keeps every shift. A non-empty filter keeps exactly the shift it names, and fails exactly when no shift has that name. |
| `Dataset.RouteCountIsAllRoutes` | app.js:363 | The `reduce` over shifts counts every route of every shift. |
| `Dataset.SummaryCounts` | app.js:361-363 | A centre popup's counts are the number of shifts, of routes and of stops of the facility. |
| `Dataset.SitesSound` | app.js:355-378 | Every pinned site comes from a facility with a centre, at that centre, with that facility's summary. |
| `Dataset.SitesComplete` | app.js:355-378 | Every facility with a centre is pinned. |
| `Dataset.PlanListsAllRoutes` | app.js:409-418 | The multi-route pass visits every route of every shift in scope, in order, once. |
| `Dataset.TotalStopsIsAllStops` | app.js:422 | The running stop total is the number of stops of every route in scope. |
| `Dataset.SumMatchesFlat` | app.js:422 | Summing the stop counts route by route equals counting the flattened stop list. |
| `Dataset.PooledTimesAreStopTimes` | app.js:423 | A time is pooled exactly when it is non-empty and some stop in scope departs at it. |
| `Times.LexLeReflexive` | app.js:516 | The default string order used by `sort()` is reflexive. |
| `Times.LexLeAntisymmetric` | app.js:516 | The string order is antisymmetric. |
| `Times.LexLeTransitive` | app.js:516 | The string order is transitive. |
| `Times.LexLeTotal` | app.js:516 | The string order is total. |
| `Times.Insert` | app.js:516 | Inserting a time adds exactly that element to the multiset. |
| `Times.InsertSorted` | app.js:516 | Inserting into a sorted list keeps it sorted. |
| `Times.SortTimes` | app.js:516 | `allTimes.sort()` yields a sorted permutation of the pool. |
| `Times.NonEmpty` | app.js:423 | Only the non-empty times are pooled: an element is kept exactly when it is in the input and non-empty. |
| `Times.NonEmptyAppend` | app.js:423 | Filtering a concatenation is concatenating the filtered parts. |
| `Times.SortedEnds` | app.js:515-517 | In a sorted non-empty list the first element is below every element and the last is above every element. |
| `Times.SortKeepsElements` | app.js:515-516 | Sorting keeps the length and the elements. |
| `Times.FirstLastAreMinMax` | app.js:515-517 | The statistics' first and last times are the least and the greatest pooled time, or `-` when the pool is empty. |
| `Geo.Extend` | app.js:359 | `bounds.extend(p)` contains `p` and everything the old bounds contained. |
| `Geo.ExtendAllCovers` | app.js:427 | Extending by a list of points contains every one of them and everything the old bounds contained. |
| `Geo.ExtendAllAppend` | app.js:397-427 | Extending by two lists in turn is extending by their concatenation. |
| `Geo.ExtendAllSnoc` | app.js:427 | Extending by one more point is one more `extend`. |
| `Geo.BoundsOfTight` | app.js:599-600 | `L.latLngBounds(path)` is empty exactly when the path is, contains every point, and lies inside any box that contains the points. |
| `Geo.WithinBox` | app.js:427 | Extending a box-contained bounds by box-contained points stays within the box. |
| `Viewport.FlyToBounds` | app.js:269-281 | The request keeps the bounds. On desktop it keeps the options. On mobile the bottom padding grows by the sheet height. |
| `Viewport.SheetShiftsOnlyBottom` | app.js:272-276 | On a mobile screen the top-left padding and the bottom-right x padding are the requested ones, and the bottom-right y padding grows by exactly half the window height. With a non-negative window height it is never smaller than requested. |
| `Highlight.ToggleIsConsistent` | app.js:522-603 | From any state a toggle reaches a consistent state. It deselects the highlighted route or highlights the clicked one, and no stop count changes. |
| `Highlight.AtMostOneHighlighted` | app.js:522-603 | In a consistent state only the highlighted route is active, expanded or carries numbered markers. |
| `Highlight.NoneHighlightedIsBaseline` | app.js:526-553 | With nothing highlighted, every route's look is fixed by its stop count. |
| `Highlight.ToggleTwiceRestores` | app.js:522-603 | Toggling a route twice from the none-highlighted state returns to that state. |
| `Highlight.ToggleSwitches` | app.js:522-603 | Toggling `i` then `j` leaves `j` highlighted and `i` dimmed, collapsed and without numbered markers. |
| `Render.PaletteDistinct` | app.js:14-18 | The palette has 15 colours, all different. |
| `Render.RouteColorCycle` | app.js:419 | Route colours repeat with period 15, and any 15 consecutive routes get distinct colours. |
| `Render.SingleStats` | app.js:667 | The single-route statistics count the stops. First and last are the first and last stop's times, or `-` when there is no stop or that stop's time is empty. |
| `Render.MultiStatsMeaning` | app.js:515-517 | The multi-route statistics count every stop in scope and frame every scheduled time between first and last, or show `-` when no time is scheduled. |
| `Render.StopItemsAt` | app.js:616-651 | The single-route stop list numbers its items 1 to n. |
| `Render.RouteHeadersAt` | app.js:450-483 | The route headers of a pass carry consecutive route indices. |
| `Render.ShiftEntriesShape` | app.js:409-485 | One shift's sidebar part is, as a multiset, its route headers plus its section header when headers are shown. Each route index from the pass's running count on appears exactly once, and no other index appears. |
| `Render.ShiftEntriesSplit` | app.js:409-485 | A shift's sidebar part is its optional section header followed by its route headers. |
| `Render.MultiSidebarSnoc` | app.js:408-485 | One more shift appends its sidebar part, indexed after the routes before it. |
| `Render.MultiSidebarShape` | app.js:408-512 | The sidebar is, as a multiset, one route header per planned route plus one section header per shift when unfiltered, and nothing else. Each route index below the number of routes appears exactly once, and no other index appears. |
| `Render.MultiSidebarMultiset` | app.js:408-485 | The sidebar's entries are exactly the route headers `0..n-1` plus the section headers, in some order. |
| `Render.RouteHeadersCount` | app.js:450-483 | A run of route headers from `base` holds each index in its range exactly once and no other. |
| `Render.SectionHeaders` | app.js:409-416 | There is one section header per shift when headers are shown and none otherwise. Header k names shift k and carries its route count. |
| `PageState.OnlyActiveNumbered` | app.js:526-548 | Under the invariant only the highlighted route holds numbered markers. |
| `PageState.ClearedFacts` | app.js:693-705 | Clearing keeps the invariant, leaves exactly the centre pins on the map, and clearing twice is clearing once. |
| `PageState.ClearedInv` | app.js:707-711 | A page with only centre pins, all allocated, satisfies the invariant. |
| `PageState.RouteLayersKept` | app.js:693-705 | Route drawings and highlight looks survive any change that keeps the route-level layers and their tracking. |
| `PageState.DropCenters` | app.js:709-710 | Removing the centre pins keeps the invariant and the highlight state. |
| `PageState.AddCenter` | app.js:371-377 | Adding a centre pin on a fresh handle keeps the invariant and the highlight state. |
| `PageState.ReplaceCenters` | app.js:671-684 | `addCenterMarker` keeps the invariant and the highlight state. |
| `PageState.PinsPlaced` | app.js:355-378 | Pins placed on an empty map from a fresh handle form a valid page, each pin where it was placed. |
| `PageState.AddRouteLayers` | app.js:429-511 | Adding new route layers on fresh handles, tracked as markers or paths, keeps the invariant and the highlight state. |
| `PageState.AddGroup` | app.js:489-499 | Registering a drawn route with nothing highlighted keeps the invariant. |
| `PageState.WithRouteInv` | app.js:418-512 | Drawing one more route with nothing highlighted keeps the invariant. |
| `PageState.RouteLayersInv` | app.js:429-511 | The layer part of drawing a route keeps the invariant. |
| `PageState.NewGroupDrawn` | app.js:426-499 | A newly drawn route's entry is drawn as its route says, with its path at the baseline style. |
| `PageState.DrawPlan` | app.js:418-512 | A pass registers one entry per planned route. |
| `PageState.DrawPlanInv` | app.js:399-512 | A pass started with nothing highlighted keeps the invariant, the centre pins and the none-highlighted state. |
| `PageState.DrawPlanGroups` | app.js:418-499 | The entries are in plan order. The `k`-th is route `k` of the plan in `RouteColor(k)`, not highlighted, with full dots and no numbered markers. |
| `PageState.DrawPlanTracks` | app.js:489-511 | After a pass the tracked paths and markers are exactly the entries' paths and dots, in order. |
| `PageState.WithRouteTracks` | app.js:489-511 | Drawing one route appends its entry and tracks its path and dots in the entry's order. |
| `PageState.PlanSnoc` | app.js:418-512 | One more planned route advances the registry, the stop count, the time pool and the bounds by that route. |
| `PageState.WithSingleInv` | app.js:605-669 | Drawing a single route keeps the invariant and the highlight state. |
| `PageState.SingleDrawn` | app.js:616-665 | The single route has numbered markers 1..n at its stops, one path through them, and a connector exactly when there is a centre and a stop. Nothing already on the map changes. |
| `PageState.SinglePlaced` | app.js:616-665 | The single-route layers are the numbered markers, then the path, then the connector when there is one. |
| `PageState.Restyle` | app.js:528-531 | `setStyle` restyles one path and leaves every other handle alone. |
| `PageState.ResetLayersKeys` | app.js:540-541 | The reset pass removes exactly the numbered markers of the entries. |
| `PageState.ResetLayersOthers` | app.js:526-548 | The reset pass leaves every layer that is not an entry's path as it was. |
| `PageState.ResetLayersPaths` | app.js:528-531 | The reset pass gives every entry's path the reset style. |
| `PageState.ResetFacts` | app.js:526-548 | Under the invariant the reset pass removes exactly the highlighted route's numbered markers, resets every entry's path, and keeps every other layer, including tracked paths that belong to no entry. |
| `PageState.NumberedIdsOfOne` | app.js:540-541 | When only one entry holds numbered markers, they are all the numbered markers there are. |
| `PageState.PlacedSpec` | app.js:571-586 | Layers placed above every used handle add exactly the new handles, in order, and keep the old ones. |
| `PageState.PlacedAppend` | app.js:616-665 | Placing two batches in turn is placing their concatenation. |
| `PageState.AddNumberedSpec` | app.js:571-586 | The highlight adds exactly one numbered marker per stop on fresh handles and keeps the rest of the map. |
| `PageState.GroupRedrawn` | app.js:556-586 | A registry entry whose path is only restyled, whose dots are kept and whose numbered markers are placed is still drawn, with the look its fields say. |
| `PageState.ToggleOffStep` | app.js:522-553 | The deselect step keeps the invariant and moves the highlight state as `Toggle` says. |
| `PageState.ToggleOnStep` | app.js:522-602 | The highlight step keeps the invariant and moves the highlight state as `Toggle` says. |
| `PageState.ToggleOnGroup` | app.js:526-586 | After highlighting, each entry is still drawn and looks as `Toggle` says. |
| `PageState.ToggleOffBuilt` | app.js:526-553 | The reset pass followed by deselecting is the `ToggledOff` step, which changes only the entries' paths and numbered markers. |
| `PageState.ToggleOnBuilt` | app.js:526-586 | The reset pass, the restyle and the numbered markers together are the `ToggledOn` step, which changes only the entries' paths, removes the old numbered markers and adds the new ones. |
| `PageState.HighlightLayers` | app.js:556-586 | The map side of the highlight: the entries' paths restyled, the old numbered markers gone, the new ones placed on fresh handles, and every other old layer kept. |

## Left out

- The Leaflet map, the DOM, popups, icon sizes, `zIndexOffset`, `bringToFront` and `scrollIntoView` are left out. Layers are values on integer handles, and sidebar entries are `SectionHeader`, `RouteHeader` and `StopItem` values without their HTML.
- Camera animation durations are left out. `mapFlyToBounds` is modelled as the last fit request issued, with its padding and bottom-sheet adjustment. What Leaflet does with empty bounds is not modelled.
- `mapFlyTo`, `loadData`, geolocation, the bottom sheet (`minimizeMobileSheet`, `setupMobileBottomSheet`, `updateMiniInfo`), `showCenterInfo`/`hideCenterInfo`, the facility search, `populateFCs` and the select handlers are user-interface plumbing outside this model. The data set and the screen size are constructor parameters.
- The order of `Object.keys`/`Object.entries` is taken to be the data's own order. The JavaScript rule that integer-like keys come first in ascending order is not modelled.
- Coordinates are exact reals, not floating point.
- The data set may hold two facilities with one code, or two shifts with one name, which parsed JSON cannot (`JSON.parse` keeps the last value of a repeated key). Lookups then return the first such entry (`Dataset.Lookup`); with distinct keys (`Dataset.UniqueKeys`) that is the only one (`Dataset.LookupUnique`). The model does not require distinct keys, because no operation depends on them.
- `allTimes.sort()` compares UTF-16 code units, while the model compares characters (`Times.LexLe`). The two orders differ only for characters above U+FFFF, which stop times such as "08:40" do not contain.
- Dot-marker opacity is one field per registry entry rather than one per marker element, because the page always sets all dots of a route together. The `if (el)` guard for markers without a rendered element is not modelled.
- Route names appear only in popups and sidebar HTML. They are kept in the registry entry but not in any layer.
- The three per-stop passes of a route in `showMultiRoute` (times, bounds, dots) are fused into one loop. They touch disjoint state, so the result is the same.
- The route header's meta text (stop count and time span) and the stop items nested in a route container are not modelled. The sidebar holds one `RouteHeader` per route.
- `App.MapView.RenderSingleRoute` does not clear the previous route itself. The page's only caller clears first (app.js:177). The model keeps whatever was there and proves the invariant from any valid state.
- `App.MapView.ShowMultiRoute` models the exception thrown for a shift filter naming no shift as the outcome `MissingShift`. The state left behind is the one at the point of the throw.
- In `showAllCenters` the statistics panel is updated while `route-stats` stays hidden, as the code does. No line re-shows it.
