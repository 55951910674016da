/** What the renderers put on the map and in the side panel, as values: the
    route palette, the summary statistics, the layers handed to the map
    library, the sidebar entries and the per-route registry record. */
module Render {
  import opened Wrappers
  import opened Seqs
  import opened Geo
  import opened Times
  import opened Dataset
  import opened Highlight

  // ----- Colours -----

  /** `ROUTE_COLORS`. */
  const RouteColors: seq<string> := [
    "#4F46E5", "#F59E0B", "#10B981", "#EF4444", "#8B5CF6",
    "#EC4899", "#06B6D4", "#F97316", "#14B8A6", "#6366F1",
    "#A855F7", "#22D3EE", "#FB923C", "#34D399", "#F43F5E"
  ]

  /** Colour of the centre-to-terminus connector. */
  const ConnectorColor := "#EF4444"

  /** `ROUTE_COLORS[colorIndex % ROUTE_COLORS.length]`. */
  function RouteColor(k: nat): string
  {
    RouteColors[k % |RouteColors|]
  }

  /** The palette has no repeated colour. */
  lemma PaletteDistinct()
    ensures |RouteColors| == 15
    ensures forall a, b :: 0 <= a < b < |RouteColors| ==> RouteColors[a] != RouteColors[b]
  {
    forall a, b | 0 <= a < b < |RouteColors|
      ensures RouteColors[a] != RouteColors[b]
    {
      // the colours already differ in their first two hex digits
      assert a in {0, 1, 2, 3, 4, 5, 6, 7, 8, 9, 10, 11, 12, 13, 14};
      assert b in {1, 2, 3, 4, 5, 6, 7, 8, 9, 10, 11, 12, 13, 14};
      assert RouteColors[a][1] != RouteColors[b][1] || RouteColors[a][2] != RouteColors[b][2];
    }
  }

  /** Colours repeat with period 15, and any 15 consecutive routes of one
      pass get 15 different colours. */
  lemma {:induction false} RouteColorCycle(j: nat, k: nat)
    ensures RouteColor(j + |RouteColors|) == RouteColor(j)
    ensures j < k < j + |RouteColors| ==> RouteColor(j) != RouteColor(k)
  {
    PaletteDistinct();
    assert (j + 15) % 15 == j % 15;
    if j < k < j + 15 {
      assert j % 15 != k % 15;
    }
  }

  // ----- Summary statistics -----

  /** The four texts of the statistics panel (`updateStats`). */
  datatype Stats = Stats(count: int, first: string, last: string, countLabel: string)

  const StopsLabel := "정류장"

  /** Statistics after a multi-route pass: the pooled stop count and the
      first and last of the sorted non-empty stop times. */
  function MultiStats(plan: seq<Planned>): Stats
  {
    var sorted := SortTimes(PooledTimes(plan));
    Stats(TotalStops(plan), FirstOrDash(sorted), LastOrDash(sorted), StopsLabel)
  }

  /** Statistics of a single route: its stop count and its first and last
      stops' times (`stops[0]?.time || '-'`). */
  function SingleStats(stops: seq<Stop>): (s: Stats)
    ensures s.count == |stops|
    ensures stops == [] ==> s.first == Dash && s.last == Dash
    ensures stops != [] && stops[0].time != [] ==> s.first == stops[0].time
    ensures stops != [] && stops[|stops| - 1].time != [] ==> s.last == stops[|stops| - 1].time
    ensures stops != [] && stops[0].time == [] ==> s.first == Dash
    ensures stops != [] && stops[|stops| - 1].time == [] ==> s.last == Dash
  {
    var first := if |stops| > 0 && stops[0].time != [] then stops[0].time else Dash;
    var last := if |stops| > 0 && stops[|stops| - 1].time != [] then stops[|stops| - 1].time else Dash;
    Stats(|stops|, first, last, StopsLabel)
  }

  /** Statistics of the all-centres view. */
  function CentersStats(count: nat): Stats
  {
    Stats(count, "전체", "센터", "센터 수")
  }

  /** The multi-route statistics report the stop count of every drawn route
      and, as first and last, the earliest and latest non-empty stop time
      of any drawn route, or the dash when no stop has a time. */
  lemma MultiStatsMeaning(plan: seq<Planned>)
    ensures MultiStats(plan).count == TotalStops(plan)
    ensures (forall t :: !Scheduled(plan, t) || t == []) ==>
      MultiStats(plan).first == Dash && MultiStats(plan).last == Dash
    ensures forall t :: t != [] && Scheduled(plan, t) ==>
      && Scheduled(plan, MultiStats(plan).first) && MultiStats(plan).first != []
      && Scheduled(plan, MultiStats(plan).last) && MultiStats(plan).last != []
      && LexLe(MultiStats(plan).first, t) && LexLe(t, MultiStats(plan).last)
  {
    var pool := PooledTimes(plan);
    forall t | t in pool ensures t != [] {
      PooledTimesAreStopTimes(plan, t);
    }
    FirstLastAreMinMax(pool);
    if pool == [] {
      forall t | t != [] && Scheduled(plan, t) ensures false {
        PooledTimesAreStopTimes(plan, t);
      }
    } else {
      PooledTimesAreStopTimes(plan, FirstOrDash(SortTimes(pool)));
      PooledTimesAreStopTimes(plan, LastOrDash(SortTimes(pool)));
      forall t | t != [] && Scheduled(plan, t)
        ensures LexLe(MultiStats(plan).first, t) && LexLe(t, MultiStats(plan).last)
      {
        PooledTimesAreStopTimes(plan, t);
      }
    }
  }

  // ----- Map layers -----

  /** What a marker shows: a small dot in the route colour, a numbered
      badge (with the route colour when drawn by the highlight), or a
      centre pin whose popup may carry the facility summary. */
  datatype MarkerKind =
    | StopDot(color: string)
    | StopNumber(number: nat, badgeColor: Option<string>)
    | CenterPin(summary: Option<Summary>)

  /** A layer added to the map: a marker or a dashed path. */
  datatype Layer =
    | Marker(at: Coord, kind: MarkerKind)
    | Path(points: seq<Coord>, color: string, style: PathStyle, dash: string)

  function CoordsOf(stops: seq<Stop>): seq<Coord>
  {
    seq(|stops|, i requires 0 <= i < |stops| => stops[i].at)
  }

  /** The pins of the all-centres view, each with its popup summary. */
  function CenterPins(sites: seq<Site>): seq<Layer>
  {
    seq(|sites|, k requires 0 <= k < |sites| => Marker(sites[k].at, CenterPin(Some(sites[k].summary))))
  }

  /** The dot markers of a route in the multi-route view: one per stop,
      at the stop, in the route colour. */
  function DotLayers(stops: seq<Stop>, color: string): seq<Layer>
  {
    seq(|stops|, k requires 0 <= k < |stops| => Marker(stops[k].at, StopDot(color)))
  }

  /** The points of a planned route's path. */
  function PlannedCoords(p: Planned): seq<Coord>
  {
    CoordsOf(p.route.stops)
  }

  /** A centre, when there is one, as the points a view's bounds start
      from. */
  function CenterCoords(center: Option<Center>): seq<Coord>
  {
    if center.Some? then [center.value.at] else []
  }

  const MultiDash := "10, 6"
  const SingleDash := "12, 8"
  const ConnectorDash := "6, 10"
  const SingleStyle := PathStyle(0.7, 4)
  const ConnectorStyle := PathStyle(0.4, 3)

  // ----- Sidebar -----

  /** An entry of the stop list: a shift section header with its route
      count, a collapsible route header (by registry index), or a numbered
      stop item of the single-route view. */
  datatype ListEntry =
    | SectionHeader(shift: string, routes: nat)
    | RouteHeader(group: nat)
    | StopItem(number: nat)

  /** The stop items of the single-route view, numbered 1 to `n`. */
  function StopItems(n: nat): seq<ListEntry>
  {
    if n == 0 then [] else StopItems(n - 1) + [StopItem(n)]
  }

  /** The `k`-th stop item is numbered `k + 1`. */
  lemma {:induction false} StopItemsAt(n: nat)
    ensures |StopItems(n)| == n
    ensures forall k :: 0 <= k < n ==> StopItems(n)[k] == StopItem(k + 1)
  {
    if n > 0 {
      StopItemsAt(n - 1);
    }
  }

  /** `n` route headers numbered from `base`. */
  function RouteHeaders(base: nat, n: nat): seq<ListEntry>
  {
    if n == 0 then [] else RouteHeaders(base, n - 1) + [RouteHeader(base + n - 1)]
  }

  /** The `k`-th of those headers is numbered `base + k`. */
  lemma {:induction false} RouteHeadersAt(base: nat, n: nat)
    ensures |RouteHeaders(base, n)| == n
    ensures forall k :: 0 <= k < n ==> RouteHeaders(base, n)[k] == RouteHeader(base + k)
  {
    if n > 0 {
      RouteHeadersAt(base, n - 1);
    }
  }

  /** Each route index from `base` on appears exactly once among the
      headers, and no other route index appears. */
  lemma {:induction false} RouteHeadersCount(base: nat, n: nat)
    ensures forall k: nat :: multiset(RouteHeaders(base, n))[RouteHeader(k)] == if base <= k < base + n then 1 else 0
  {
    if n > 0 {
      RouteHeadersCount(base, n - 1);
      assert RouteHeaders(base, n) == RouteHeaders(base, n - 1) + [RouteHeader(base + n - 1)];
    }
  }

  /** Headers numbered from `base` followed by headers numbered on from
      where they stopped are one run of headers. */
  lemma {:induction false} RouteHeadersAppend(base: nat, n: nat, m: nat)
    ensures RouteHeaders(base, n) + RouteHeaders(base + n, m) == RouteHeaders(base, n + m)
  {
    if m > 0 {
      RouteHeadersAppend(base, n, m - 1);
      assert RouteHeaders(base + n, m) == RouteHeaders(base + n, m - 1) + [RouteHeader(base + n + m - 1)];
    }
  }

  /** One more route header, after the entries `prefix`. */
  lemma RouteHeadersSnoc(prefix: seq<ListEntry>, base: nat, n: nat)
    ensures prefix + RouteHeaders(base, n) + [RouteHeader(base + n)] == prefix + RouteHeaders(base, n + 1)
  {
  }

  /** The entries one shift adds, its routes numbered from `base`. */
  function ShiftEntries(s: Shift, headers: bool, base: nat): seq<ListEntry>
  {
    (if headers then [SectionHeader(s.name, |s.routes|)] else []) + RouteHeaders(base, |s.routes|)
  }

  /** Shift section headers are shown when no shift filter is given
      (`!shiftFilter`: absent or empty). */
  predicate Headers(filter: Option<string>)
  {
    filter.None? || filter.value == []
  }

  /** A shift's entries are its optional section header, then its route
      headers. */
  lemma ShiftEntriesSplit(prefix: seq<ListEntry>, s: Shift, headers: bool, base: nat)
    ensures (prefix + (if headers then [SectionHeader(s.name, |s.routes|)] else [])) + RouteHeaders(base, |s.routes|)
         == prefix + ShiftEntries(s, headers, base)
  {
  }

  /** The section headers of a multi-route pass when `headers` is set:
      one per shift, in order, with its route count. */
  function SectionHeaders(shifts: seq<Shift>, headers: bool): (r: seq<ListEntry>)
    ensures |r| == if headers then |shifts| else 0
    ensures forall e :: e in r ==> e.SectionHeader?
    ensures headers ==> forall k :: 0 <= k < |shifts| ==>
      r[k] == SectionHeader(shifts[k].name, |shifts[k].routes|)
    decreases |shifts|
  {
    if !headers || shifts == [] then []
    else
      var last := shifts[|shifts| - 1];
      SectionHeaders(shifts[..|shifts| - 1], headers) + [SectionHeader(last.name, |last.routes|)]
  }

  /** The stop list a multi-route pass builds. */
  function MultiSidebar(shifts: seq<Shift>, headers: bool): seq<ListEntry>
    decreases |shifts|
  {
    if shifts == [] then []
    else
      var init := shifts[..|shifts| - 1];
      MultiSidebar(init, headers) + ShiftEntries(shifts[|shifts| - 1], headers, |Plan(init)|)
  }

  /** One shift's entries: its route headers are numbered `base` ...
      `base + |s.routes| - 1`, each exactly once, and the only other entry
      is its section header when headers are shown. */
  lemma ShiftEntriesShape(s: Shift, headers: bool, base: nat)
    ensures |ShiftEntries(s, headers, base)| == |s.routes| + (if headers then 1 else 0)
    ensures multiset(ShiftEntries(s, headers, base))
         == multiset(RouteHeaders(base, |s.routes|)) + multiset(SectionHeaders([s], headers))
    ensures forall k: nat ::
              multiset(ShiftEntries(s, headers, base))[RouteHeader(k)] == if base <= k < base + |s.routes| then 1 else 0
    ensures forall k :: base <= k < base + |s.routes| ==> RouteHeader(k) in ShiftEntries(s, headers, base)
    ensures forall e :: e in ShiftEntries(s, headers, base) && e.RouteHeader? ==> base <= e.group < base + |s.routes|
    ensures !headers ==> forall e :: e in ShiftEntries(s, headers, base) ==> e.RouteHeader?
  {
    var hd := if headers then [SectionHeader(s.name, |s.routes|)] else [];
    var rh := RouteHeaders(base, |s.routes|);
    RouteHeadersAt(base, |s.routes|);
    RouteHeadersCount(base, |s.routes|);
    assert ShiftEntries(s, headers, base) == hd + rh;
    ShiftEntriesMultiset(s, headers, base);
    forall k | base <= k < base + |s.routes|
      ensures RouteHeader(k) in hd + rh
    {
      assert (hd + rh)[|hd| + (k - base)] == rh[k - base];
    }
  }

  /** A multi-route pass over one more shift appends that shift's entries,
      numbered after the routes already planned. */
  lemma MultiSidebarSnoc(init: seq<Shift>, last: Shift, headers: bool)
    ensures MultiSidebar(init + [last], headers) == MultiSidebar(init, headers) + ShiftEntries(last, headers, |Plan(init)|)
    ensures |Plan(init + [last])| == |Plan(init)| + |last.routes|
  {
    assert (init + [last])[..|init + [last]| - 1] == init;
    FlatMapSnoc(init, last, PlanShift);
  }

  /** The stop list of a multi-route pass holds, in some order, one route
      header per planned route, each route index exactly once, and one
      section header per shift when `headers` is set, nothing else. */
  lemma {:induction false} MultiSidebarShape(shifts: seq<Shift>, headers: bool)
    ensures |MultiSidebar(shifts, headers)| == |Plan(shifts)| + (if headers then |shifts| else 0)
    ensures multiset(MultiSidebar(shifts, headers))
         == multiset(RouteHeaders(0, |Plan(shifts)|)) + multiset(SectionHeaders(shifts, headers))
    ensures forall k: nat ::
              multiset(MultiSidebar(shifts, headers))[RouteHeader(k)] == if k < |Plan(shifts)| then 1 else 0
    ensures forall k :: 0 <= k < |Plan(shifts)| ==> RouteHeader(k) in MultiSidebar(shifts, headers)
    ensures forall e :: e in MultiSidebar(shifts, headers) && e.RouteHeader? ==> e.group < |Plan(shifts)|
    ensures !headers ==> forall e :: e in MultiSidebar(shifts, headers) ==> e.RouteHeader?
    decreases |shifts|
  {
    if shifts != [] {
      var init := shifts[..|shifts| - 1];
      var last := shifts[|shifts| - 1];
      assert shifts == init + [last];
      MultiSidebarSnoc(init, last, headers);
      MultiSidebarShape(init, headers);
      ShiftEntriesShape(last, headers, |Plan(init)|);
    }
    MultiSidebarMultiset(shifts, headers);
    MultiSidebarRouteCount(shifts, headers);
  }

  /** The stop list of a pass is, as a multiset, its route headers and its
      section headers. */
  lemma {:induction false} MultiSidebarMultiset(shifts: seq<Shift>, headers: bool)
    ensures multiset(MultiSidebar(shifts, headers))
         == multiset(RouteHeaders(0, |Plan(shifts)|)) + multiset(SectionHeaders(shifts, headers))
    decreases |shifts|
  {
    if shifts != [] {
      var init, last := shifts[..|shifts| - 1], shifts[|shifts| - 1];
      var n, m := |Plan(init)|, |last.routes|;
      var all, a, b := MultiSidebar(shifts, headers), MultiSidebar(init, headers), ShiftEntries(last, headers, n);
      assert all == a + b;
      var p := |Plan(shifts)|;
      assert p == n + m by { SplitLast(shifts, headers); }
      var rAll, ra, rb := RouteHeaders(0, p), RouteHeaders(0, n), RouteHeaders(n, m);
      assert rAll == ra + rb by { RouteHeadersAppend(0, n, m); }
      var sAll, sa, sb := SectionHeaders(shifts, headers), SectionHeaders(init, headers), SectionHeaders([last], headers);
      assert sAll == sa + sb by { SplitLast(shifts, headers); }
      MultiSidebarMultiset(init, headers);
      ShiftEntriesMultiset(last, headers, n);
      MultisetJoin(all, a, b, rAll, ra, rb, sAll, sa, sb);
    }
  }

  /** Two lists made of route headers and section headers, joined. */
  lemma MultisetJoin(all: seq<ListEntry>, a: seq<ListEntry>, b: seq<ListEntry>,
                     rAll: seq<ListEntry>, ra: seq<ListEntry>, rb: seq<ListEntry>,
                     sAll: seq<ListEntry>, sa: seq<ListEntry>, sb: seq<ListEntry>)
    requires all == a + b && rAll == ra + rb && sAll == sa + sb
    requires multiset(a) == multiset(ra) + multiset(sa)
    requires multiset(b) == multiset(rb) + multiset(sb)
    ensures multiset(all) == multiset(rAll) + multiset(sAll)
  {
  }

  /** A shift's entries are, as a multiset, its route headers and its
      section header if headers are shown. */
  lemma ShiftEntriesMultiset(s: Shift, headers: bool, base: nat)
    ensures multiset(ShiftEntries(s, headers, base))
         == multiset(RouteHeaders(base, |s.routes|)) + multiset(SectionHeaders([s], headers))
  {
    assert [s][..0] == [];
  }

  /** The last shift of a pass adds its section header, if headers are
      shown, and its routes to the plan. */
  lemma SplitLast(shifts: seq<Shift>, headers: bool)
    requires shifts != []
    ensures var init, last := shifts[..|shifts| - 1], shifts[|shifts| - 1];
      && SectionHeaders(shifts, headers) == SectionHeaders(init, headers) + SectionHeaders([last], headers)
      && |Plan(shifts)| == |Plan(init)| + |last.routes|
  {
    var init, last := shifts[..|shifts| - 1], shifts[|shifts| - 1];
    assert [last][..0] == [];
    assert shifts == init + [last];
    MultiSidebarSnoc(init, last, headers);
  }

  /** The route-header counts of the stop list, from its multiset. */
  lemma MultiSidebarRouteCount(shifts: seq<Shift>, headers: bool)
    requires multiset(MultiSidebar(shifts, headers))
          == multiset(RouteHeaders(0, |Plan(shifts)|)) + multiset(SectionHeaders(shifts, headers))
    ensures forall k: nat ::
              multiset(MultiSidebar(shifts, headers))[RouteHeader(k)] == if k < |Plan(shifts)| then 1 else 0
  {
    RouteHeadersCount(0, |Plan(shifts)|);
    forall k: nat
      ensures multiset(SectionHeaders(shifts, headers))[RouteHeader(k)] == 0
    {
      assert RouteHeader(k) !in SectionHeaders(shifts, headers);
    }
  }

  // ----- The registry record -----

  /** One entry of `routeLayerGroups`: the route it draws, its colour, the
      handles of its path, dot markers and numbered markers, and the state
      of its dot opacity and sidebar header (`active`) and stop list
      (`expanded`, the opposite of the `collapsed` class). */
  datatype RouteGroup = RouteGroup(
    name: string, color: string, polyline: int, dotMarkers: seq<int>,
    stops: seq<Stop>, shiftName: string, numberedMarkers: seq<int>,
    dotOpacity: real, active: bool, expanded: bool)

  /** The current style of a path handle. */
  function StyleOf(layers: map<int, Layer>, id: int): PathStyle
  {
    if id in layers && layers[id].Path? then layers[id].style else PathStyle(0.0, 0)
  }

  function GroupLookOf(layers: map<int, Layer>, g: RouteGroup): GroupLook
  {
    GroupLook(StyleOf(layers, g.polyline), g.dotOpacity, g.active, g.expanded,
              |g.numberedMarkers|, |g.stops|)
  }

  /** The highlight state of a registry. */
  function LookOf(layers: map<int, Layer>, gs: seq<RouteGroup>, active: int): Look
  {
    Look(active, seq(|gs|, j requires 0 <= j < |gs| => GroupLookOf(layers, gs[j])))
  }
}
