/** The highlight state machine of the multi-route view, on values: what each
    route group looks like (path style, dot-marker opacity, sidebar flags,
    number of numbered markers) and which group, if any, is highlighted. */
module Highlight {

  /** A path's `setStyle` options. */
  datatype PathStyle = PathStyle(opacity: real, weight: int)

  /** Style of every path when no route is highlighted. */
  const Baseline := PathStyle(0.6, 3)
  /** Style of the paths that are not highlighted while one is. */
  const Dimmed := PathStyle(0.12, 2)
  /** Style of the highlighted path. */
  const Peak := PathStyle(0.9, 5)

  const FullOpacity: real := 1.0
  const DimOpacity: real := 0.15

  /** What one route group shows: its path style, the opacity of its dot
      markers, whether its sidebar header is `active` and its stop list
      expanded (not `collapsed`), how many numbered markers it holds, and how
      many stops it has. */
  datatype GroupLook = GroupLook(
    style: PathStyle, dotOpacity: real, active: bool, expanded: bool,
    numbered: nat, stops: nat)

  /** `activeRouteIndex` (-1 for none) and the looks of `routeLayerGroups`. */
  datatype Look = Look(active: int, groups: seq<GroupLook>)

  /** The look group `j` must have when `active` is the highlighted index. */
  predicate Expected(g: GroupLook, j: int, active: int)
  {
    if active == -1 then
      g == GroupLook(Baseline, FullOpacity, false, false, 0, g.stops)
    else if j == active then
      g == GroupLook(Peak, FullOpacity, true, true, g.stops, g.stops)
    else
      g == GroupLook(Dimmed, DimOpacity, false, false, 0, g.stops)
  }

  /** The states the view can be in: none highlighted, or exactly group
      `active`, with every group looking as that state says. */
  predicate Consistent(h: Look)
  {
    -1 <= h.active < |h.groups| &&
    forall j :: 0 <= j < |h.groups| ==> Expected(h.groups[j], j, h.active)
  }

  /** The reset step every group passes through. */
  function Reset(g: GroupLook, deselecting: bool): GroupLook
  {
    GroupLook(if deselecting then Baseline else Dimmed,
              if deselecting then FullOpacity else DimOpacity,
              false, false, 0, g.stops)
  }

  /** The highlight step for the chosen group. */
  function Emphasize(g: GroupLook): GroupLook
  {
    GroupLook(Peak, FullOpacity, true, true, g.stops, g.stops)
  }

  /** `toggleRouteHighlight(i)`: reset every group, then, unless `i` was the
      highlighted group, highlight `i`. */
  function Toggle(h: Look, i: int): Look
    requires 0 <= i < |h.groups|
  {
    var deselecting := h.active == i;
    var reset := seq(|h.groups|, j requires 0 <= j < |h.groups| => Reset(h.groups[j], deselecting));
    if deselecting then Look(-1, reset)
    else Look(i, reset[i := Emphasize(reset[i])])
  }

  /** From any state, a toggle lands in a consistent state: on the
      highlighted group it deselects, on any other it highlights that one;
      no group changes its stop count. */
  lemma ToggleIsConsistent(h: Look, i: int)
    requires 0 <= i < |h.groups|
    ensures Consistent(Toggle(h, i))
    ensures Toggle(h, i).active == if h.active == i then -1 else i
    ensures |Toggle(h, i).groups| == |h.groups|
    ensures forall j :: 0 <= j < |h.groups| ==> Toggle(h, i).groups[j].stops == h.groups[j].stops
  {
  }

  /** In a consistent state at most one group holds numbered markers or is
      active or expanded, and it is the highlighted one. */
  lemma AtMostOneHighlighted(h: Look, j: int)
    requires Consistent(h) && 0 <= j < |h.groups|
    ensures h.groups[j].active <==> j == h.active
    ensures h.groups[j].expanded <==> j == h.active
    ensures h.groups[j].numbered == if j == h.active then h.groups[j].stops else 0
  {
    assert Expected(h.groups[j], j, h.active);
  }

  /** The look of the none-highlighted state is determined by the stop
      counts alone. */
  lemma {:induction false} NoneHighlightedIsBaseline(h: Look, h': Look)
    requires Consistent(h) && Consistent(h') && h.active == -1 && h'.active == -1
    requires |h.groups| == |h'.groups|
    requires forall j :: 0 <= j < |h.groups| ==> h.groups[j].stops == h'.groups[j].stops
    ensures h == h'
  {
    forall j | 0 <= j < |h.groups|
      ensures h.groups[j] == h'.groups[j]
    {
      assert Expected(h.groups[j], j, -1) && Expected(h'.groups[j], j, -1);
    }
  }

  /** Toggling a group twice from the none-highlighted state returns to it. */
  lemma {:induction false} ToggleTwiceRestores(h: Look, i: int)
    requires Consistent(h) && h.active == -1 && 0 <= i < |h.groups|
    ensures Toggle(h, i).active == i
    ensures Toggle(Toggle(h, i), i) == h
  {
    ToggleIsConsistent(h, i);
    ToggleIsConsistent(Toggle(h, i), i);
    NoneHighlightedIsBaseline(Toggle(Toggle(h, i), i), h);
  }

  /** Toggling `i` then `j != i` leaves exactly `j` highlighted; `i` is back
      to no numbered markers, collapsed and inactive, and dimmed like every
      other group. */
  lemma {:induction false} ToggleSwitches(h: Look, i: int, j: int)
    requires Consistent(h) && 0 <= i < |h.groups| && 0 <= j < |h.groups| && i != j
    ensures Toggle(Toggle(h, i), j).active == j
    ensures Toggle(Toggle(h, i), j).groups[i] == GroupLook(Dimmed, DimOpacity, false, false, 0, h.groups[i].stops)
    ensures Toggle(Toggle(h, i), j).groups[j] == GroupLook(Peak, FullOpacity, true, true, h.groups[j].stops, h.groups[j].stops)
  {
    ToggleIsConsistent(h, i);
    ToggleIsConsistent(Toggle(h, i), j);
    var h2 := Toggle(Toggle(h, i), j);
    assert Expected(h2.groups[i], i, j) && Expected(h2.groups[j], j, j);
  }
}
