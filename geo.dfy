/** Geographic primitives: a coordinate and the bounding box that the map
    library grows point by point (`L.latLngBounds()` then `extend`). */
module Geo {

  datatype Coord = Coord(lat: real, lng: real)

  /** A bounding box; `Empty` is a fresh `L.latLngBounds()` that has not been
      extended yet. */
  datatype Bounds =
    | Empty
    | Box(south: real, west: real, north: real, east: real)

  function Min(a: real, b: real): real { if a <= b then a else b }
  function Max(a: real, b: real): real { if a <= b then b else a }

  predicate Contains(b: Bounds, p: Coord)
  {
    b.Box? && b.south <= p.lat <= b.north && b.west <= p.lng <= b.east
  }

  /** `bounds.extend(p)`: the first point makes a degenerate box, later points
      widen each edge as needed. */
  function Extend(b: Bounds, p: Coord): (r: Bounds)
    ensures Contains(r, p)
    ensures forall q :: Contains(b, q) ==> Contains(r, q)
  {
    match b
    case Empty => Box(p.lat, p.lng, p.lat, p.lng)
    case Box(s, w, n, e) => Box(Min(s, p.lat), Min(w, p.lng), Max(n, p.lat), Max(e, p.lng))
  }

  /** `b` extended by every point of `pts`, in order. */
  function ExtendAll(b: Bounds, pts: seq<Coord>): Bounds
    decreases |pts|
  {
    if pts == [] then b else ExtendAll(Extend(b, pts[0]), pts[1..])
  }

  /** The bounds of a list of points (`L.latLngBounds(path)`). */
  function BoundsOf(pts: seq<Coord>): Bounds
  {
    ExtendAll(Empty, pts)
  }

  /** Extending one point at a time covers what was covered and every new
      point. */
  lemma {:induction false} ExtendAllCovers(b: Bounds, pts: seq<Coord>)
    ensures forall q :: Contains(b, q) ==> Contains(ExtendAll(b, pts), q)
    ensures forall i :: 0 <= i < |pts| ==> Contains(ExtendAll(b, pts), pts[i])
    decreases |pts|
  {
    if pts != [] {
      ExtendAllCovers(Extend(b, pts[0]), pts[1..]);
      forall i | 0 < i < |pts|
        ensures Contains(ExtendAll(b, pts), pts[i])
      {
        assert pts[i] == pts[1..][i - 1];
      }
    }
  }

  /** Extending in two batches is extending by their concatenation. */
  lemma {:induction false} ExtendAllAppend(b: Bounds, p: seq<Coord>, q: seq<Coord>)
    ensures ExtendAll(b, p + q) == ExtendAll(ExtendAll(b, p), q)
    decreases |p|
  {
    if p == [] {
      assert p + q == q;
    } else {
      assert (p + q)[0] == p[0] && (p + q)[1..] == p[1..] + q;
      ExtendAllAppend(Extend(b, p[0]), p[1..], q);
    }
  }

  /** Extending by one more point is one more `extend`. */
  lemma ExtendAllSnoc(b: Bounds, pts: seq<Coord>, p: Coord)
    ensures ExtendAll(b, pts + [p]) == Extend(ExtendAll(b, pts), p)
  {
    ExtendAllAppend(b, pts, [p]);
    assert [p][1..] == [];
  }

  /** The bounds of a list cover exactly its points at least, are empty only
      for the empty list, and are the tightest such box: any box that holds
      every point holds them. */
  lemma {:induction false} BoundsOfTight(pts: seq<Coord>, s: real, w: real, n: real, e: real)
    requires forall i :: 0 <= i < |pts| ==> Contains(Box(s, w, n, e), pts[i])
    ensures BoundsOf(pts).Empty? <==> pts == []
    ensures forall i :: 0 <= i < |pts| ==> Contains(BoundsOf(pts), pts[i])
    ensures BoundsOf(pts).Box? ==>
      s <= BoundsOf(pts).south && BoundsOf(pts).north <= n &&
      w <= BoundsOf(pts).west && BoundsOf(pts).east <= e
  {
    ExtendAllCovers(Empty, pts);
    WithinBox(Empty, pts, s, w, n, e);
  }

  lemma {:induction false} WithinBox(b: Bounds, pts: seq<Coord>, s: real, w: real, n: real, e: real)
    requires forall i :: 0 <= i < |pts| ==> Contains(Box(s, w, n, e), pts[i])
    requires b.Box? ==> s <= b.south && b.north <= n && w <= b.west && b.east <= e
    ensures ExtendAll(b, pts).Empty? <==> b.Empty? && pts == []
    ensures ExtendAll(b, pts).Box? ==>
      s <= ExtendAll(b, pts).south && ExtendAll(b, pts).north <= n &&
      w <= ExtendAll(b, pts).west && ExtendAll(b, pts).east <= e
    decreases |pts|
  {
    if pts != [] {
      assert Contains(Box(s, w, n, e), pts[0]);
      forall i | 0 <= i < |pts[1..]|
        ensures Contains(Box(s, w, n, e), pts[1..][i])
      {
        assert pts[1..][i] == pts[i + 1];
      }
      WithinBox(Extend(b, pts[0]), pts[1..], s, w, n, e);
    }
  }
}
