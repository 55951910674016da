/** The viewport controller: fit-bounds requests adjusted for the bottom sheet
    that covers the lower half of a narrow screen. Pixel quantities are
    exact reals, so `window.innerHeight * 0.5` needs no rounding. */
module Viewport {
  import opened Geo
  import opened Wrappers

  /** A pixel offset pair, `[x, y]` in the source. */
  datatype Pair = Pair(x: real, y: real)

  /** The padding options of a `flyToBounds` call; `None` is an option the
      call does not set. */
  datatype FitOptions = FitOptions(
    padding: Option<Pair>,
    paddingTopLeft: Option<Pair>,
    paddingBottomRight: Option<Pair>)

  /** A camera request that frames `bounds`. */
  datatype FitRequest = FitRequest(bounds: Bounds, options: FitOptions)

  /** The browser window size in CSS pixels. */
  datatype Screen = Screen(innerWidth: int, innerHeight: int)

  /** Padding used when the caller gives none. */
  const DefaultPadding := Pair(60.0, 60.0)

  /** `isMobile()`: a narrow window, whose bottom sheet occludes the map. */
  predicate IsMobile(scr: Screen)
  {
    scr.innerWidth <= 768
  }

  /** Height of the bottom sheet: half the window (50vh). */
  function SheetPx(scr: Screen): real
  {
    scr.innerHeight as real * 0.5
  }

  /** The options a caller passes: a symmetric padding of `p` pixels. */
  function Padded(p: real): FitOptions
  {
    FitOptions(Some(Pair(p, p)), None, None)
  }

  /** The padding the map library applies on each side: the corner option
      when given, otherwise the symmetric `padding`, otherwise none. */
  function TopLeft(o: FitOptions): Pair
  {
    if o.paddingTopLeft.Some? then o.paddingTopLeft.value
    else if o.padding.Some? then o.padding.value
    else Pair(0.0, 0.0)
  }

  function BottomRight(o: FitOptions): Pair
  {
    if o.paddingBottomRight.Some? then o.paddingBottomRight.value
    else if o.padding.Some? then o.padding.value
    else Pair(0.0, 0.0)
  }

  /** `mapFlyToBounds(bounds, options)`: on a wide screen the options pass
      through; on a narrow one the top-left padding is the caller's padding
      (default 60 by 60) and the bottom-right padding grows by the sheet
      height, so the bounds are framed above the sheet. */
  function FlyToBounds(scr: Screen, b: Bounds, o: FitOptions): (r: FitRequest)
    ensures r.bounds == b
    ensures !IsMobile(scr) ==> r.options == o
    ensures IsMobile(scr) ==>
      var p := if o.padding.Some? then o.padding.value else DefaultPadding;
      && TopLeft(r.options) == p
      && BottomRight(r.options) == Pair(p.x, SheetPx(scr) + p.y)
  {
    if IsMobile(scr) then
      var p := if o.padding.Some? then o.padding.value else DefaultPadding;
      FitRequest(b, o.(paddingTopLeft := Some(p), paddingBottomRight := Some(Pair(p.x, SheetPx(scr) + p.y))))
    else
      FitRequest(b, o)
  }

  /** On a narrow screen, for the symmetric paddings the renderers pass, the
      bottom edge of the framed area sits exactly one sheet height above
      where a wide screen would put it, and every other edge is unchanged;
      a real window (non-negative height) never gets less bottom padding
      than requested. */
  lemma SheetShiftsOnlyBottom(scr: Screen, b: Bounds, p: real)
    requires IsMobile(scr)
    ensures TopLeft(FlyToBounds(scr, b, Padded(p)).options) == TopLeft(Padded(p))
    ensures BottomRight(FlyToBounds(scr, b, Padded(p)).options).x == BottomRight(Padded(p)).x
    ensures BottomRight(FlyToBounds(scr, b, Padded(p)).options).y
         == BottomRight(Padded(p)).y + SheetPx(scr)
    ensures scr.innerHeight >= 0 ==>
      BottomRight(FlyToBounds(scr, b, Padded(p)).options).y >= BottomRight(Padded(p)).y
  {
  }
}
