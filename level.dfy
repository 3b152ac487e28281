/** The static level of src/level.rs: axis-aligned platforms described by the
    centre of their top surface, the surface's extent and their height. */
module Levels {
  import opened Common

  datatype Platform = Platform(
    surfaceCenter: Point,
    surfaceDim: (real, real),
    height: real)
  {
    /** `Platform::new`: a platform holding exactly the given geometry. */
    static function New(surfaceCenter: Point, surfaceDim: (real, real), height: real): (p: Platform)
      ensures p.surfaceCenter == surfaceCenter && p.surfaceDim == surfaceDim && p.height == height
    {
      Platform(surfaceCenter, surfaceDim, height)
    }

    /** Whether (x, y) lies over the top surface, edges included. */
    predicate OverSurface(x: real, y: real)
    {
      Abs(x - surfaceCenter.0) <= 0.5 * surfaceDim.0 && Abs(y - surfaceCenter.1) <= 0.5 * surfaceDim.1
    }

    /** The height of the surface if (x, y) lies over it and the surface lies
        in [zLower, zUpper]; nothing otherwise. */
    function Intersection(x: real, y: real, zLower: real, zUpper: real): (r: Option<real>)
      ensures r.Some? <==> OverSurface(x, y) && zLower <= surfaceCenter.2 <= zUpper
      ensures r.Some? ==> r.value == surfaceCenter.2
    {
      if Abs(x - surfaceCenter.0) > 0.5 * surfaceDim.0 then
        None
      else if Abs(y - surfaceCenter.1) > 0.5 * surfaceDim.1 then
        None
      else if zLower <= surfaceCenter.2 && surfaceCenter.2 <= zUpper then
        Some(surfaceCenter.2)
      else
        None
    }

    /** The one-axis test the player uses when facing S or N: a body `extra`
        wide centred on x overlaps the surface along x, and the surface lies
        in [zLower, zUpper]. (The definition is this model's assumption; the
        player only relies on it through this name.) */
    predicate IntersectionX(x: real, extra: real, zLower: real, zUpper: real)
    {
      Abs(x - surfaceCenter.0) <= 0.5 * surfaceDim.0 + 0.5 * extra
      && zLower <= surfaceCenter.2 <= zUpper
    }

    /** The same test along y, used when facing E or W (an assumption likewise). */
    predicate IntersectionY(y: real, extra: real, zLower: real, zUpper: real)
    {
      Abs(y - surfaceCenter.1) <= 0.5 * surfaceDim.1 + 0.5 * extra
      && zLower <= surfaceCenter.2 <= zUpper
    }
  }

  /** A level is its list of platforms, fixed once built. */
  datatype Level = Level(platforms: seq<Platform>)

  /** An empty z interval hits nothing. */
  lemma IntersectionEmptyInterval(p: Platform, x: real, y: real, zLower: real, zUpper: real)
    requires zLower > zUpper
    ensures p.Intersection(x, y, zLower, zUpper).None?
  {
  }

  /** Widening the swept z interval never loses a hit, and keeps its height. */
  lemma IntersectionMonotone(p: Platform, x: real, y: real, zLower: real, zUpper: real, zLower': real, zUpper': real)
    requires zLower' <= zLower && zUpper <= zUpper'
    requires p.Intersection(x, y, zLower, zUpper).Some?
    ensures p.Intersection(x, y, zLower', zUpper') == p.Intersection(x, y, zLower, zUpper)
  {
  }
}
