/** The linear equirectangular projection of the sky map: right ascension
    (hours) runs left to right across the canvas and declination (degrees)
    runs from the north celestial pole at the top to the south pole at the
    bottom. */
module Projection {

  /** A canvas position in pixels. */
  datatype Point = Point(x: real, y: real)

  /** Hours in a full turn of right ascension. */
  const HoursPerTurn: real := 24.0
  /** Declination of the north celestial pole, in degrees. */
  const NorthPole: real := 90.0
  /** Degrees between the two celestial poles. */
  const PoleToPole: real := 180.0

  /** The fraction `t` of a canvas extent `w`. */
  function Scale(t: real, w: real): real
  {
    t * w
  }

  /** A fraction in [0, 1] of a non-negative extent stays within it. */
  lemma ScaleWithin(t: real, w: real)
    ensures 0.0 <= t <= 1.0 && 0.0 <= w ==> 0.0 <= Scale(t, w) <= w
  {
    if 0.0 <= t <= 1.0 && 0.0 <= w {
      assert t * w >= 0.0;
      assert (1.0 - t) * w >= 0.0;
    }
  }

  /** Maps (ra, dec) to canvas pixels for a canvas of `width` by `height`.
      Inputs outside the nominal ranges are not rejected: they simply
      land off the canvas. */
  function Project(ra: real, dec: real, width: real, height: real): (p: Point)
    ensures 0.0 <= ra <= HoursPerTurn && 0.0 <= width ==> 0.0 <= p.x <= width
    ensures -NorthPole <= dec <= NorthPole && 0.0 <= height ==> 0.0 <= p.y <= height
  {
    var across := ra / HoursPerTurn;
    var down := (NorthPole - dec) / PoleToPole;
    ScaleWithin(across, width);
    ScaleWithin(down, height);
    Point(Scale(across, width), Scale(down, height))
  }

  /** The poles and the centre of the sky land on the canvas corners and
      centre: (0h, +90) at the top-left, (12h, 0) in the middle and
      (24h, -90) at the bottom-right. */
  lemma Corners(width: real, height: real)
    ensures Project(0.0, NorthPole, width, height) == Point(0.0, 0.0)
    ensures Project(HoursPerTurn / 2.0, 0.0, width, height) == Point(width / 2.0, height / 2.0)
    ensures Project(HoursPerTurn, -NorthPole, width, height) == Point(width, height)
  {
  }

  /** Scaling by a non-negative factor keeps order. */
  lemma ScaleMonotone(a: real, b: real, w: real)
    requires a <= b && 0.0 <= w
    ensures Scale(a, w) <= Scale(b, w)
  {
    assert b * w - a * w == (b - a) * w;
  }

  /** Scaling by a non-zero factor keeps distinctness. */
  lemma ScaleCancel(a: real, b: real, w: real)
    requires Scale(a, w) == Scale(b, w) && w != 0.0
    ensures a == b
  {
    assert (a - b) * w == 0.0;
  }

  /** Later right ascension is never further left, and higher declination
      is never further down: north is up. */
  lemma Monotone(ra1: real, dec1: real, ra2: real, dec2: real, width: real, height: real)
    requires 0.0 <= width && 0.0 <= height
    ensures ra1 <= ra2 ==> Project(ra1, dec1, width, height).x <= Project(ra2, dec2, width, height).x
    ensures dec1 <= dec2 ==> Project(ra2, dec2, width, height).y <= Project(ra1, dec1, width, height).y
  {
    if ra1 <= ra2 {
      ScaleMonotone(ra1 / HoursPerTurn, ra2 / HoursPerTurn, width);
    }
    if dec1 <= dec2 {
      ScaleMonotone((NorthPole - dec2) / PoleToPole, (NorthPole - dec1) / PoleToPole, height);
    }
  }

  /** On a canvas of positive size distinct coordinates give distinct
      pixels, so the projection loses no information. */
  lemma Injective(ra1: real, dec1: real, ra2: real, dec2: real, width: real, height: real)
    requires 0.0 < width && 0.0 < height
    requires Project(ra1, dec1, width, height) == Project(ra2, dec2, width, height)
    ensures ra1 == ra2 && dec1 == dec2
  {
    ScaleCancel(ra1 / HoursPerTurn, ra2 / HoursPerTurn, width);
    ScaleCancel((NorthPole - dec1) / PoleToPole, (NorthPole - dec2) / PoleToPole, height);
  }
}
