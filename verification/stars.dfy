/** The star records of the sky map: how the rows of a body-positions table
    become projected stars, and how big each star is drawn. */
module Stars {
  import opened Options
  import opened Projection

  /** One row of the positions table: a body's name and its equatorial
      coordinates (right ascension in hours, declination in degrees). */
  datatype Body = Body(name: string, ra: real, dec: real)

  /** The canvas size in pixels; a canvas's width and height are
      non-negative integers. */
  datatype Viewport = Viewport(width: nat, height: nat)

  /** A star as the sky map keeps it. `mag` is None when the record has no
      magnitude at all. */
  datatype Star = Star(id: int, x: real, y: real, mag: Option<real>, name: string)

  /** The positions table carries no magnitude, so every star gets this one. */
  const PlaceholderMag: real := 1.0

  /** Where a body lands on a canvas of the given size. */
  function Place(body: Body, vp: Viewport): Point
  {
    Project(body.ra, body.dec, vp.width as real, vp.height as real)
  }

  /** `star` is the record built for row number `k`, holding `body`. */
  ghost predicate Describes(star: Star, k: int, body: Body, vp: Viewport)
  {
    && star.id == k
    && star.name == body.name
    && star.mag == Some(PlaceholderMag)
    && Point(star.x, star.y) == Place(body, vp)
  }

  /** The star list rebuilt from the table rows, one star per row in row
      order, each identified by its row index. */
  function Catalogue(rows: seq<Body>, vp: Viewport): (stars: seq<Star>)
    ensures |stars| == |rows|
    ensures forall k :: 0 <= k < |rows| ==> Describes(stars[k], k, rows[k], vp)
  {
    if |rows| == 0 then []
    else
      var n := |rows| - 1;
      var p := Place(rows[n], vp);
      Catalogue(rows[..n], vp) + [Star(n, p.x, p.y, Some(PlaceholderMag), rows[n].name)]
  }

  /** Bodies within the nominal coordinate ranges all land on the canvas. */
  lemma CatalogueOnCanvas(rows: seq<Body>, vp: Viewport)
    requires forall k :: 0 <= k < |rows| ==> 0.0 <= rows[k].ra <= HoursPerTurn
    requires forall k :: 0 <= k < |rows| ==> -NorthPole <= rows[k].dec <= NorthPole
    ensures forall s :: s in Catalogue(rows, vp) ==>
      0.0 <= s.x <= vp.width as real && 0.0 <= s.y <= vp.height as real
  {
  }

  /** Rows appended to the table never change the stars built for the
      rows before them. */
  lemma CataloguePrefix(rows: seq<Body>, more: seq<Body>, vp: Viewport)
    ensures Catalogue(rows + more, vp)[..|rows|] == Catalogue(rows, vp)
  {
  }

  /** The magnitude a star is drawn with: a missing or zero magnitude (both
      falsy in JavaScript) falls back to 2. */
  function DrawnMag(mag: Option<real>): real
  {
    if mag.None? || mag.value == 0.0 then 2.0 else mag.value
  }

  /** Display radius in pixels: four minus the drawn magnitude, but never
      below one pixel. */
  function Radius(mag: Option<real>): (r: real)
    ensures r >= 1.0
    ensures r >= 4.0 - DrawnMag(mag)
    ensures r == 1.0 || r == 4.0 - DrawnMag(mag)
  {
    var v := 4.0 - DrawnMag(mag);
    if 1.0 < v then v else 1.0
  }

  /** The placeholder magnitude gives a three-pixel star; a missing or zero
      magnitude gives a two-pixel one. */
  lemma RadiusDefaults()
    ensures Radius(Some(PlaceholderMag)) == 3.0
    ensures Radius(None) == 2.0 && Radius(Some(0.0)) == 2.0
  {
  }

  /** Brighter (numerically smaller) non-zero magnitudes are never drawn
      smaller. Zero is excluded because it is falsy and drawn as 2: magnitude
      0 gets radius 2 while magnitude 0.5 gets 3.5 (`RadiusZeroBreaksOrder`).
      The sky map never meets this case, since every star carries the
      placeholder magnitude 1. */
  lemma RadiusAntitone(a: real, b: real)
    requires a <= b && a != 0.0 && b != 0.0
    ensures Radius(Some(b)) <= Radius(Some(a))
  {
  }

  /** Magnitude 0 is drawn smaller than the dimmer magnitude 0.5. */
  lemma RadiusZeroBreaksOrder()
    ensures Radius(Some(0.0)) == 2.0 && Radius(Some(0.5)) == 3.5
  {
  }
}
