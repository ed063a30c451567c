/** The sky map's state and its redraw: the canvas size, the current star
    list and the constellation lines, and the frame drawn from them. */
module Sky {
  import opened Options
  import opened Stars
  import opened Constellations

  /** Everything the drawing and the click handler read. */
  datatype Scene = Scene(vp: Viewport, stars: seq<Star>, lines: seq<Edge>)

  /** The state before any data has arrived. */
  function Start(vp: Viewport): Scene
  {
    Scene(vp, [], [])
  }

  /** The window changed size: the canvas takes the new size, and the star
      positions already computed are kept as they are. */
  function Resize(scene: Scene, vp: Viewport): (r: Scene)
    ensures r.vp == vp
    ensures r.stars == scene.stars && r.lines == scene.lines
  {
    scene.(vp := vp)
  }

  /** A body-positions table arrived: the star list is replaced wholesale
      by one star per row, projected at the current canvas size. */
  function LoadStars(scene: Scene, rows: seq<Body>): (r: Scene)
    ensures r.vp == scene.vp && r.lines == scene.lines
    ensures |r.stars| == |rows|
    ensures forall k :: 0 <= k < |rows| ==> Describes(r.stars[k], k, rows[k], scene.vp)
  {
    scene.(stars := Catalogue(rows, scene.vp))
  }

  /** The line data arrived (Some) or failed to load (None); a failure
      leaves the lines as they were. */
  function LoadLines(scene: Scene, data: Option<seq<Edge>>): (r: Scene)
    ensures r.vp == scene.vp && r.stars == scene.stars
    ensures data.Some? ==> r.lines == data.value
    ensures data.None? ==> r.lines == scene.lines
  {
    match data
    case Some(lines) => scene.(lines := lines)
    case None => scene
  }

  /** A filled circle on the canvas. */
  datatype Circle = Circle(x: real, y: real, radius: real)

  /** One redraw: a circle per star, then a segment per resolved line. */
  datatype Frame = Frame(circles: seq<Circle>, segments: seq<Segment>)

  /** The circle drawn for a star. */
  function Disc(star: Star): Circle
  {
    Circle(star.x, star.y, Radius(star.mag))
  }

  /** The frame drawn from a scene: one circle per star, in list order,
      centred on the star and at least a pixel wide, then the segments of
      the lines that resolve. */
  function Draw(scene: Scene): (f: Frame)
    ensures |f.circles| == |scene.stars|
    ensures forall k :: 0 <= k < |scene.stars| ==>
      && f.circles[k].x == scene.stars[k].x
      && f.circles[k].y == scene.stars[k].y
      && f.circles[k].radius == Radius(scene.stars[k].mag)
      && f.circles[k].radius >= 1.0
    ensures f.segments == Segments(scene.stars, scene.lines)
  {
    Frame(seq(|scene.stars|, k requires 0 <= k < |scene.stars| => Disc(scene.stars[k])),
          Segments(scene.stars, scene.lines))
  }

  /** After a table is loaded, the frame holds one three-pixel circle per
      row, at that row's place on the canvas. */
  lemma DrawAfterLoad(scene: Scene, rows: seq<Body>)
    ensures var f := Draw(LoadStars(scene, rows));
      && |f.circles| == |rows|
      && forall k :: 0 <= k < |rows| ==>
           f.circles[k] == Circle(Place(rows[k], scene.vp).x, Place(rows[k], scene.vp).y, 3.0)
  {
  }

  /** The redraw made before any data has arrived is blank. */
  lemma DrawAtStart(vp: Viewport)
    ensures Draw(Start(vp)) == Frame([], [])
  {
  }

  /** An empty table empties the sky: no circles and no lines. */
  lemma DrawAfterEmptyLoad(scene: Scene)
    ensures Draw(LoadStars(scene, [])) == Frame([], [])
  {
    var s := LoadStars(scene, []);
    SegmentsNoneResolved(s.stars, s.lines);
  }

  /** A resize redraws exactly the previous frame: nothing is re-projected
      to the new canvas size. */
  lemma ResizeRedrawsSameFrame(scene: Scene, vp: Viewport)
    ensures Draw(Resize(scene, vp)) == Draw(scene)
  {
  }

  /** Reloading the same table after a resize places the stars for the new
      size, as if they had been loaded at that size from the start. */
  lemma ReloadAfterResize(scene: Scene, vp: Viewport, rows: seq<Body>)
    ensures LoadStars(Resize(scene, vp), rows).stars == Catalogue(rows, vp)
  {
  }
}
