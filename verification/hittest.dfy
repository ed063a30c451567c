/** Click-to-identify: the first star, in list order, whose centre lies
    strictly within ten pixels of the pointer is named in the info panel. */
module HitTest {
  import opened Options
  import opened Projection
  import opened Stars
  import Search

  /** Radius, in pixels, within which a click selects a star. */
  const HitRadius: real := 10.0

  /** The pointer is strictly closer than `HitRadius` to the star's centre.
      Distances are compared squared, which orders them the same way as
      the Euclidean distances themselves. */
  predicate Near(star: Star, pointer: Point)
  {
    var dx := pointer.x - star.x;
    var dy := pointer.y - star.y;
    dx * dx + dy * dy < HitRadius * HitRadius
  }

  /** `Near` with the pointer fixed, as the test applied to each star. */
  function NearTo(pointer: Point): Star -> bool
  {
    (s: Star) => Near(s, pointer)
  }

  /** Index of the star a click at `pointer` selects, or None. */
  function Hit(stars: seq<Star>, pointer: Point): (r: Option<nat>)
    ensures r.Some? ==> r.value < |stars| && Near(stars[r.value], pointer)
    ensures r.Some? ==> forall m :: 0 <= m < r.value ==> !Near(stars[m], pointer)
    ensures r.None? <==> forall k :: 0 <= k < |stars| ==> !Near(stars[k], pointer)
  {
    Search.First(stars, NearTo(pointer))
  }

  /** A star before every other near star is selected even when a later
      one is closer: the policy is first match, not nearest match. */
  lemma FirstMatchNotNearest()
    ensures var stars := [Star(0, 0.0, 0.0, Some(1.0), "A"), Star(1, 5.0, 0.0, Some(1.0), "B")];
      && Near(stars[0], Point(4.0, 0.0)) && Near(stars[1], Point(4.0, 0.0))
      && Hit(stars, Point(4.0, 0.0)) == Some(0)
  {
  }

  /** Stars after the selected one never change the selection; when no
      star of the first part is near, the selection comes from the rest. */
  lemma HitAppend(a: seq<Star>, b: seq<Star>, pointer: Point)
    ensures Hit(a + b, pointer) ==
      match Hit(a, pointer)
      case Some(k) => Some(k)
      case None =>
        match Hit(b, pointer)
        case Some(k) => Some(|a| + k)
        case None => None
  {
    Search.FirstAppend(a, b, NearTo(pointer));
  }

  /** The info panel: hidden, or showing a star's label. */
  datatype Panel = Hidden | Showing(text: string)

  /** The text shown for a selected star. */
  function Label(name: string): string
  {
    "\U{2B50} " + name
  }

  /** The panel after a click at `pointer`. */
  function Click(stars: seq<Star>, pointer: Point): (r: Panel)
    ensures r.Hidden? <==> forall k :: 0 <= k < |stars| ==> !Near(stars[k], pointer)
    ensures r.Showing? ==> exists k ::
      && 0 <= k < |stars|
      && Near(stars[k], pointer)
      && (forall m :: 0 <= m < k ==> !Near(stars[m], pointer))
      && r.text == Label(stars[k].name)
  {
    match Hit(stars, pointer)
    case Some(k) => Showing(Label(stars[k].name))
    case None => Hidden
  }
}
