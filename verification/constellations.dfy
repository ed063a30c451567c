/** Constellation lines: each line names two star ids, and is drawn only
    when both ids resolve to a star of the current list. */
module Constellations {
  import opened Options
  import opened Projection
  import opened Stars
  import Search

  /** A constellation line as stored in the line data: a pair of star ids. */
  datatype Edge = Edge(i: int, j: int)

  /** A line segment to stroke, from one star's position to another's. */
  datatype Segment = Segment(from: Point, to: Point)

  /** Some star of the list carries `id`. */
  ghost predicate HasId(stars: seq<Star>, id: int)
  {
    exists k :: 0 <= k < |stars| && stars[k].id == id
  }

  /** `k` is the position of the first star carrying `id`. */
  ghost predicate FirstWithId(stars: seq<Star>, id: int, k: int)
  {
    && 0 <= k < |stars|
    && stars[k].id == id
    && forall m :: 0 <= m < k ==> stars[m].id != id
  }

  /** The first star carrying `id`, the way `find` resolves a line end. */
  function Find(stars: seq<Star>, id: int): (r: Option<Star>)
    ensures r.None? <==> !HasId(stars, id)
    ensures forall k {:trigger FirstWithId(stars, id, k)} ::
      FirstWithId(stars, id, k) ==> r == Some(stars[k])
  {
    match Search.First(stars, (s: Star) => s.id == id)
    case None => None
    case Some(k) => Some(stars[k])
  }

  /** The segment drawn for one line, or None when an end does not resolve. */
  function Resolve(stars: seq<Star>, e: Edge): (r: Option<Segment>)
    ensures r.Some? <==> HasId(stars, e.i) && HasId(stars, e.j)
    ensures forall a, b {:trigger FirstWithId(stars, e.i, a), FirstWithId(stars, e.j, b)} ::
      FirstWithId(stars, e.i, a) && FirstWithId(stars, e.j, b) ==>
        r == Some(Segment(Point(stars[a].x, stars[a].y), Point(stars[b].x, stars[b].y)))
  {
    match (Find(stars, e.i), Find(stars, e.j))
    case (Some(a), Some(b)) => Some(Segment(Point(a.x, a.y), Point(b.x, b.y)))
    case _ => None
  }

  /** The segments drawn for a list of lines, in line order, skipping the
      lines an end of which does not resolve. */
  function Segments(stars: seq<Star>, edges: seq<Edge>): (segs: seq<Segment>)
    ensures |segs| <= |edges|
  {
    if |edges| == 0 then []
    else
      var rest := Segments(stars, edges[1..]);
      match Resolve(stars, edges[0])
      case Some(seg) => [seg] + rest
      case None => rest
  }

  /** Segments of consecutive runs of lines concatenate: the drawing keeps
      the order of the line data. */
  lemma {:induction false} SegmentsAppend(stars: seq<Star>, a: seq<Edge>, b: seq<Edge>)
    ensures Segments(stars, a + b) == Segments(stars, a) + Segments(stars, b)
  {
    if |a| == 0 {
      assert a + b == b;
    } else {
      assert (a + b)[1..] == a[1..] + b;
      SegmentsAppend(stars, a[1..], b);
    }
  }

  /** A segment is drawn exactly when some line resolves to it. */
  lemma {:induction false} SegmentsMembership(stars: seq<Star>, edges: seq<Edge>, seg: Segment)
    ensures seg in Segments(stars, edges) <==>
      exists k :: 0 <= k < |edges| && Resolve(stars, edges[k]) == Some(seg)
  {
    if |edges| != 0 {
      SegmentsMembership(stars, edges[1..], seg);
      if seg in Segments(stars, edges[1..]) {
        var k :| 0 <= k < |edges| - 1 && Resolve(stars, edges[1..][k]) == Some(seg);
        assert edges[1..][k] == edges[k + 1];
      }
      if exists k :: 0 <= k < |edges| && Resolve(stars, edges[k]) == Some(seg) {
        var k :| 0 <= k < |edges| && Resolve(stars, edges[k]) == Some(seg);
        if k > 0 {
          assert edges[1..][k - 1] == edges[k];
        }
      }
    }
  }

  /** Every line's segment is drawn exactly when every line resolves. */
  lemma {:induction false} SegmentsAllDrawn(stars: seq<Star>, edges: seq<Edge>)
    ensures |Segments(stars, edges)| == |edges| <==>
      forall k :: 0 <= k < |edges| ==> Resolve(stars, edges[k]).Some?
  {
    if |edges| != 0 {
      var tail := edges[1..];
      SegmentsAllDrawn(stars, tail);
      if forall k :: 0 <= k < |edges| ==> Resolve(stars, edges[k]).Some? {
        forall k | 0 <= k < |tail| ensures Resolve(stars, tail[k]).Some? {
          assert tail[k] == edges[k + 1];
        }
      }
      if |Segments(stars, edges)| == |edges| {
        assert Resolve(stars, edges[0]).Some?;
        forall k | 0 <= k < |edges| ensures Resolve(stars, edges[k]).Some? {
          if k > 0 {
            assert tail[k - 1] == edges[k];
          }
        }
      }
    }
  }

  /** When every line resolves, the k-th segment is the k-th line's. */
  lemma {:induction false} SegmentsInLineOrder(stars: seq<Star>, edges: seq<Edge>)
    requires forall k :: 0 <= k < |edges| ==> Resolve(stars, edges[k]).Some?
    ensures |Segments(stars, edges)| == |edges|
    ensures forall k :: 0 <= k < |edges| ==> Segments(stars, edges)[k] == Resolve(stars, edges[k]).value
  {
    if |edges| != 0 {
      var tail := edges[1..];
      forall k | 0 <= k < |tail| ensures Resolve(stars, tail[k]).Some? {
        assert tail[k] == edges[k + 1];
      }
      SegmentsInLineOrder(stars, tail);
      forall k | 0 <= k < |edges|
        ensures Segments(stars, edges)[k] == Resolve(stars, edges[k]).value
      {
        if k > 0 {
          assert tail[k - 1] == edges[k];
        }
      }
    }
  }

  /** No segment is drawn when no line resolves, in particular when no
      line data was loaded. */
  lemma {:induction false} SegmentsNoneResolved(stars: seq<Star>, edges: seq<Edge>)
    requires forall k :: 0 <= k < |edges| ==> Resolve(stars, edges[k]).None?
    ensures Segments(stars, edges) == []
  {
    if |edges| != 0 {
      forall k | 0 <= k < |edges| - 1 ensures Resolve(stars, edges[1..][k]).None? {
        assert edges[1..][k] == edges[k + 1];
      }
      SegmentsNoneResolved(stars, edges[1..]);
    }
  }

  /** In a freshly built star list the id of star k is k, so an id resolves
      exactly when it is a row index, and it resolves to that row's star. */
  lemma FindInCatalogue(rows: seq<Body>, vp: Viewport, id: int)
    ensures Find(Catalogue(rows, vp), id) ==
      if 0 <= id < |rows| then Some(Catalogue(rows, vp)[id]) else None
  {
  }

  /** Both ends of `e` are row indices of the table. */
  ghost predicate Spans(rows: seq<Body>, e: Edge)
  {
    0 <= e.i < |rows| && 0 <= e.j < |rows|
  }

  /** The segment between the places of the two rows `e` names. */
  function Chord(rows: seq<Body>, vp: Viewport, e: Edge): Segment
    requires Spans(rows, e)
  {
    Segment(Place(rows[e.i], vp), Place(rows[e.j], vp))
  }

  /** Over a freshly built star list, line [i, j] is drawn exactly when
      both i and j are row indices, between the places of those two rows. */
  lemma ResolveInCatalogue(rows: seq<Body>, vp: Viewport, e: Edge)
    ensures Resolve(Catalogue(rows, vp), e) ==
      if Spans(rows, e) then Some(Chord(rows, vp, e)) else None
  {
  }

  /** Over a freshly built star list, a segment is drawn exactly when some
      line has both ends among the row indices, and it runs between the
      places of those two rows. */
  lemma SegmentsOfCatalogue(rows: seq<Body>, vp: Viewport, edges: seq<Edge>, seg: Segment)
    ensures seg in Segments(Catalogue(rows, vp), edges) <==>
      exists k :: 0 <= k < |edges| && Spans(rows, edges[k]) && seg == Chord(rows, vp, edges[k])
  {
    SegmentsMembership(Catalogue(rows, vp), edges, seg);
    forall k | 0 <= k < |edges|
      ensures Resolve(Catalogue(rows, vp), edges[k]) ==
        if Spans(rows, edges[k]) then Some(Chord(rows, vp, edges[k])) else None
    {
      ResolveInCatalogue(rows, vp, edges[k]);
    }
  }
}
