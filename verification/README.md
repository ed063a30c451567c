# StarView sky map — verified model of the projection and interaction core

StarView draws a simplified sky map in a browser canvas. It asks a
body-positions service where the sun, moon and planets are for the
viewer's location, projects each body's equatorial coordinates (right
ascension in hours, declination in degrees) onto the canvas, draws a disc
per body and the constellation lines between them, and names the body
under a mouse click.

This Dafny project models the pure logic inside that browser glue:

- `Projection` — the linear projection `project`: right ascension 0–24 h
  runs left to right across the canvas width, declination +90° … −90° runs
  top to bottom across its height.
- `Stars` — the star records built from the rows of the positions table
  (id = row index, placeholder magnitude 1, position from the projection,
  in row order) and the display radius `max(1, 4 - (mag || 2))`.
- `Search` — first-match linear search, the policy shared by `find` and by
  the click handler's early-returning loop.
- `Constellations` — line resolution: each `[i, j]` line finds the first
  star with id `i` and the first with id `j`, and yields a segment only
  when both exist.
- `HitTest` — the click hit test: the first star in list order strictly
  within 10 pixels of the pointer, and the info panel it shows.
- `Sky` — the state the script keeps in globals (canvas size, star list,
  line list), its updates (resize, table loaded, lines loaded) and the
  frame a redraw produces.

Two behaviours of the program are worth stating up front:

- A resize does not re-project: `resizeCanvas` (script.js:9-13) only
  resizes the canvas and redraws with the positions computed earlier;
  `Sky.ResizeRedrawsSameFrame` states this. Only a new positions table
  re-projects.
- The hit test is first-match, not nearest-match: the click handler stops
  at the first star in range (`HitTest.FirstMatchNotNearest`), and line
  ends are resolved by a first-match `find` over the star list.

## Model

| member | source | states |
|---|---|---|
| Projection.Project | script.js:17-23 | For right ascension in [0, 24] and a non-negative width, x lies in [0, width]; for declination in [−90, 90] and a non-negative height, y lies in [0, height]. |
| Projection.Corners | script.js:19-21 | (0 h, +90°) lands at the top-left corner (0, 0), (12 h, 0°) at the centre (W/2, H/2), and (24 h, −90°) at the bottom-right corner (W, H). |
| Projection.Monotone | script.js:19-21 | On a canvas of non-negative size, x never decreases as right ascension grows, and y never increases as declination grows, so north is up. |
| Projection.Injective | script.js:19-21 | On a canvas of positive size, two coordinate pairs that land on the same pixel are equal. |
| Stars.Catalogue | script.js:45-62 | The star list has one star per row. Star k has id k, row k's name and magnitude 1, and sits at the projection of row k's coordinates at the current canvas size. |
| Stars.CatalogueOnCanvas | script.js:50-58 | When every row has right ascension in [0, 24] and declination in [−90, 90], every star of the list lies on the canvas. |
| Stars.CataloguePrefix | script.js:48-62 | Appending rows to the table leaves the stars built for the earlier rows unchanged. |
| Stars.Radius | script.js:74 | The radius is at least 1 and at least 4 minus the drawn magnitude, and equals one of the two. A missing or zero magnitude is drawn as 2. |
| Stars.RadiusDefaults | script.js:74 | The placeholder magnitude 1 gives radius 3. A missing magnitude or a zero magnitude gives radius 2. |
| Stars.RadiusAntitone | script.js:74 | For non-zero magnitudes, a brighter (smaller) magnitude is never drawn with a smaller radius. |
| Stars.RadiusZeroBreaksOrder | script.js:74 | Because `mag || 2` treats 0 as missing, magnitude 0 is drawn with radius 2 while the dimmer magnitude 0.5 gets 3.5. |
| Search.First | script.js:84-85 | The result is the index of an element satisfying the test with no earlier element satisfying it. It is none exactly when no element satisfies the test. |
| Search.FirstAppend | script.js:101-110 | On a concatenation, a match in the first part wins. Otherwise the result is the second part's match shifted by the first part's length, or none. |
| Constellations.Find | script.js:84-85 | Finding an id yields none exactly when no star has that id. Otherwise it yields the first star in list order with that id. |
| Constellations.Resolve | script.js:83-91 | A line yields a segment exactly when both of its ids belong to some star. The segment runs between the positions of the first star with each id. |
| Constellations.Segments | script.js:83-92 | There are never more segments than lines. |
| Constellations.SegmentsAppend | script.js:83-92 | The segments of two consecutive runs of lines are the first run's segments followed by the second's, so line order is kept. |
| Constellations.SegmentsMembership | script.js:83-92 | A segment is drawn exactly when some line resolves to it. |
| Constellations.SegmentsAllDrawn | script.js:83-92 | There are as many segments as lines exactly when every line resolves. |
| Constellations.SegmentsInLineOrder | script.js:83-92 | When every line resolves, the k-th segment is the k-th line's segment. |
| Constellations.SegmentsNoneResolved | script.js:83-92 | When no line resolves, no segment is drawn. |
| Constellations.FindInCatalogue | script.js:84-85 | In a freshly built star list, an id resolves exactly when it is a row index, and then to that row's star. |
| Constellations.ResolveInCatalogue | script.js:83-91 | In a freshly built star list, line [i, j] is drawn exactly when i and j are both row indices, from row i's projected place to row j's. |
| Constellations.SegmentsOfCatalogue | script.js:83-91 | Over a freshly built star list, a segment is drawn exactly when some line [i, j] has both ends among the row indices, and it runs between those rows' projected places. |
| HitTest.Hit | script.js:101-111 | If star k is selected, it lies strictly within 10 pixels of the pointer and no earlier star does. Nothing is selected exactly when no star is within range, which includes the empty list. |
| HitTest.FirstMatchNotNearest | script.js:101-108 | With two stars both in range, the first is selected even though the second is closer to the pointer. |
| HitTest.HitAppend | script.js:101-110 | Stars after a selected star never change the selection. When no star of the first part is in range, the selection comes from the rest, shifted by the first part's length. |
| HitTest.Click | script.js:101-111 | The panel is hidden exactly when no star is in range. Otherwise it shows the label of the first star in range. |
| Sky.Resize | script.js:9-13 | A resize changes the canvas size and keeps both the star list and the lines unchanged. |
| Sky.LoadStars | script.js:45-62 | Loading a table replaces the whole star list by one star per row, projected at the current canvas size. The canvas size and the lines are unchanged. |
| Sky.LoadLines | script.js:26-31 | Loaded line data replaces the lines. A failed load leaves the lines as they were. The canvas size and the stars never change. |
| Sky.Draw | script.js:68-93 | A redraw has one circle per star, in list order, centred on the star, with the star's display radius (so at least 1). Its segments are those of the lines that resolve against the current stars. |
| Sky.DrawAfterLoad | script.js:73-78 | After a table is loaded, the redraw has one 3-pixel circle per row, centred at that row's projected place. |
| Sky.DrawAtStart | script.js:5-6 | A redraw before any data has arrived draws nothing. |
| Sky.DrawAfterEmptyLoad | script.js:45-62 | Loading an empty table leaves a redraw with no circles and no segments. |
| Sky.ResizeRedrawsSameFrame | script.js:9-13 | The redraw after a resize is identical to the one before it, because no star is re-projected. |
| Sky.ReloadAfterResize | script.js:53 | Loading a table after a resize places the stars for the new canvas size. |

## Left out

- Canvas and DOM calls (`clearRect`, `arc`, `stroke`, `innerText`, `style.display`) and the event-listener wiring. The model computes the values these calls consume: the `Frame` of circles and segments, and the `Panel`.
- The network and host APIs: `fetch`, `res.json()`, the Basic-auth header, the date and URL built for the positions query (script.js:34-44), and the constellation-file fetch. The table rows and the line data are parameters. A failed line fetch is the `None` input of `Sky.LoadLines`.
- Geolocation and the San Francisco fallback (script.js:115-123). They only choose the location sent to the service, and that location does not reach the modelled logic.
- Floating point. Coordinates are Dafny `real`s, so there is no rounding and no NaN. A NaN magnitude is falsy in JavaScript and would fall back to 2; the model has no such value.
- HitTest.Near: compares `dx*dx + dy*dy < 100` instead of `Math.sqrt(dx*dx + dy*dy) < 10`. For a non-negative sum these agree, but Dafny has no square root to state it with.
- Loose equality between the string row keys produced by `Object.entries` and the numeric ids in the line data (`s.id == i`). Ids are modelled as integers: row keys are the indices, and line ends are integers.
- Line entries with fewer or more than two ids. Each line is modelled as exactly one pair.
- Malformed responses; the model takes well-formed rows. A table without `data.table.rows`, or a row missing `entry`, `position`, `equatorial`, `rightAscension` or `declination`, makes the loop throw (script.js:48-51). By then `stars = []` (script.js:45) has run and earlier rows may already be pushed, while `drawSky()` (script.js:64) is skipped, so clicks scan a list the canvas does not show.
- Rows missing only `name`, `hours` or `degrees`. These do not throw: they give a star named `undefined`, labelled "⭐ undefined" on click (script.js:107), or NaN coordinates. Names are modelled as strings and coordinates as reals, so neither case exists in the model.
- Sky.LoadLines: a constellation file that parses but has no `lines` field sets the lines to `undefined` (script.js:29) without reaching the `.catch`, and every later redraw then throws at `constellationLines.forEach` (script.js:83) after the stars are drawn. `Option<seq<Edge>>` has no such value. Loading the lines also triggers no redraw (script.js:28-30 never calls `drawSky`), so lines that arrive after the star table appear only at the next resize or table load; the model's redraw is a separate function, `Sky.Draw`, applied by the caller.
- Overlapping `fetchStars` calls, which may finish in any order. This is event-loop scheduling, not sequential logic.
