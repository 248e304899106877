/** Viewports, H3 resolutions and the longitudes a viewport selects. The H3 library itself stays
    a bundle of uninterpreted functions. */
module Geography {
  import opened Entities
  import opened Layers

  datatype LatLng = LatLng(lat: real, lng: real)

  type H3Cell = c: Cell | c != 0 witness 1

  /** The H3 functions the server calls: `accepts` and `cellAt` on the Rust side, the others in Go. */
  datatype Geo = Geo(
    accepts: LatLng -> bool,
    cellAt: (LatLng, int) -> H3Cell,
    polygonCells: (seq<LatLng>, int) -> Result<seq<Cell>>,
    globalCells: int -> Result<seq<Cell>>,
    center: Cell -> LatLng
  )

  /** The cell of a position at one resolution, zero when the engine rejects the position. */
  function CellOf(geo: Geo, p: LatLng, res: int): Cell {
    if geo.accepts(p) then geo.cellAt(p, res) else 0
  }

  ghost predicate Separate<T>(a: array<T>, b: array<T>, c: array<T>, d: array<T>, e: array<T>) {
    a != b && a != c && a != d && a != e && b != c && b != d && b != e && c != d && c != e && d != e
  }

  /** Fills the five output buffers, one per resolution. */
  method ComputeResolutionsBatch(geo: Geo, lats: array<real>, lngs: array<real>, count: nat,
                                 r2: array<Cell>, r3: array<Cell>, r4: array<Cell>, r6: array<Cell>, r7: array<Cell>)
    requires count <= lats.Length && count <= lngs.Length
    requires count <= r2.Length && count <= r3.Length && count <= r4.Length && count <= r6.Length && count <= r7.Length
    requires Separate(r2, r3, r4, r6, r7)
    modifies r2, r3, r4, r6, r7
    ensures forall i :: 0 <= i < count ==>
      var p := LatLng(lats[i], lngs[i]);
      && r2[i] == CellOf(geo, p, 2) && r3[i] == CellOf(geo, p, 3) && r4[i] == CellOf(geo, p, 4)
      && r6[i] == CellOf(geo, p, 6) && r7[i] == CellOf(geo, p, 7)
    ensures forall i :: 0 <= i < count ==>
      if geo.accepts(LatLng(lats[i], lngs[i])) then
        && r2[i] == geo.cellAt(LatLng(lats[i], lngs[i]), 2)
        && r3[i] == geo.cellAt(LatLng(lats[i], lngs[i]), 3)
        && r4[i] == geo.cellAt(LatLng(lats[i], lngs[i]), 4)
        && r6[i] == geo.cellAt(LatLng(lats[i], lngs[i]), 6)
        && r7[i] == geo.cellAt(LatLng(lats[i], lngs[i]), 7)
      else r2[i] == 0 && r3[i] == 0 && r4[i] == 0 && r6[i] == 0 && r7[i] == 0
  {
    for i := 0 to count
      invariant forall k :: 0 <= k < i ==>
        var p := LatLng(lats[k], lngs[k]);
        && r2[k] == CellOf(geo, p, 2) && r3[k] == CellOf(geo, p, 3) && r4[k] == CellOf(geo, p, 4)
        && r6[k] == CellOf(geo, p, 6) && r7[k] == CellOf(geo, p, 7)
    {
      var p := LatLng(lats[i], lngs[i]);
      if geo.accepts(p) {
        r2[i] := geo.cellAt(p, 2);
        r3[i] := geo.cellAt(p, 3);
        r4[i] := geo.cellAt(p, 4);
        r6[i] := geo.cellAt(p, 6);
        r7[i] := geo.cellAt(p, 7);
      } else {
        r2[i] := 0;
        r3[i] := 0;
        r4[i] := 0;
        r6[i] := 0;
        r7[i] := 0;
      }
    }
  }

  function ZoomToResolution(zoom: int): int {
    if zoom < 4 then 3 else if zoom < 5 then 5 else if zoom < 8 then 6 else 7
  }

  // ---- Viewport to cells ----

  datatype Box = Box(west: real, east: real)

  /** The longitude boxes a viewport is queried with: two when it crosses the antimeridian. */
  function Boxes(west: real, east: real): seq<Box> {
    if west > east then [Box(west, 180.0), Box(-180.0, east)] else [Box(west, east)]
  }

  function Corners(vp: Viewport, b: Box): seq<LatLng> {
    [LatLng(vp.north, b.west), LatLng(vp.north, b.east), LatLng(vp.south, b.east), LatLng(vp.south, b.west)]
  }

  /** The cells of all the boxes together; one failing polygon fails the whole. */
  function UnionCells(geo: Geo, vp: Viewport, boxes: seq<Box>, res: int): Result<set<Cell>> {
    if boxes == [] then Ok({}) else
      match geo.polygonCells(Corners(vp, boxes[0]), res)
      case Err => Err
      case Ok(cells) =>
        match UnionCells(geo, vp, boxes[1..], res)
        case Err => Err
        case Ok(others) => Ok(Elements(cells) + others)
  }

  /** The cells a viewport selects. */
  function ViewportCells(geo: Geo, vp: Viewport, res: int): Result<set<Cell>> {
    if vp.IsGlobal() then
      match geo.globalCells(res)
      case Err => Err
      case Ok(cells) => Ok(Elements(cells))
    else UnionCells(geo, vp, Boxes(vp.west, vp.east), res)
  }

  lemma OneBox(geo: Geo, vp: Viewport, b: Box, res: int)
    ensures UnionCells(geo, vp, [b], res) ==
      match geo.polygonCells(Corners(vp, b), res)
      case Err => Err
      case Ok(cells) => Ok(Elements(cells))
  {
    assert [b][1..] == [];
    assert UnionCells(geo, vp, [b][1..], res) == Ok({});
    match geo.polygonCells(Corners(vp, b), res)
    case Err =>
    case Ok(cells) => assert Elements(cells) + {} == Elements(cells);
  }

  /** The cells of a viewport, range by range and corner by corner. */
  lemma ViewportCellsAre(geo: Geo, vp: Viewport, res: int)
    ensures var cells := ViewportCells(geo, vp, res);
      if vp.north >= 90.0 && vp.south <= -90.0 && vp.east >= 180.0 && vp.west <= -180.0 then
        var all := geo.globalCells(res);
        (cells.Ok? <==> all.Ok?) && (cells.Ok? ==> cells.value == Elements(all.value))
      else if vp.west > vp.east then
        var left := geo.polygonCells([LatLng(vp.north, vp.west), LatLng(vp.north, 180.0),
                                      LatLng(vp.south, 180.0), LatLng(vp.south, vp.west)], res);
        var right := geo.polygonCells([LatLng(vp.north, -180.0), LatLng(vp.north, vp.east),
                                       LatLng(vp.south, vp.east), LatLng(vp.south, -180.0)], res);
        && (cells.Ok? <==> left.Ok? && right.Ok?)
        && (cells.Ok? ==> cells.value == Elements(left.value) + Elements(right.value))
      else
        var box := geo.polygonCells([LatLng(vp.north, vp.west), LatLng(vp.north, vp.east),
                                     LatLng(vp.south, vp.east), LatLng(vp.south, vp.west)], res);
        (cells.Ok? <==> box.Ok?) && (cells.Ok? ==> cells.value == Elements(box.value))
  {
    if !vp.IsGlobal() {
      if vp.west > vp.east {
        assert Boxes(vp.west, vp.east)[1..] == [Box(-180.0, vp.east)];
        OneBox(geo, vp, Box(-180.0, vp.east), res);
      } else {
        OneBox(geo, vp, Box(vp.west, vp.east), res);
      }
    }
  }

  method ViewportToCells(geo: Geo, vp: Viewport, res: int) returns (r: Result<seq<Cell>>)
    ensures r.Ok? <==> ViewportCells(geo, vp, res).Ok?
    ensures r.Ok? ==> Elements(r.value) == ViewportCells(geo, vp, res).value
    ensures r.Ok? && !vp.IsGlobal() && vp.west > vp.east ==> NoDuplicates(r.value)
    ensures vp.north >= 90.0 && vp.south <= -90.0 && vp.east >= 180.0 && vp.west <= -180.0 ==> r == geo.globalCells(res)
    ensures !vp.IsGlobal() && vp.west <= vp.east ==>
      r == geo.polygonCells([LatLng(vp.north, vp.west), LatLng(vp.north, vp.east),
                             LatLng(vp.south, vp.east), LatLng(vp.south, vp.west)], res)
    ensures !vp.IsGlobal() && vp.west > vp.east ==>
      var left := geo.polygonCells([LatLng(vp.north, vp.west), LatLng(vp.north, 180.0),
                                    LatLng(vp.south, 180.0), LatLng(vp.south, vp.west)], res);
      var right := geo.polygonCells([LatLng(vp.north, -180.0), LatLng(vp.north, vp.east),
                                     LatLng(vp.south, vp.east), LatLng(vp.south, -180.0)], res);
      && (r.Ok? <==> left.Ok? && right.Ok?)
      && (r.Ok? ==> Elements(r.value) == Elements(left.value) + Elements(right.value))
  {
    ViewportCellsAre(geo, vp, res);
    if vp.IsGlobal() {
      return geo.globalCells(res);
    }
    if vp.west > vp.east {
      var box1, box2 := Box(vp.west, 180.0), Box(-180.0, vp.east);
      assert Boxes(vp.west, vp.east)[1..] == [box2];
      OneBox(geo, vp, box2, res);
      var cells1 := geo.polygonCells(Corners(vp, box1), res);
      if cells1.Err? {
        return Err;
      }
      var cells2 := geo.polygonCells(Corners(vp, box2), res);
      if cells2.Err? {
        return Err;
      }
      var cellMap: set<Cell> := {};
      for i := 0 to |cells1.value|
        invariant cellMap == Elements(cells1.value[..i])
      {
        cellMap := cellMap + {cells1.value[i]};
      }
      assert cells1.value[..|cells1.value|] == cells1.value;
      for i := 0 to |cells2.value|
        invariant cellMap == Elements(cells1.value) + Elements(cells2.value[..i])
      {
        cellMap := cellMap + {cells2.value[i]};
      }
      assert cells2.value[..|cells2.value|] == cells2.value;
      var cells: seq<Cell> := [];
      var todo := cellMap;
      while todo != {}
        invariant Elements(cells) !! todo && Elements(cells) + todo == cellMap
        invariant NoDuplicates(cells)
        decreases todo
      {
        var c :| c in todo;
        assert c !in Elements(cells);
        cells := cells + [c];
        todo := todo - {c};
      }
      return Ok(cells);
    }
    OneBox(geo, vp, Box(vp.west, vp.east), res);
    r := geo.polygonCells(Corners(vp, Box(vp.west, vp.east)), res);
  }

  /** A cell is in view: the viewport is the whole world, or its corners enclose the cell. */
  ghost predicate Encloses(geo: Geo, vp: Viewport, res: int, c: Cell) {
    if vp.north >= 90.0 && vp.south <= -90.0 && vp.east >= 180.0 && vp.west <= -180.0 then true
    else if vp.west > vp.east then
      var left := geo.polygonCells([LatLng(vp.north, vp.west), LatLng(vp.north, 180.0),
                                    LatLng(vp.south, 180.0), LatLng(vp.south, vp.west)], res);
      var right := geo.polygonCells([LatLng(vp.north, -180.0), LatLng(vp.north, vp.east),
                                     LatLng(vp.south, vp.east), LatLng(vp.south, -180.0)], res);
      left.Ok? && right.Ok? && (c in left.value || c in right.value)
    else
      var box := geo.polygonCells([LatLng(vp.north, vp.west), LatLng(vp.north, vp.east),
                                   LatLng(vp.south, vp.east), LatLng(vp.south, vp.west)], res);
      box.Ok? && c in box.value
  }

  // ---- Longitudes, from the browser's map bounds to the server's boxes ----

  function Trunc(x: real): int {
    if x >= 0.0 then x.Floor else -(-x).Floor
  }

  /** The browser's remainder operator: it truncates toward zero. */
  function Rem(x: real, m: real): real
    requires m > 0.0
  {
    x - m * Trunc(x / m) as real
  }

  function NormalizeLng(x: real): real {
    Rem(Rem(x + 180.0, 360.0) + 360.0, 360.0) - 180.0
  }

  /** The viewport message the embedded page builds from the map bounds. */
  function ClientViewport(north: real, south: real, east: real, west: real, zoom: real): Viewport {
    var n := if north < 89.9 then north else 89.9;
    var s := if south > -89.9 then south else -89.9;
    var z := (zoom + 0.5).Floor;
    if east - west >= 360.0 then Viewport(n, s, 180.0, -180.0, z)
    else Viewport(n, s, NormalizeLng(east), NormalizeLng(west), z)
  }

  /** The message keeps the map's latitudes within 89.9 degrees and rounds the zoom to the nearest
      integer, halves up. */
  lemma ClientLatitudes(north: real, south: real, east: real, west: real, zoom: real)
    ensures var vp := ClientViewport(north, south, east, west, zoom);
      && vp.north <= 89.9 && vp.north <= north && (vp.north == north || vp.north == 89.9)
      && vp.south >= -89.9 && vp.south >= south && (vp.south == south || vp.south == -89.9)
      && -0.5 < vp.zoom as real - zoom <= 0.5
  {
  }

  lemma RemRange(x: real)
    ensures x >= 0.0 ==> 0.0 <= Rem(x, 360.0) < 360.0
    ensures x < 0.0 ==> -360.0 < Rem(x, 360.0) <= 0.0
  {
  }

  /** Normalising moves a longitude into [-180, 180) by whole turns. */
  lemma NormalizeTurns(x: real) returns (k: int)
    ensures -180.0 <= NormalizeLng(x) < 180.0
    ensures x == NormalizeLng(x) + 360.0 * k as real
  {
    var a := Rem(x + 180.0, 360.0);
    RemRange(x + 180.0);
    RemRange(a + 360.0);
    k := Trunc((x + 180.0) / 360.0) + Trunc((a + 360.0) / 360.0) - 1;
  }

  /** Longitude `p`, shifted by `k` turns, lies on the map between `west` and `east`. */
  predicate OnMap(west: real, east: real, p: real, k: int) {
    west <= p + 360.0 * k as real <= east
  }

  ghost predicate Selects(boxes: seq<Box>, p: real) {
    exists b :: b in boxes && b.west <= p <= b.east
  }

  /** The boxes the server queries select exactly the longitudes visible on the client's map,
      however many turns the map bounds are away from [-180, 180). */
  lemma SelectionIsWhatTheMapShows(north: real, south: real, east: real, west: real, zoom: real, p: real)
    requires west <= east && -180.0 <= p < 180.0
    ensures var vp := ClientViewport(north, south, east, west, zoom);
      Selects(Boxes(vp.west, vp.east), p) <==> exists k :: OnMap(west, east, p, k)
  {
    var vp := ClientViewport(north, south, east, west, zoom);
    var boxes := Boxes(vp.west, vp.east);
    if east - west >= 360.0 {
      assert boxes[0] in boxes && boxes[0].west <= p <= boxes[0].east;
      var k := ((east - p) / 360.0).Floor;
      assert OnMap(west, east, p, k);
    } else {
      var a := NormalizeTurns(west);
      var b := NormalizeTurns(east);
      TurnGap(vp.west, vp.east, east - west, b - a);
      if Selects(boxes, p) {
        assert OnMap(west, east, p, a) || OnMap(west, east, p, b);
      }
      if k :| OnMap(west, east, p, k) {
        TurnsBetween(vp.west, vp.east, p, a, b, k);
        assert boxes[0] in boxes && boxes[|boxes| - 1] in boxes;
      }
    }
  }

  lemma TurnGap(w: real, e: real, width: real, turns: int)
    requires -180.0 <= w < 180.0 && -180.0 <= e < 180.0 && 0.0 <= width < 360.0
    requires width == e - w + 360.0 * turns as real
    ensures turns == if w > e then 1 else 0
  {
  }

  lemma TurnsBetween(w: real, e: real, p: real, a: int, b: int, k: int)
    requires -180.0 <= w < 180.0 && -180.0 <= e < 180.0 && -180.0 <= p < 180.0
    requires b - a == if w > e then 1 else 0
    requires w + 360.0 * a as real <= p + 360.0 * k as real <= e + 360.0 * b as real
    ensures if w > e then p >= w || p <= e else w <= p <= e
  {
    assert 360.0 * (k - a) as real >= w - p > -360.0;
    assert 360.0 * (k - b) as real <= e - p < 360.0;
  }

  /** The page clamps latitudes, so a browser never sends a viewport the server treats as global. */
  lemma BrowserIsNeverGlobal(north: real, south: real, east: real, west: real, zoom: real)
    ensures !ClientViewport(north, south, east, west, zoom).IsGlobal()
  {
  }
}
