/** The v1 loader proper: unit-edge walls, content bounds, the parity check
    and the entry point's input checks (src/runtime/loadScene3dV1.ts; the
    browser build src/runtime/loadScene3dV1.browser.js repeats the same
    logic). Geometry is in metres: lattice coordinates times `cellMeters`. */
module V1Loader {
  import opened Scene
  import opened V1Layout
  import opened V1Floors
  import Importer

  // ---------------------------------------------------------------------------
  // Walls

  /** buildWallsV1's box for one edge. A horizontal edge is one cell long along
      x, centred at (x + 0.5, y) in cell space, so it straddles the grid line
      z = y; a vertical edge is the mirror image along z. */
  function EdgeWallBox(e: Edge, cellMeters: real, height: real, thickness: real): (b: Box)
    ensures b.kind == WallBox
    ensures e.dir == Horizontal ==>
      Lo(b) == Vec3(e.x as real * cellMeters, 0.0, e.y as real * cellMeters - thickness / 2.0) &&
      Hi(b) == Vec3((e.x + 1) as real * cellMeters, height, e.y as real * cellMeters + thickness / 2.0)
    ensures e.dir == Vertical ==>
      Lo(b) == Vec3(e.x as real * cellMeters - thickness / 2.0, 0.0, e.y as real * cellMeters) &&
      Hi(b) == Vec3(e.x as real * cellMeters + thickness / 2.0, height, (e.y + 1) as real * cellMeters)
  {
    if e.dir == Horizontal then
      Box(WallBox, Vec3(cellMeters, height, thickness),
          Vec3((e.x as real + 0.5) * cellMeters, height / 2.0, e.y as real * cellMeters))
    else
      Box(WallBox, Vec3(thickness, height, cellMeters),
          Vec3(e.x as real * cellMeters, height / 2.0, (e.y as real + 0.5) * cellMeters))
  }

  /** buildWallsV1: exactly one wall per edge, in edge order. */
  method BuildWallsV1(edges: seq<Edge>, cellMeters: real, height: real, thickness: real) returns (walls: seq<Box>)
    ensures |walls| == |edges|
    ensures forall i :: 0 <= i < |edges| ==> walls[i] == EdgeWallBox(edges[i], cellMeters, height, thickness)
  {
    walls := [];
    var i := 0;
    while i < |edges|
      invariant 0 <= i <= |edges| && |walls| == i
      invariant forall j :: 0 <= j < i ==> walls[j] == EdgeWallBox(edges[j], cellMeters, height, thickness)
    {
      walls := walls + [EdgeWallBox(edges[i], cellMeters, height, thickness)];
      i := i + 1;
    }
  }

  /** At one metre per cell the loader and the reconstructive importer build
      the same unit wall for an edge, except that the importer puts it half a
      cell further along the edge's normal: z = y + 0.5 instead of y for a
      horizontal edge, x = x + 0.5 instead of x for a vertical one. */
  lemma LoaderWallIsHalfCellBehindImporter(x: int, y: int, o: Orientation, height: real, thickness: real)
    ensures var ld, imp := EdgeWallBox(Edge(x, y, o), 1.0, height, thickness), Importer.EdgeBox(Cell(x, y), o, height, thickness);
            && ld.size == imp.size && ld.center.y == imp.center.y
            && (o == Horizontal ==> ld.center.x == imp.center.x && imp.center.z == ld.center.z + 0.5)
            && (o == Vertical ==> ld.center.z == imp.center.z && imp.center.x == ld.center.x + 0.5)
  {
  }

  /** Within the loader itself, the slab of a one-cell strip at (x, y) starts
      half a cell left of the horizontal wall on the same cell's edge. */
  lemma SlabAndWallDisagreeAlongX(x: int, y: int, cellMeters: real, height: real, thickness: real, floorThickness: real)
    requires cellMeters > 0.0
    ensures Lo(StripBox(Strip(x, y, 1), cellMeters, floorThickness)).x
            == Lo(EdgeWallBox(Edge(x, y, Horizontal), cellMeters, height, thickness)).x - cellMeters / 2.0
    ensures Hi(StripBox(Strip(x, y, 1), cellMeters, floorThickness)).x
            < Hi(EdgeWallBox(Edge(x, y, Horizontal), cellMeters, height, thickness)).x
  {
  }

  // ---------------------------------------------------------------------------
  // Bounds

  datatype Bounds = Bounds(min: Vec3, max: Vec3, center: Vec3)

  function Midpoint(a: Vec3, b: Vec3): Vec3 {
    Vec3((a.x + b.x) / 2.0, (a.y + b.y) / 2.0, (a.z + b.z) / 2.0)
  }

  /** computeBounds: the world box over the offset (not re-based) floor tiles,
      one cell past the largest index, from the ground to the wall height; one
      cell at the origin when there are no tiles. */
  function ComputeBounds(floor: seq<Cell>, off: Offset, cellMeters: real, wallHeight: real): (b: Bounds)
    ensures |floor| == 0 ==>
      b == Bounds(Vec3(0.0, 0.0, 0.0), Vec3(cellMeters, wallHeight, cellMeters),
                  Vec3(cellMeters / 2.0, wallHeight / 2.0, cellMeters / 2.0))
    ensures b.center == Midpoint(b.min, b.max)
    ensures b.min.y == 0.0 && b.max.y == wallHeight
  {
    if |floor| == 0 then
      Bounds(Vec3(0.0, 0.0, 0.0), Vec3(cellMeters, wallHeight, cellMeters),
             Vec3(cellMeters / 2.0, wallHeight / 2.0, cellMeters / 2.0))
    else SpanBounds(TileSpan(floor, off), cellMeters, wallHeight)
  }

  /** The world box of a tile span: from the span's least cell to one cell
      past its greatest, scaled by the cell size. */
  function SpanBounds(sp: Span, cellMeters: real, wallHeight: real): Bounds {
    var lo := Vec3(sp.minX as real * cellMeters, 0.0, sp.minY as real * cellMeters);
    var hi := Vec3((sp.maxX + 1) as real * cellMeters, wallHeight, (sp.maxY + 1) as real * cellMeters);
    Bounds(lo, hi, Midpoint(lo, hi))
  }

  lemma MulMono(a: int, b: int, c: real)
    requires a <= b && c >= 0.0
    ensures a as real * c <= b as real * c
  {
    assert (b as real - a as real) * c >= 0.0;
  }

  /** A cell inside a span has its footprint inside the span's world box. */
  lemma SpanBoundsHoldCell(sp: Span, cellMeters: real, wallHeight: real, t: Cell)
    requires cellMeters >= 0.0
    requires sp.minX <= t.x <= sp.maxX && sp.minY <= t.y <= sp.maxY
    ensures var b := SpanBounds(sp, cellMeters, wallHeight);
            b.min.x <= t.x as real * cellMeters && (t.x + 1) as real * cellMeters <= b.max.x &&
            b.min.z <= t.y as real * cellMeters && (t.y + 1) as real * cellMeters <= b.max.z
  {
    MulMono(sp.minX, t.x, cellMeters);
    MulMono(t.x + 1, sp.maxX + 1, cellMeters);
    MulMono(sp.minY, t.y, cellMeters);
    MulMono(t.y + 1, sp.maxY + 1, cellMeters);
  }

  /** The corners of a span's world box, and its extent in cells. */
  lemma SpanBoundsCorners(sp: Span, cellMeters: real, wallHeight: real)
    ensures var b := SpanBounds(sp, cellMeters, wallHeight);
            && b.min == Vec3(sp.minX as real * cellMeters, 0.0, sp.minY as real * cellMeters)
            && b.max == Vec3((sp.minX + (sp.maxX - sp.minX + 1)) as real * cellMeters, wallHeight,
                             (sp.minY + (sp.maxY - sp.minY + 1)) as real * cellMeters)
  {
  }

  /** With non-negative cell size and wall height a span's world box is a
      proper box: min <= max on every axis. */
  lemma SpanBoundsOrdered(sp: Span, cellMeters: real, wallHeight: real)
    requires sp.minX <= sp.maxX && sp.minY <= sp.maxY
    requires cellMeters >= 0.0 && wallHeight >= 0.0
    ensures var b := SpanBounds(sp, cellMeters, wallHeight);
            b.min.x <= b.max.x && b.min.y <= b.max.y && b.min.z <= b.max.z
  {
    MulMono(sp.minX, sp.maxX + 1, cellMeters);
    MulMono(sp.minY, sp.maxY + 1, cellMeters);
  }

  /** With non-negative cell size and wall height the bounds are a proper
      box: min <= max on every axis, also for an empty tile list. */
  lemma BoundsOrdered(floor: seq<Cell>, off: Offset, cellMeters: real, wallHeight: real)
    requires cellMeters >= 0.0 && wallHeight >= 0.0
    ensures var b := ComputeBounds(floor, off, cellMeters, wallHeight);
            b.min.x <= b.max.x && b.min.y <= b.max.y && b.min.z <= b.max.z
  {
    if |floor| > 0 {
      var sp := TileSpan(floor, off);
      TileSpanFacts(floor, off);
      assert ComputeBounds(floor, off, cellMeters, wallHeight) == SpanBounds(sp, cellMeters, wallHeight);
      SpanBoundsOrdered(sp, cellMeters, wallHeight);
    }
  }

  /** With a non-negative cell size the bounds hold the footprint of every
      offset tile. */
  lemma BoundsHoldTiles(floor: seq<Cell>, off: Offset, cellMeters: real, wallHeight: real, i: int)
    requires cellMeters >= 0.0 && 0 <= i < |floor|
    ensures var b, t := ComputeBounds(floor, off, cellMeters, wallHeight), Shifted(floor, off)[i];
            b.min.x <= t.x as real * cellMeters && (t.x + 1) as real * cellMeters <= b.max.x &&
            b.min.z <= t.y as real * cellMeters && (t.y + 1) as real * cellMeters <= b.max.z
  {
    var sp := TileSpan(floor, off);
    TileSpanFacts(floor, off);
    assert ComputeBounds(floor, off, cellMeters, wallHeight) == SpanBounds(sp, cellMeters, wallHeight);
    SpanBoundsHoldCell(sp, cellMeters, wallHeight, Shifted(floor, off)[i]);
  }

  /** The bounds are measured on the offset tiles while the geometry is built
      on the re-based layout: they have the layout's extent but sit shifted by
      the tile minimum, so they coincide with the geometry only when that
      minimum is (0, 0). */
  lemma BoundsAreLayoutShiftedByTileMin(floor: seq<Cell>, off: Offset, cellMeters: real, wallHeight: real)
    requires |floor| > 0
    ensures var b, l, o := ComputeBounds(floor, off, cellMeters, wallHeight), V1ToLayout(floor, off), TileMin(floor, off);
            && b.min.x == o.x as real * cellMeters && b.min.z == o.y as real * cellMeters
            && b.max.x == (o.x + l.width) as real * cellMeters && b.max.z == (o.y + l.height) as real * cellMeters
  {
    var sp := TileSpan(floor, off);
    var l := V1ToLayout(floor, off);
    assert ComputeBounds(floor, off, cellMeters, wallHeight) == SpanBounds(sp, cellMeters, wallHeight);
    assert l.width == sp.maxX - sp.minX + 1 && l.height == sp.maxY - sp.minY + 1;
    assert TileMin(floor, off) == Cell(sp.minX, sp.minY);
    SpanBoundsCorners(sp, cellMeters, wallHeight);
  }

  // ---------------------------------------------------------------------------
  // Parity

  /** The document's expected counts (`meta.parity`). */
  datatype Parity = Parity(tiles: int, edgesH: int, edgesV: int, floorArea: int, edgeLenH: int, edgeLenV: int)

  datatype ParityField = TilesField | EdgesHField | EdgesVField | FloorAreaField | EdgeLenHField | EdgeLenVField

  /** The position of a field in the order the check compares them. */
  function Rank(f: ParityField): int {
    match f
    case TilesField => 0
    case EdgesHField => 1
    case EdgesVField => 2
    case FloorAreaField => 3
    case EdgeLenHField => 4
    case EdgeLenVField => 5
  }

  function FieldOf(p: Parity, f: ParityField): int {
    match f
    case TilesField => p.tiles
    case EdgesHField => p.edgesH
    case EdgesVField => p.edgesV
    case FloorAreaField => p.floorArea
    case EdgeLenHField => p.edgeLenH
    case EdgeLenVField => p.edgeLenV
  }

  /** The counts the loader measures: floor area is the tile count and each
      edge length is the edge count, as for one-metre cells. */
  function ActualParity(floor: seq<Cell>, horizontal: seq<Cell>, vertical: seq<Cell>): Parity {
    Parity(|floor|, |horizontal|, |vertical|, |floor|, |horizontal|, |vertical|)
  }

  datatype Mismatch = Mismatch(field: ParityField, expected: int, actual: int)

  /** The outcome of the parity check: no parity block, or the list of
      mismatching fields (empty means OK). */
  datatype ParityReport = Unavailable | Checked(mismatches: seq<Mismatch>)

  /** `ms` lists exactly the fields where `expected` and `actual` differ, each
      once, in comparison order. */
  predicate ExactMismatches(ms: seq<Mismatch>, expected: Parity, actual: Parity) {
    && (forall i :: 0 <= i < |ms| ==>
          ms[i].expected == FieldOf(expected, ms[i].field) && ms[i].actual == FieldOf(actual, ms[i].field)
          && ms[i].expected != ms[i].actual)
    && (forall f :: FieldOf(expected, f) != FieldOf(actual, f) ==> exists i :: 0 <= i < |ms| && ms[i].field == f)
    && (forall i, j :: 0 <= i < j < |ms| ==> Rank(ms[i].field) < Rank(ms[j].field))
  }

  /** Appends a mismatch for field `f` when the counts differ. */
  method CompareField(ms: seq<Mismatch>, f: ParityField, k: int, expected: Parity, actual: Parity)
    returns (out: seq<Mismatch>)
    requires k == Rank(f) && ExactUpTo(ms, expected, actual, k)
    ensures FieldOf(expected, f) == FieldOf(actual, f) ==> out == ms
    ensures FieldOf(expected, f) != FieldOf(actual, f) ==>
              out == ms + [Mismatch(f, FieldOf(expected, f), FieldOf(actual, f))]
    ensures ExactUpTo(out, expected, actual, k + 1)
  {
    out := ms;
    if FieldOf(actual, f) != FieldOf(expected, f) {
      out := out + [Mismatch(f, FieldOf(expected, f), FieldOf(actual, f))];
    }
    CompareStep(ms, out, f, expected, actual);
  }

  /** `ms` is exact for the fields of rank below `k`: its entries are
      correct mismatches of such fields, in rank order, and every such field
      that differs has an entry. */
  predicate ExactUpTo(ms: seq<Mismatch>, expected: Parity, actual: Parity, k: int) {
    && (forall i :: 0 <= i < |ms| ==>
          ms[i].expected == FieldOf(expected, ms[i].field) && ms[i].actual == FieldOf(actual, ms[i].field)
          && ms[i].expected != ms[i].actual && Rank(ms[i].field) < k)
    && (forall f :: Rank(f) < k && FieldOf(expected, f) != FieldOf(actual, f) ==> exists i :: 0 <= i < |ms| && ms[i].field == f)
    && (forall i, j :: 0 <= i < j < |ms| ==> Rank(ms[i].field) < Rank(ms[j].field))
  }

  /** One comparison extends exactness by one field. */
  lemma CompareStep(ms: seq<Mismatch>, out: seq<Mismatch>, f: ParityField, e: Parity, a: Parity)
    requires ExactUpTo(ms, e, a, Rank(f))
    requires FieldOf(e, f) == FieldOf(a, f) ==> out == ms
    requires FieldOf(e, f) != FieldOf(a, f) ==> out == ms + [Mismatch(f, FieldOf(e, f), FieldOf(a, f))]
    ensures ExactUpTo(out, e, a, Rank(f) + 1)
  {
    forall g | Rank(g) < Rank(f) + 1 && FieldOf(e, g) != FieldOf(a, g)
      ensures exists i :: 0 <= i < |out| && out[i].field == g
    {
      if Rank(g) < Rank(f) {
        var i :| 0 <= i < |ms| && ms[i].field == g;
        assert out[i] == ms[i];
      } else {
        assert g == f;
        assert out[|ms|].field == g;
      }
    }
  }

  /** All six fields compared: the list is exact, and empty exactly when the
      expected counts are the measured ones. */
  lemma ExactAfterAllFields(ms: seq<Mismatch>, e: Parity, a: Parity)
    requires ExactUpTo(ms, e, a, 6)
    ensures ExactMismatches(ms, e, a)
    ensures ms == [] <==> e == a
  {
    if |ms| > 0 {
      assert FieldOf(e, ms[0].field) != FieldOf(a, ms[0].field);
    } else {
      assert FieldOf(e, TilesField) == FieldOf(a, TilesField);
      assert FieldOf(e, EdgesHField) == FieldOf(a, EdgesHField);
      assert FieldOf(e, EdgesVField) == FieldOf(a, EdgesVField);
      assert FieldOf(e, FloorAreaField) == FieldOf(a, FloorAreaField);
      assert FieldOf(e, EdgeLenHField) == FieldOf(a, EdgeLenHField);
      assert FieldOf(e, EdgeLenVField) == FieldOf(a, EdgeLenVField);
    }
  }

  /** validateParity: compares the six measured counts with the document's,
      field by field in a fixed order. */
  method ValidateParity(parity: Option<Parity>, floor: seq<Cell>, horizontal: seq<Cell>, vertical: seq<Cell>)
    returns (report: ParityReport)
    ensures parity.None? <==> report.Unavailable?
    ensures report.Checked? ==> ExactMismatches(report.mismatches, parity.value, ActualParity(floor, horizontal, vertical))
    ensures report.Checked? ==> (report.mismatches == [] <==> parity.value == ActualParity(floor, horizontal, vertical))
  {
    if parity.None? {
      return Unavailable;
    }
    var e, a := parity.value, ActualParity(floor, horizontal, vertical);
    var ms := CompareCounts(e, a);
    ms := CompareLengths(ms, e, a);
    ExactAfterAllFields(ms, e, a);
    report := Checked(ms);
  }

  /** The first three comparisons, of the tile and edge counts. */
  method CompareCounts(e: Parity, a: Parity) returns (ms: seq<Mismatch>)
    ensures ExactUpTo(ms, e, a, 3)
  {
    ms := [];
    ms := CompareField(ms, TilesField, 0, e, a);
    ms := CompareField(ms, EdgesHField, 1, e, a);
    ms := CompareField(ms, EdgesVField, 2, e, a);
  }

  /** The last three comparisons, of the floor area and the edge lengths. */
  method CompareLengths(counted: seq<Mismatch>, e: Parity, a: Parity) returns (ms: seq<Mismatch>)
    requires ExactUpTo(counted, e, a, 3)
    ensures ExactUpTo(ms, e, a, 6)
  {
    ms := counted;
    ms := CompareField(ms, FloorAreaField, 3, e, a);
    ms := CompareField(ms, EdgeLenHField, 4, e, a);
    ms := CompareField(ms, EdgeLenVField, 5, e, a);
  }

  // ---------------------------------------------------------------------------
  // Entry point

  datatype SimLimits = SimLimits(maxTilesX: Option<int>, maxTilesY: Option<int>)

  datatype V1Meta = V1Meta(axes: Option<string>, parity: Option<Parity>, simLimits: Option<SimLimits>)

  datatype V1Units = V1Units(cellMeters: Option<real>, wallHeightMeters: real, wallThicknessMeters: real,
                             floorThicknessMeters: real)

  /** A parsed scene.3d.v1 document as the loader reads it. */
  datatype V1Doc = V1Doc(meta: Option<V1Meta>, units: Option<V1Units>, floor: seq<Cell>,
                         horizontal: seq<Cell>, vertical: seq<Cell>, originOffset: Offset)

  /** What the loader builds: the internal layout and edges, the floor strips
      and their slabs, the walls, the ghost-grid extent, the bounds and the
      parity outcome. */
  datatype LoadedScene = LoadedScene(layout: Layout, edges: seq<Edge>, strips: seq<Strip>, floors: seq<Box>,
                                     walls: seq<Box>, gridW: int, gridH: int, bounds: Bounds,
                                     parity: ParityReport)

  const CellMetersMissing := "Missing required field: units.cellMeters"
  const AxesMissing := "Missing required field: meta.axes"
  const AxesSuffix := "_XY_ground"

  function UnsupportedAxes(axes: string): string {
    "Unsupported axes format: " + axes + ". Expected format: *_XY_ground"
  }

  predicate EndsWith(s: string, suffix: string) {
    |suffix| <= |s| && s[|s| - |suffix|..] == suffix
  }

  /** `scene.units?.cellMeters`. */
  function CellMetersOf(doc: V1Doc): Option<real> {
    if doc.units.Some? then doc.units.value.cellMeters else None
  }

  /** `scene.meta?.axes`. */
  function AxesOf(doc: V1Doc): Option<string> {
    if doc.meta.Some? then doc.meta.value.axes else None
  }

  /** `scene.meta?.axes` is truthy: present and non-empty. */
  predicate HasAxes(doc: V1Doc) {
    AxesOf(doc).Some? && AxesOf(doc).value != ""
  }

  /** The three fatal input checks, in order; None when the document passes. */
  function InputError(doc: V1Doc): (err: Option<string>)
    ensures err.None? <==> Truthy(CellMetersOf(doc)) && HasAxes(doc) && EndsWith(AxesOf(doc).value, AxesSuffix)
    ensures !Truthy(CellMetersOf(doc)) ==> err == Some(CellMetersMissing)
    ensures Truthy(CellMetersOf(doc)) && !HasAxes(doc) ==> err == Some(AxesMissing)
    ensures Truthy(CellMetersOf(doc)) && HasAxes(doc) && !EndsWith(AxesOf(doc).value, AxesSuffix) ==>
              err == Some(UnsupportedAxes(AxesOf(doc).value))
  {
    if !Truthy(CellMetersOf(doc)) then Some(CellMetersMissing)
    else if !HasAxes(doc) then Some(AxesMissing)
    else if !EndsWith(AxesOf(doc).value, AxesSuffix) then Some(UnsupportedAxes(AxesOf(doc).value))
    else None
  }

  /** `meta.simLimits?.maxTilesX || 60` and `meta.simLimits?.maxTilesY || 40`. */
  function GridExtent(m: V1Meta): (wh: (int, int))
    ensures m.simLimits.None? ==> wh == (60, 40)
    ensures m.simLimits.Some? && m.simLimits.value.maxTilesX.Some? && m.simLimits.value.maxTilesX.value != 0 ==>
              wh.0 == m.simLimits.value.maxTilesX.value
    ensures m.simLimits.Some? && m.simLimits.value.maxTilesY.Some? && m.simLimits.value.maxTilesY.value != 0 ==>
              wh.1 == m.simLimits.value.maxTilesY.value
    ensures m.simLimits.None? || m.simLimits.value.maxTilesX.None? || m.simLimits.value.maxTilesX.value == 0 ==>
              wh.0 == 60
    ensures m.simLimits.None? || m.simLimits.value.maxTilesY.None? || m.simLimits.value.maxTilesY.value == 0 ==>
              wh.1 == 40
    ensures wh.0 != 0 && wh.1 != 0
  {
    if m.simLimits.None? then (60, 40)
    else (OrElseInt(m.simLimits.value.maxTilesX, 60), OrElseInt(m.simLimits.value.maxTilesY, 40))
  }

  /** Everything the loader builds for an accepted document, stated through
      the builders' contracts. */
  ghost predicate LoadedShape(doc: V1Doc, g: LoadedScene)
    requires InputError(doc).None?
  {
    var c, u := CellMetersOf(doc).value, doc.units.value;
    var off := doc.originOffset;
    && g.layout == V1ToLayout(doc.floor, off)
    && |g.edges| == |doc.horizontal| + |doc.vertical|
    && (forall i :: 0 <= i < |doc.horizontal| ==>
          g.edges[i] == Edge(Rebase(doc.horizontal[i], doc.floor, off).x, Rebase(doc.horizontal[i], doc.floor, off).y, Horizontal))
    && (forall i :: 0 <= i < |doc.vertical| ==>
          g.edges[|doc.horizontal| + i] == Edge(Rebase(doc.vertical[i], doc.floor, off).x, Rebase(doc.vertical[i], doc.floor, off).y, Vertical))
    && (forall i :: 0 <= i < |g.strips| ==> MaximalStrip(g.layout, g.strips[i]))
    && (forall i, j :: 0 <= i < j < |g.strips| ==> Before(g.strips[i], g.strips[j]))
    && (forall x, y :: StripCovered(x, y, g.strips) <==> IsFloor(g.layout, x, y))
    && |g.floors| == |g.strips|
    && (forall i :: 0 <= i < |g.strips| ==> g.floors[i] == StripBox(g.strips[i], c, u.floorThicknessMeters))
    && |g.walls| == |g.edges|
    && (forall i :: 0 <= i < |g.edges| ==> g.walls[i] == EdgeWallBox(g.edges[i], c, u.wallHeightMeters, u.wallThicknessMeters))
    && (g.gridW, g.gridH) == GridExtent(doc.meta.value)
    && g.bounds == ComputeBounds(doc.floor, off, c, u.wallHeightMeters)
    && (doc.meta.value.parity.None? <==> g.parity.Unavailable?)
    && (g.parity.Checked? ==> ExactMismatches(g.parity.mismatches, doc.meta.value.parity.value,
                                              ActualParity(doc.floor, doc.horizontal, doc.vertical)))
  }

  /** loadScene3dV1 on a parsed document: the three input checks come first
      and reject the document with their message; otherwise the layout,
      edges, floors, walls, grid extent, bounds and parity are built. */
  method LoadScene3dV1(doc: V1Doc) returns (result: Result<LoadedScene, string>)
    ensures InputError(doc).Some? ==> result == Err(InputError(doc).value)
    ensures InputError(doc).None? ==> result.Ok? && LoadedShape(doc, result.value)
  {
    var err := InputError(doc);
    if err.Some? {
      return Err(err.value);
    }
    var u, meta := doc.units.value, doc.meta.value;
    var c := u.cellMeters.value;
    var layout := V1ToLayout(doc.floor, doc.originOffset);
    var edges := V1ToEdges(doc.floor, doc.horizontal, doc.vertical, doc.originOffset);
    var strips, floors := BuildFloorsV1(layout, c, u.floorThicknessMeters);
    var walls := BuildWallsV1(edges, c, u.wallHeightMeters, u.wallThicknessMeters);
    var grid := GridExtent(meta);
    var bounds := ComputeBounds(doc.floor, doc.originOffset, c, u.wallHeightMeters);
    var parity := ValidateParity(meta.parity, doc.floor, doc.horizontal, doc.vertical);
    result := Ok(LoadedScene(layout, edges, strips, floors, walls, grid.0, grid.1, bounds, parity));
  }

  /** In a loaded scene the floor strips cover exactly the re-based floor
      tiles, each exactly once. */
  lemma LoadedFloorsCoverTheTiles(doc: V1Doc, g: LoadedScene, x: int, y: int)
    requires InputError(doc).None? && LoadedShape(doc, g)
    ensures StripCovered(x, y, g.strips) <==>
              exists i :: 0 <= i < |doc.floor| && Rebase(doc.floor[i], doc.floor, doc.originOffset) == Cell(x, y)
    ensures forall i, j :: 0 <= i < j < |g.strips| && InStrip(x, y, g.strips[i]) ==> !InStrip(x, y, g.strips[j])
  {
    LayoutFloorIsTiles(doc.floor, doc.originOffset, x, y);
    forall i, j | 0 <= i < j < |g.strips| && InStrip(x, y, g.strips[i])
      ensures !InStrip(x, y, g.strips[j])
    {
      RowMajorStripsAreDisjoint(g.strips, x, y, i, j);
    }
  }
}
