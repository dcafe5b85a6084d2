/** The reconstructive scene.3d.v1 importer (src/runtime/importScene3D.js):
    schema check, unit scaling, the literal (one box per tile or edge) and the
    optimized (clustered floors, coalesced walls) reconstructions, and the run
    counts it reports. One lattice tile is one engine unit on the ground plane;
    heights and thicknesses are metres divided by `cellMeters`. */
module Importer {
  import opened Scene
  import opened ImportClusters
  import opened ImportRuns

  /** The fields of `meta` the importer reads. */
  datatype Meta = Meta(schema: Option<string>, name: Option<string>)

  /** The fields of `units` the importer reads, each possibly absent. */
  datatype Units = Units(
    cellMeters: Option<real>,
    wallHeightMeters: Option<real>,
    wallThicknessMeters: Option<real>,
    floorThicknessMeters: Option<real>)

  /** A scene.3d.v1 document as the importer sees it; `None` stands for a
      missing (or otherwise falsy) object or array. */
  datatype SceneDoc = SceneDoc(
    meta: Option<Meta>,
    units: Option<Units>,
    floor: Option<seq<Cell>>,
    horizontal: Option<seq<Cell>>,
    vertical: Option<seq<Cell>>)

  /** The reconstructed group: its name, the floor and wall boxes, the floor
      regions named by the clustered floor meshes (empty in literal mode), and
      the figures logged at the end of an import. */
  datatype Imported = Imported(
    name: string,
    floors: seq<Box>,
    walls: seq<Box>,
    floorRegions: seq<Region>,
    tiles: nat,
    hRuns: nat,
    vRuns: nat)

  const SchemaId := "scene.3d.v1"
  const SchemaError := "Invalid JSON: expected scene.3d.v1 schema"
  const DefaultFloorThickness := 0.1
  const DefaultWallHeight := 3.0
  const DefaultWallThickness := 0.2

  /** Only the exact mode string "literal" selects literal mode; anything else,
      including the default "optimized", selects the optimized mode. */
  predicate IsLiteral(mode: string) {
    mode == "literal"
  }

  predicate SchemaOk(doc: SceneDoc) {
    doc.meta.Some? && doc.meta.value.schema == Some(SchemaId)
  }

  /** `units?.cellMeters`: absent when `units` is. */
  function CellMeters(doc: SceneDoc): Option<real> {
    if doc.units.Some? then doc.units.value.cellMeters else None
  }

  /** `1 / (units.cellMeters || 1.0)`: engine units per metre. */
  function Scale(doc: SceneDoc): (scale: real)
    ensures scale * OrElse(CellMeters(doc), 1.0) == 1.0
    ensures !Truthy(CellMeters(doc)) ==> scale == 1.0
  {
    1.0 / OrElse(CellMeters(doc), 1.0)
  }

  /** `units?.floorThicknessMeters`, `units?.wallHeightMeters` and
      `units?.wallThicknessMeters`: absent when `units` is. */
  function FloorThicknessMeters(doc: SceneDoc): Option<real> {
    if doc.units.Some? then doc.units.value.floorThicknessMeters else None
  }

  function WallHeightMeters(doc: SceneDoc): Option<real> {
    if doc.units.Some? then doc.units.value.wallHeightMeters else None
  }

  function WallThicknessMeters(doc: SceneDoc): Option<real> {
    if doc.units.Some? then doc.units.value.wallThicknessMeters else None
  }

  /** The floor thickness in engine units: the given metres (0.1 when absent
      or zero) divided by the cell size. */
  function FloorThickness(doc: SceneDoc): (t: real)
    ensures t * OrElse(CellMeters(doc), 1.0) == OrElse(FloorThicknessMeters(doc), DefaultFloorThickness)
    ensures doc.units.None? ==> t == DefaultFloorThickness
  {
    var metres := OrElse(FloorThicknessMeters(doc), DefaultFloorThickness);
    assert metres * Scale(doc) * OrElse(CellMeters(doc), 1.0) == metres * (Scale(doc) * OrElse(CellMeters(doc), 1.0));
    metres * Scale(doc)
  }

  /** The wall height in engine units: the given metres (3 when absent or
      zero) divided by the cell size. */
  function WallHeight(doc: SceneDoc): (h: real)
    ensures h * OrElse(CellMeters(doc), 1.0) == OrElse(WallHeightMeters(doc), DefaultWallHeight)
    ensures doc.units.None? ==> h == DefaultWallHeight
  {
    var metres := OrElse(WallHeightMeters(doc), DefaultWallHeight);
    assert metres * Scale(doc) * OrElse(CellMeters(doc), 1.0) == metres * (Scale(doc) * OrElse(CellMeters(doc), 1.0));
    metres * Scale(doc)
  }

  /** The wall thickness in engine units: the given metres (0.2 when absent
      or zero) divided by the cell size. */
  function WallThickness(doc: SceneDoc): (t: real)
    ensures t * OrElse(CellMeters(doc), 1.0) == OrElse(WallThicknessMeters(doc), DefaultWallThickness)
    ensures doc.units.None? ==> t == DefaultWallThickness
  {
    var metres := OrElse(WallThicknessMeters(doc), DefaultWallThickness);
    assert metres * Scale(doc) * OrElse(CellMeters(doc), 1.0) == metres * (Scale(doc) * OrElse(CellMeters(doc), 1.0));
    metres * Scale(doc)
  }

  function OrEmpty(s: Option<seq<Cell>>): seq<Cell> {
    if s.Some? then s.value else []
  }

  /** `scene-3d-` followed by the scene name, or `imported` when the name is
      missing or empty. */
  function GroupName(doc: SceneDoc): (name: string)
    requires doc.meta.Some?
    ensures |name| > |"scene-3d-"| && name[..|"scene-3d-"|] == "scene-3d-"
    ensures doc.meta.value.name.Some? && doc.meta.value.name.value != "" ==>
              name[|"scene-3d-"|..] == doc.meta.value.name.value
    ensures doc.meta.value.name.None? || doc.meta.value.name.value == "" ==> name == "scene-3d-imported"
  {
    var n := doc.meta.value.name;
    var suffix := if n.Some? && n.value != "" then n.value else "imported";
    assert ("scene-3d-" + suffix)[|"scene-3d-"|..] == suffix;
    "scene-3d-" + suffix
  }

  // ---------------------------------------------------------------------------
  // Boxes

  /** A literal floor tile: one unit square on the ground, `thickness` high. */
  function TileBox(c: Cell, thickness: real): (b: Box)
    ensures b.kind == FloorBox
    ensures Lo(b) == Vec3(c.x as real, 0.0, c.y as real)
    ensures Hi(b) == Vec3(c.x as real + 1.0, thickness, c.y as real + 1.0)
  {
    Box(FloorBox, Vec3(1.0, thickness, 1.0), Vec3(c.x as real + 0.5, thickness / 2.0, c.y as real + 0.5))
  }

  /** A literal wall on one unit edge: a horizontal edge [x, y] spans x..x+1
      and is centred on the line y + 0.5, a vertical one spans y..y+1 centred
      on x + 0.5. */
  function EdgeBox(e: Cell, o: Orientation, height: real, thickness: real): (b: Box)
    ensures b.kind == WallBox
    ensures o.Horizontal? ==>
      Lo(b) == Vec3(e.x as real, 0.0, e.y as real + 0.5 - thickness / 2.0) &&
      Hi(b) == Vec3(e.x as real + 1.0, height, e.y as real + 0.5 + thickness / 2.0)
    ensures o.Vertical? ==>
      Lo(b) == Vec3(e.x as real + 0.5 - thickness / 2.0, 0.0, e.y as real) &&
      Hi(b) == Vec3(e.x as real + 0.5 + thickness / 2.0, height, e.y as real + 1.0)
  {
    var center := Vec3(e.x as real + 0.5, height / 2.0, e.y as real + 0.5);
    if o.Horizontal? then Box(WallBox, Vec3(1.0, height, thickness), center)
    else Box(WallBox, Vec3(thickness, height, 1.0), center)
  }

  /** A coalesced wall: a horizontal run spans startX..endX on the line y + 0.5,
      a vertical run spans startY..endY on the line x + 0.5. */
  function RunBox(r: Run, o: Orientation, height: real, thickness: real): (b: Box)
    ensures b.kind == WallBox
    ensures o.Horizontal? ==>
      Lo(b) == Vec3(r.start as real, 0.0, r.fixed as real + 0.5 - thickness / 2.0) &&
      Hi(b) == Vec3(r.end as real, height, r.fixed as real + 0.5 + thickness / 2.0)
    ensures o.Vertical? ==>
      Lo(b) == Vec3(r.fixed as real + 0.5 - thickness / 2.0, 0.0, r.start as real) &&
      Hi(b) == Vec3(r.fixed as real + 0.5 + thickness / 2.0, height, r.end as real)
  {
    var length := (r.end - r.start) as real;
    var mid := (r.start + r.end) as real / 2.0;
    var line := r.fixed as real + 0.5;
    if o.Horizontal? then Box(WallBox, Vec3(length, height, thickness), Vec3(mid, height / 2.0, line))
    else Box(WallBox, Vec3(thickness, height, length), Vec3(line, height / 2.0, mid))
  }

  /** A run of one edge is built exactly as that edge's literal wall. */
  lemma SingleRunIsLiteralWall(e: Cell, o: Orientation, height: real, thickness: real)
    ensures RunBox(Run(FreeOf(e, o), FreeOf(e, o) + 1, FixedOf(e, o)), o, height, thickness)
         == EdgeBox(e, o, height, thickness)
  {
  }

  /** A literal tile lies in a region's slab exactly when the tile is in the
      region. */
  lemma RegionSlabHoldsTile(r: Region, c: Cell, thickness: real)
    requires WellFormed(r) && thickness >= 0.0
    ensures BoxContains(RegionBox(r, thickness), TileBox(c, thickness)) <==> InRegion(c, r)
  {
  }

  /** A literal edge wall lies in a run's wall exactly when the run is on the
      edge's line and spans the edge. */
  lemma RunWallHoldsEdge(r: Run, e: Cell, o: Orientation, height: real, thickness: real)
    requires height >= 0.0 && thickness >= 0.0
    ensures BoxContains(RunBox(r, o, height, thickness), EdgeBox(e, o, height, thickness))
            <==> r.fixed == FixedOf(e, o) && r.start <= FreeOf(e, o) < r.end
  {
  }

  /** Some wall of the list holds the literal wall of edge `e`. */
  predicate WallsHold(walls: seq<Box>, e: Cell, o: Orientation, height: real, thickness: real) {
    exists i :: 0 <= i < |walls| && BoxContains(walls[i], EdgeBox(e, o, height, thickness))
  }

  /** Some slab of the list holds the literal tile `c`. */
  predicate SlabsHold(floors: seq<Box>, c: Cell, thickness: real) {
    exists i :: 0 <= i < |floors| && BoxContains(floors[i], TileBox(c, thickness))
  }

  /** `walls` is one coalesced wall per run, in order. */
  predicate RunWalls(walls: seq<Box>, runs: seq<Run>, o: Orientation, height: real, thickness: real) {
    |walls| == |runs| && forall i :: 0 <= i < |runs| ==> walls[i] == RunBox(runs[i], o, height, thickness)
  }

  /** `walls` is one literal wall per edge, in order. */
  predicate EdgeWalls(walls: seq<Box>, edges: seq<Cell>, o: Orientation, height: real, thickness: real) {
    |walls| == |edges| && forall i :: 0 <= i < |edges| ==> walls[i] == EdgeBox(edges[i], o, height, thickness)
  }

  /** The coalesced walls replace the literal walls without adding or losing
      any: a literal edge wall is inside some coalesced wall of the same
      orientation exactly when the edge is in the input. */
  lemma CoalescedWallsHoldExactlyTheEdges(edges: seq<Cell>, o: Orientation, height: real, thickness: real, walls: seq<Box>, e: Cell)
    requires height >= 0.0 && thickness >= 0.0
    requires RunWalls(walls, Coalesced(edges, o), o, height, thickness)
    ensures WallsHold(walls, e, o, height, thickness) <==> e in edges
  {
    var runs := Coalesced(edges, o);
    CoalescedFacts(edges, o);
    var k, v := FixedOf(e, o), FreeOf(e, o);
    assert EdgeAt(o, k, v) == e;
    if WallsHold(walls, e, o, height, thickness) {
      var i :| 0 <= i < |walls| && BoxContains(walls[i], EdgeBox(e, o, height, thickness));
      RunWallHoldsEdge(runs[i], e, o, height, thickness);
      assert Covers(runs, k, v);
    }
    if e in edges {
      assert Covers(runs, k, v);
      var i :| 0 <= i < |runs| && runs[i].fixed == k && runs[i].start <= v < runs[i].end;
      RunWallHoldsEdge(runs[i], e, o, height, thickness);
      assert BoxContains(walls[i], EdgeBox(e, o, height, thickness));
    }
  }

  // ---------------------------------------------------------------------------
  // Builders

  /** buildLiteralFloors: one unit slab per floor tile, in input order. */
  method BuildLiteralFloors(floorTiles: seq<Cell>, thickness: real) returns (boxes: seq<Box>)
    ensures |boxes| == |floorTiles|
    ensures forall i :: 0 <= i < |floorTiles| ==> boxes[i] == TileBox(floorTiles[i], thickness)
  {
    boxes := [];
    var i := 0;
    while i < |floorTiles|
      invariant 0 <= i <= |floorTiles|
      invariant |boxes| == i
      invariant forall j :: 0 <= j < i ==> boxes[j] == TileBox(floorTiles[j], thickness)
    {
      boxes := boxes + [TileBox(floorTiles[i], thickness)];
      i := i + 1;
    }
  }

  /** One wall per edge of `edges`, appended to `walls` in input order. */
  method AppendEdgeWalls(walls: seq<Box>, edges: seq<Cell>, o: Orientation, height: real, thickness: real)
    returns (out: seq<Box>)
    ensures |out| == |walls| + |edges| && out[..|walls|] == walls
    ensures EdgeWalls(out[|walls|..], edges, o, height, thickness)
  {
    out := walls;
    var i := 0;
    while i < |edges|
      invariant 0 <= i <= |edges|
      invariant |out| == |walls| + i
      invariant out[..|walls|] == walls
      invariant forall j :: 0 <= j < i ==> out[|walls| + j] == EdgeBox(edges[j], o, height, thickness)
    {
      out := out + [EdgeBox(edges[i], o, height, thickness)];
      i := i + 1;
    }
  }

  /** buildLiteralWalls: one wall per horizontal edge, then one per vertical
      edge. */
  method BuildLiteralWalls(hEdges: seq<Cell>, vEdges: seq<Cell>, height: real, thickness: real)
    returns (walls: seq<Box>)
    ensures |walls| == |hEdges| + |vEdges|
    ensures EdgeWalls(walls[..|hEdges|], hEdges, Horizontal, height, thickness)
    ensures EdgeWalls(walls[|hEdges|..], vEdges, Vertical, height, thickness)
  {
    var hWalls := AppendEdgeWalls([], hEdges, Horizontal, height, thickness);
    assert hWalls[0..] == hWalls;
    walls := AppendEdgeWalls(hWalls, vEdges, Vertical, height, thickness);
  }

  /** One wall per run of `runs`, appended to `walls` in order. */
  method AppendRunWalls(walls: seq<Box>, runs: seq<Run>, o: Orientation, height: real, thickness: real)
    returns (out: seq<Box>)
    ensures |out| == |walls| + |runs| && out[..|walls|] == walls
    ensures RunWalls(out[|walls|..], runs, o, height, thickness)
  {
    out := walls;
    var i := 0;
    while i < |runs|
      invariant 0 <= i <= |runs|
      invariant |out| == |walls| + i
      invariant out[..|walls|] == walls
      invariant forall j :: 0 <= j < i ==> out[|walls| + j] == RunBox(runs[j], o, height, thickness)
    {
      out := out + [RunBox(runs[i], o, height, thickness)];
      i := i + 1;
    }
  }

  /** buildCoalescedWalls: one wall per horizontal run, then one per vertical
      run. */
  method BuildCoalescedWalls(hEdges: seq<Cell>, vEdges: seq<Cell>, height: real, thickness: real)
    returns (walls: seq<Box>)
    ensures |walls| == |Coalesced(hEdges, Horizontal)| + |Coalesced(vEdges, Vertical)|
    ensures RunWalls(walls[..|Coalesced(hEdges, Horizontal)|], Coalesced(hEdges, Horizontal), Horizontal, height, thickness)
    ensures RunWalls(walls[|Coalesced(hEdges, Horizontal)|..], Coalesced(vEdges, Vertical), Vertical, height, thickness)
  {
    var hRuns := CoalesceEdges(hEdges, Horizontal);
    var hWalls := AppendRunWalls([], hRuns, Horizontal, height, thickness);
    assert hWalls[0..] == hWalls;
    var vRuns := CoalesceEdges(vEdges, Vertical);
    walls := AppendRunWalls(hWalls, vRuns, Vertical, height, thickness);
  }

  // ---------------------------------------------------------------------------
  // The import

  /** The literal reconstruction of `doc`: one unit slab per tile and one
      wall per edge, horizontal edges first, and the raw edge counts. */
  predicate LiteralShape(doc: SceneDoc, g: Imported) {
    var floor, h, v := OrEmpty(doc.floor), OrEmpty(doc.horizontal), OrEmpty(doc.vertical);
    && g.hRuns == |h| && g.vRuns == |v| && g.floorRegions == []
    && |g.floors| == |floor|
    && (forall i :: 0 <= i < |floor| ==> g.floors[i] == TileBox(floor[i], FloorThickness(doc)))
    && |g.walls| == |h| + |v|
    && EdgeWalls(g.walls[..|h|], h, Horizontal, WallHeight(doc), WallThickness(doc))
    && EdgeWalls(g.walls[|h|..], v, Vertical, WallHeight(doc), WallThickness(doc))
  }

  /** The optimized reconstruction of `doc`: the greedy rectangular regions of
      the floor tiles in document order (disjoint, covering exactly the floor
      tiles), one slab each, and one wall per
      coalesced run, horizontal runs first, with the run counts. */
  ghost predicate OptimizedShape(doc: SceneDoc, g: Imported) {
    var floor := OrEmpty(doc.floor);
    var hr, vr := Coalesced(OrEmpty(doc.horizontal), Horizontal), Coalesced(OrEmpty(doc.vertical), Vertical);
    && g.hRuns == |hr| && g.vRuns == |vr|
    && |g.walls| == |hr| + |vr|
    && RunWalls(g.walls[..|hr|], hr, Horizontal, WallHeight(doc), WallThickness(doc))
    && RunWalls(g.walls[|hr|..], vr, Vertical, WallHeight(doc), WallThickness(doc))
    && |g.floors| == |g.floorRegions|
    && (forall k :: 0 <= k < |g.floorRegions| ==> WellFormed(g.floorRegions[k]))
    && PairwiseDisjoint(g.floorRegions)
    && (forall c :: c in floor <==> Covered(c, g.floorRegions))
    && (forall k :: 0 <= k < |g.floors| ==> g.floors[k] == RegionBox(g.floorRegions[k], FloorThickness(doc)))
    && g.floorRegions == GreedyRegions(floor, TileSet(floor))
  }

  method ImportLiteral(doc: SceneDoc) returns (floors: seq<Box>, walls: seq<Box>)
    ensures LiteralShape(doc, Imported("", floors, walls, [], 0, |OrEmpty(doc.horizontal)|, |OrEmpty(doc.vertical)|))
  {
    floors := BuildLiteralFloors(OrEmpty(doc.floor), FloorThickness(doc));
    walls := BuildLiteralWalls(OrEmpty(doc.horizontal), OrEmpty(doc.vertical), WallHeight(doc), WallThickness(doc));
  }

  method ImportOptimized(doc: SceneDoc) returns (floors: seq<Box>, walls: seq<Box>, regions: seq<Region>, hRuns: nat, vRuns: nat)
    ensures OptimizedShape(doc, Imported("", floors, walls, regions, 0, hRuns, vRuns))
  {
    regions, floors := BuildClusteredFloors(OrEmpty(doc.floor), FloorThickness(doc));
    walls := BuildCoalescedWalls(OrEmpty(doc.horizontal), OrEmpty(doc.vertical), WallHeight(doc), WallThickness(doc));
    hRuns := CountRuns(OrEmpty(doc.horizontal), Horizontal);
    vRuns := CountRuns(OrEmpty(doc.vertical), Vertical);
  }

  /** importScene3D on an already parsed document. The schema is checked first;
      then, in literal mode, one box per tile and per edge, and in optimized
      mode clustered floor slabs and coalesced walls. The reported run counts
      are the raw edge counts in literal mode and the coalesced run counts
      otherwise. */
  method ImportScene3D(doc: SceneDoc, mode: string) returns (result: Result<Imported, string>)
    ensures result.Err? <==> !SchemaOk(doc)
    ensures result.Err? ==> result.error == SchemaError
    ensures result.Ok? ==>
      && result.value.name == GroupName(doc)
      && result.value.tiles == |OrEmpty(doc.floor)|
      && (IsLiteral(mode) ==> LiteralShape(doc, result.value))
      && (!IsLiteral(mode) ==> OptimizedShape(doc, result.value))
  {
    if !SchemaOk(doc) {
      return Err(SchemaError);
    }
    var name := GroupName(doc);
    var tiles := |OrEmpty(doc.floor)|;
    if IsLiteral(mode) {
      var floors, walls := ImportLiteral(doc);
      result := Ok(Imported(name, floors, walls, [], tiles, |OrEmpty(doc.horizontal)|, |OrEmpty(doc.vertical)|));
    } else {
      var floors, walls, regions, hRuns, vRuns := ImportOptimized(doc);
      result := Ok(Imported(name, floors, walls, regions, tiles, hRuns, vRuns));
    }
  }

  /** Whichever mode is used, the reconstruction reproduces the same set of
      floor tiles and wall edges: in optimized mode a literal tile or edge box
      lies within some clustered slab or coalesced wall exactly when that tile
      or edge is in the document. */
  lemma OptimizedMatchesLiteral(doc: SceneDoc, g: Imported, c: Cell, e: Cell)
    requires OptimizedShape(doc, g)
    requires FloorThickness(doc) >= 0.0 && WallHeight(doc) >= 0.0 && WallThickness(doc) >= 0.0
    ensures SlabsHold(g.floors, c, FloorThickness(doc)) <==> c in OrEmpty(doc.floor)
    ensures WallsHold(g.walls[..g.hRuns], e, Horizontal, WallHeight(doc), WallThickness(doc))
            <==> e in OrEmpty(doc.horizontal)
    ensures WallsHold(g.walls[g.hRuns..], e, Vertical, WallHeight(doc), WallThickness(doc))
            <==> e in OrEmpty(doc.vertical)
  {
    var t := FloorThickness(doc);
    if SlabsHold(g.floors, c, t) {
      var k :| 0 <= k < |g.floors| && BoxContains(g.floors[k], TileBox(c, t));
      RegionSlabHoldsTile(g.floorRegions[k], c, t);
    }
    if c in OrEmpty(doc.floor) {
      var k :| 0 <= k < |g.floorRegions| && InRegion(c, g.floorRegions[k]);
      RegionSlabHoldsTile(g.floorRegions[k], c, t);
      assert BoxContains(g.floors[k], TileBox(c, t));
    }
    var h, v := OrEmpty(doc.horizontal), OrEmpty(doc.vertical);
    CoalescedWallsHoldExactlyTheEdges(h, Horizontal, WallHeight(doc), WallThickness(doc), g.walls[..g.hRuns], e);
    CoalescedWallsHoldExactlyTheEdges(v, Vertical, WallHeight(doc), WallThickness(doc), g.walls[g.hRuns..], e);
  }
}
