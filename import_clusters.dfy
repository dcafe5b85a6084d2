/** Greedy rectangular clustering of floor tiles, as done by the reconstructive
    importer (src/runtime/importScene3D.js: findRectangularRegion and
    buildClusteredFloors). Tiles live in lattice units; 1 tile = 1 engine unit. */
module ImportClusters {
  import opened Scene

  /** The importer's region record: an inclusive tile rectangle plus its extent. */
  datatype Region = Region(minX: int, maxX: int, minY: int, maxY: int, width: int, height: int)

  /** A region as findRectangularRegion returns it: non-empty, extents consistent. */
  predicate WellFormed(r: Region) {
    r.width >= 1 && r.height >= 1 &&
    r.maxX == r.minX + r.width - 1 && r.maxY == r.minY + r.height - 1
  }

  predicate InRegion(c: Cell, r: Region) {
    r.minX <= c.x <= r.maxX && r.minY <= c.y <= r.maxY
  }

  /** A tile that may still join a region: a floor tile not yet processed. */
  predicate Available(c: Cell, tileSet: set<Cell>, processed: set<Cell>) {
    c in tileSet && c !in processed
  }

  /** Some region of the list contains the cell. */
  predicate Covered(c: Cell, regions: seq<Region>) {
    exists k :: 0 <= k < |regions| && InRegion(c, regions[k])
  }

  /** No cell lies in two regions of the list. */
  ghost predicate PairwiseDisjoint(regions: seq<Region>) {
    forall i, j, c :: 0 <= i < j < |regions| && InRegion(c, regions[i]) ==> !InRegion(c, regions[j])
  }

  /** Row `y` has a tile in columns [x0, x0 + width) that is missing or already processed. */
  predicate RowBlocked(y: int, x0: int, width: int, tileSet: set<Cell>, processed: set<Cell>) {
    exists x :: x0 <= x < x0 + width && !Available(Cell(x, y), tileSet, processed)
  }

  /** Tiles of `tileSet` at or below row `row`; shrinks as a region grows downward. */
  function TilesFromRow(tileSet: set<Cell>, row: int): set<Cell> {
    set c | c in tileSet && c.y >= row
  }

  /** Tiles of row `row` at or right of column `col`; shrinks as a region grows rightward. */
  function TilesRightOf(tileSet: set<Cell>, row: int, col: int): set<Cell> {
    set c | c in tileSet && c.y == row && c.x >= col
  }

  /** Length of the run of available tiles in row `y` from column `x` rightward. */
  ghost function RunWidth(x: int, y: int, tileSet: set<Cell>, processed: set<Cell>): nat
    decreases TilesRightOf(tileSet, y, x)
  {
    if Available(Cell(x, y), tileSet, processed) then
      assert Cell(x, y) in TilesRightOf(tileSet, y, x);
      1 + RunWidth(x + 1, y, tileSet, processed)
    else
      0
  }

  /** Number of rows from `y` downward whose columns [x0, x0 + width) are all available. */
  ghost function RowsDown(x0: int, width: int, y: int, tileSet: set<Cell>, processed: set<Cell>): nat
    requires width >= 1
    decreases TilesFromRow(tileSet, y)
  {
    if RowBlocked(y, x0, width, tileSet, processed) then
      0
    else
      assert Available(Cell(x0, y), tileSet, processed);
      assert Cell(x0, y) in TilesFromRow(tileSet, y);
      1 + RowsDown(x0, width, y + 1, tileSet, processed)
  }

  /** The rectangle grown from an available tile: the run of available tiles to
      its right gives the width, the available rows below it the height. */
  ghost function Grown(start: Cell, tileSet: set<Cell>, processed: set<Cell>): Region
    requires Available(start, tileSet, processed)
  {
    var w := RunWidth(start.x, start.y, tileSet, processed);
    var h := RowsDown(start.x, w, start.y, tileSet, processed);
    Region(start.x, start.x + w - 1, start.y, start.y + h - 1, w, h)
  }

  /** Grows a rectangle from (startX, startY): as wide as the run of available
      tiles to the right, then as many rows down as are available across that
      whole width. The start tile must be available, otherwise the width is 0
      and the height scan never stops. */
  method FindRectangularRegion(startX: int, startY: int, tileSet: set<Cell>, processed: set<Cell>)
    returns (region: Region)
    requires Available(Cell(startX, startY), tileSet, processed)
    ensures WellFormed(region) && region.minX == startX && region.minY == startY
    ensures forall c :: InRegion(c, region) ==> Available(c, tileSet, processed)
    ensures !Available(Cell(startX + region.width, startY), tileSet, processed)
    ensures RowBlocked(startY + region.height, startX, region.width, tileSet, processed)
    ensures region == Grown(Cell(startX, startY), tileSet, processed)
  {
    var width := 0;
    var height := 0;

    while Available(Cell(startX + width, startY), tileSet, processed)
      invariant width >= 0
      invariant forall x :: startX <= x < startX + width ==> Available(Cell(x, startY), tileSet, processed)
      invariant width + RunWidth(startX + width, startY, tileSet, processed) == RunWidth(startX, startY, tileSet, processed)
      decreases TilesRightOf(tileSet, startY, startX + width)
    {
      assert Cell(startX + width, startY) in TilesRightOf(tileSet, startY, startX + width);
      width := width + 1;
    }
    assert width >= 1 by {
      assert width != 0;
    }

    var validHeight := true;
    while validHeight
      invariant height >= 0
      invariant forall c: Cell :: startX <= c.x < startX + width && startY <= c.y < startY + height ==>
                             Available(c, tileSet, processed)
      invariant !validHeight ==> RowBlocked(startY + height, startX, width, tileSet, processed)
      invariant validHeight ==> height + RowsDown(startX, width, startY + height, tileSet, processed)
                                == RowsDown(startX, width, startY, tileSet, processed)
      invariant !validHeight ==> height == RowsDown(startX, width, startY, tileSet, processed)
      decreases TilesFromRow(tileSet, startY + height), if validHeight then 1 else 0
    {
      var row := startY + height;
      var x := startX;
      while x < startX + width
        invariant startX <= x <= startX + width
        invariant forall x' :: startX <= x' < x ==> Available(Cell(x', row), tileSet, processed)
      {
        if !Available(Cell(x, row), tileSet, processed) {
          validHeight := false;
          break;
        }
        x := x + 1;
      }
      if validHeight {
        assert Cell(startX, startY + height) in TilesFromRow(tileSet, startY + height);
        height := height + 1;
      }
    }
    assert height >= 1;

    region := Region(startX, startX + width - 1, startY, startY + height - 1, width, height);
  }

  /** Adds every tile of the region to `processed`, row by row. */
  method MarkProcessed(processed: set<Cell>, region: Region) returns (marked: set<Cell>)
    requires WellFormed(region)
    ensures forall c :: c in marked <==> c in processed || InRegion(c, region)
  {
    marked := processed;
    var y := region.minY;
    while y <= region.maxY
      invariant region.minY <= y <= region.maxY + 1
      invariant forall c :: c in marked <==> c in processed || (InRegion(c, region) && c.y < y)
    {
      var x := region.minX;
      while x <= region.maxX
        invariant region.minX <= x <= region.maxX + 1
        invariant forall c :: c in marked <==>
                    c in processed || (InRegion(c, region) && (c.y < y || (c.y == y && c.x < x)))
      {
        marked := marked + {Cell(x, y)};
        x := x + 1;
      }
      y := y + 1;
    }
  }

  /** The merged floor slab of a region: it occupies exactly the region's tiles
      on the ground plane and rises from 0 to the floor thickness. */
  function RegionBox(r: Region, thickness: real): (b: Box)
    requires WellFormed(r)
    ensures b.kind == FloorBox
    ensures Lo(b) == Vec3(r.minX as real, 0.0, r.minY as real)
    ensures Hi(b) == Vec3((r.maxX + 1) as real, thickness, (r.maxY + 1) as real)
  {
    var w := r.width as real;
    var h := r.height as real;
    Box(FloorBox, Vec3(w, thickness, h),
        Vec3(r.minX as real + w / 2.0, thickness / 2.0, r.minY as real + h / 2.0))
  }

  /** One slab per region, in the same order. */
  predicate SlabsOf(regions: seq<Region>, boxes: seq<Box>, thickness: real) {
    && |boxes| == |regions|
    && forall k :: 0 <= k < |regions| ==> WellFormed(regions[k]) && boxes[k] == RegionBox(regions[k], thickness)
  }

  /** The floor tiles as a set, for membership tests. */
  function TileSet(floorTiles: seq<Cell>): set<Cell> {
    set c | c in floorTiles
  }

  /** The floor tiles some region of the list already covers. */
  ghost function CoveredTiles(regions: seq<Region>, tileSet: set<Cell>): set<Cell> {
    set c | c in tileSet && Covered(c, regions)
  }

  /** The regions the clustering loop produces after visiting `tiles` in
      order: a tile inside an earlier region starts nothing; any other tile
      starts the rectangle grown from it among the tiles not yet covered. */
  ghost function GreedyRegions(tiles: seq<Cell>, tileSet: set<Cell>): seq<Region>
    requires forall c :: c in tiles ==> c in tileSet
    decreases |tiles|
  {
    if tiles == [] then
      []
    else
      var prior := GreedyRegions(tiles[..|tiles| - 1], tileSet);
      var t := tiles[|tiles| - 1];
      if Covered(t, prior) then prior
      else prior + [Grown(t, tileSet, CoveredTiles(prior, tileSet))]
  }

  /** What a clustering of `tiles` must be: well-formed, pairwise disjoint
      rectangles of floor tiles that cover every tile of `tiles`, each starting
      at one of them. */
  ghost predicate Partitions(tiles: seq<Cell>, tileSet: set<Cell>, regions: seq<Region>) {
    && (forall k :: 0 <= k < |regions| ==> WellFormed(regions[k]))
    && PairwiseDisjoint(regions)
    && (forall c :: Covered(c, regions) ==> c in tileSet)
    && (forall c :: c in tiles ==> Covered(c, regions))
    && (forall k :: 0 <= k < |regions| ==> Cell(regions[k].minX, regions[k].minY) in tiles)
  }

  /** Partitions the floor tiles, in input order, into greedy rectangles and
      emits one slab per rectangle. A tile already inside an earlier rectangle
      (including a duplicate) starts nothing. */
  method BuildClusteredFloors(floorTiles: seq<Cell>, thickness: real)
    returns (regions: seq<Region>, boxes: seq<Box>)
    ensures forall k :: 0 <= k < |regions| ==> WellFormed(regions[k])
    ensures PairwiseDisjoint(regions)
    ensures forall c :: c in floorTiles <==> Covered(c, regions)
    ensures forall k :: 0 <= k < |regions| ==> Cell(regions[k].minX, regions[k].minY) in floorTiles
    ensures |boxes| == |regions|
    ensures forall k :: 0 <= k < |regions| ==> boxes[k] == RegionBox(regions[k], thickness)
    ensures regions == GreedyRegions(floorTiles, TileSet(floorTiles))
  {
    var tileSet := TileSet(floorTiles);
    var processed: set<Cell> := {};
    regions, boxes := [], [];
    var i := 0;
    while i < |floorTiles|
      invariant 0 <= i <= |floorTiles|
      invariant regions == GreedyRegions(floorTiles[..i], tileSet)
      invariant processed == CoveredTiles(regions, tileSet)
      invariant SlabsOf(regions, boxes, thickness)
    {
      var start := floorTiles[i];
      if start in processed {
        GreedySkip(floorTiles, tileSet, i, regions);
      } else {
        assert start in tileSet;
        var region := FindRectangularRegion(start.x, start.y, tileSet, processed);
        assert Cell(start.x, start.y) == start;
        var marked := MarkProcessed(processed, region);
        GreedyTake(floorTiles, tileSet, i, regions, region);
        MarkCovers(regions, region, tileSet, processed, marked);
        AppendSlab(regions, boxes, thickness, region);
        processed := marked;
        regions := regions + [region];
        boxes := boxes + [RegionBox(region, thickness)];
      }
      i := i + 1;
    }
    assert floorTiles[..i] == floorTiles;
    GreedyPartitions(floorTiles, tileSet);
    FinishClusters(floorTiles, regions);
  }

  /** The greedy regions of a prefix are unchanged by a tile already covered. */
  lemma GreedySkip(floorTiles: seq<Cell>, tileSet: set<Cell>, i: int, regions: seq<Region>)
    requires 0 <= i < |floorTiles| && tileSet == TileSet(floorTiles)
    requires regions == GreedyRegions(floorTiles[..i], tileSet)
    requires floorTiles[i] in CoveredTiles(regions, tileSet)
    ensures regions == GreedyRegions(floorTiles[..i + 1], tileSet)
  {
    assert floorTiles[..i + 1][..i] == floorTiles[..i];
  }

  /** The greedy regions of a prefix grow by the rectangle grown from an
      uncovered tile among the tiles not yet covered. */
  lemma GreedyTake(floorTiles: seq<Cell>, tileSet: set<Cell>, i: int, regions: seq<Region>, r: Region)
    requires 0 <= i < |floorTiles| && tileSet == TileSet(floorTiles)
    requires regions == GreedyRegions(floorTiles[..i], tileSet)
    requires Available(floorTiles[i], tileSet, CoveredTiles(regions, tileSet))
    requires r == Grown(floorTiles[i], tileSet, CoveredTiles(regions, tileSet))
    ensures regions + [r] == GreedyRegions(floorTiles[..i + 1], tileSet)
  {
    assert floorTiles[..i + 1][..i] == floorTiles[..i];
  }

  /** Marking a region made of floor tiles makes the processed set the tiles
      covered by the longer list. */
  lemma MarkCovers(regions: seq<Region>, r: Region, tileSet: set<Cell>, processed: set<Cell>, marked: set<Cell>)
    requires processed == CoveredTiles(regions, tileSet)
    requires forall c :: InRegion(c, r) ==> c in tileSet
    requires forall c :: c in marked <==> c in processed || InRegion(c, r)
    ensures marked == CoveredTiles(regions + [r], tileSet)
  {
    CoveredAppend(regions, r);
  }

  /** One more region, one more slab. */
  lemma AppendSlab(regions: seq<Region>, boxes: seq<Box>, thickness: real, r: Region)
    requires SlabsOf(regions, boxes, thickness) && WellFormed(r)
    ensures SlabsOf(regions + [r], boxes + [RegionBox(r, thickness)], thickness)
  {
  }

  /** Once every tile is visited, a cell is covered exactly when it is a floor
      tile, and every region starts at one. */
  lemma FinishClusters(floorTiles: seq<Cell>, regions: seq<Region>)
    requires Partitions(floorTiles, TileSet(floorTiles), regions)
    ensures forall c :: c in floorTiles <==> Covered(c, regions)
    ensures forall k :: 0 <= k < |regions| ==> Cell(regions[k].minX, regions[k].minY) in floorTiles
  {
  }

  // ---------------------------------------------------------------------------
  // Properties of the greedy clustering

  /** Every tile of the row run from (x, y) is available, and the run stops at
      the first tile that is not. */
  lemma {:induction false} RunWidthAvailable(x: int, y: int, tileSet: set<Cell>, processed: set<Cell>)
    ensures forall x' :: x <= x' < x + RunWidth(x, y, tileSet, processed) ==> Available(Cell(x', y), tileSet, processed)
    ensures !Available(Cell(x + RunWidth(x, y, tileSet, processed), y), tileSet, processed)
    decreases TilesRightOf(tileSet, y, x)
  {
    if Available(Cell(x, y), tileSet, processed) {
      assert Cell(x, y) in TilesRightOf(tileSet, y, x);
      RunWidthAvailable(x + 1, y, tileSet, processed);
    }
  }

  /** Every tile of the rows counted down from row `y` is available across the
      width, and the count stops at the first row that is blocked. */
  lemma {:induction false} RowsDownAvailable(x0: int, width: int, y: int, tileSet: set<Cell>, processed: set<Cell>)
    requires width >= 1
    ensures forall c: Cell :: x0 <= c.x < x0 + width && y <= c.y < y + RowsDown(x0, width, y, tileSet, processed) ==>
                              Available(c, tileSet, processed)
    ensures RowBlocked(y + RowsDown(x0, width, y, tileSet, processed), x0, width, tileSet, processed)
    decreases TilesFromRow(tileSet, y)
  {
    if !RowBlocked(y, x0, width, tileSet, processed) {
      assert Available(Cell(x0, y), tileSet, processed);
      assert Cell(x0, y) in TilesFromRow(tileSet, y);
      RowsDownAvailable(x0, width, y + 1, tileSet, processed);
      forall c: Cell | x0 <= c.x < x0 + width && c.y == y
        ensures Available(c, tileSet, processed)
      {
        assert c == Cell(c.x, y);
      }
    }
  }

  /** The rectangle grown from an available tile is a well-formed region with
      that tile as its corner, made of available tiles, as wide as the run of
      available tiles and as high as the unblocked rows allow. */
  lemma GrownAvailable(start: Cell, tileSet: set<Cell>, processed: set<Cell>)
    requires Available(start, tileSet, processed)
    ensures var r := Grown(start, tileSet, processed);
            WellFormed(r) && r.minX == start.x && r.minY == start.y
    ensures var r := Grown(start, tileSet, processed);
            forall c :: InRegion(c, r) ==> Available(c, tileSet, processed)
    ensures var r := Grown(start, tileSet, processed);
            && !Available(Cell(start.x + r.width, start.y), tileSet, processed)
            && RowBlocked(start.y + r.height, start.x, r.width, tileSet, processed)
  {
    var w := RunWidth(start.x, start.y, tileSet, processed);
    RunWidthAvailable(start.x, start.y, tileSet, processed);
    assert Available(Cell(start.x, start.y), tileSet, processed);
    assert !RowBlocked(start.y, start.x, w, tileSet, processed);
    RowsDownAvailable(start.x, w, start.y, tileSet, processed);
  }

  /** A cell is covered by a longer list exactly when the shorter list or the
      added region covers it. */
  lemma CoveredAppend(regions: seq<Region>, r: Region)
    ensures forall c :: Covered(c, regions + [r]) <==> Covered(c, regions) || InRegion(c, r)
  {
    forall c
      ensures Covered(c, regions + [r]) <==> Covered(c, regions) || InRegion(c, r)
    {
      var rs := regions + [r];
      if Covered(c, rs) {
        var k :| 0 <= k < |rs| && InRegion(c, rs[k]);
        if k < |regions| {
          assert InRegion(c, regions[k]);
        }
      }
      if Covered(c, regions) {
        var k :| 0 <= k < |regions| && InRegion(c, regions[k]);
        assert InRegion(c, rs[k]);
      }
      if InRegion(c, r) {
        assert InRegion(c, rs[|regions|]);
      }
    }
  }

  /** A region none of whose cells is already covered keeps the list disjoint. */
  lemma DisjointAppend(regions: seq<Region>, r: Region)
    requires PairwiseDisjoint(regions)
    requires forall c :: InRegion(c, r) ==> !Covered(c, regions)
    ensures PairwiseDisjoint(regions + [r])
  {
    var rs := regions + [r];
    forall i, j, c | 0 <= i < j < |rs| && InRegion(c, rs[i])
      ensures !InRegion(c, rs[j])
    {
      if j == |regions| {
        assert InRegion(c, regions[i]);
      }
    }
  }

  /** The greedy regions of any tile sequence partition it: they are
      well-formed, pairwise disjoint rectangles of floor tiles, every tile lies
      in one of them, and each starts at a tile of the sequence. */
  lemma {:induction false} GreedyPartitions(tiles: seq<Cell>, tileSet: set<Cell>)
    requires forall c :: c in tiles ==> c in tileSet
    ensures Partitions(tiles, tileSet, GreedyRegions(tiles, tileSet))
    decreases |tiles|
  {
    if tiles != [] {
      var init, t := tiles[..|tiles| - 1], tiles[|tiles| - 1];
      assert tiles == init + [t];
      GreedyPartitions(init, tileSet);
      if Covered(t, GreedyRegions(init, tileSet)) {
        PartitionsSkip(init, t, tileSet, GreedyRegions(init, tileSet));
      } else {
        var prior := GreedyRegions(init, tileSet);
        var processed := CoveredTiles(prior, tileSet);
        GrownAvailable(t, tileSet, processed);
        PartitionsTake(init, t, tileSet, prior, Grown(t, tileSet, processed));
      }
    }
  }

  /** A tile already covered leaves a partition a partition of the longer sequence. */
  lemma PartitionsSkip(init: seq<Cell>, t: Cell, tileSet: set<Cell>, regions: seq<Region>)
    requires Partitions(init, tileSet, regions) && Covered(t, regions)
    ensures Partitions(init + [t], tileSet, regions)
  {
  }

  /** Adding a well-formed region cornered at the next tile and made of
      uncovered floor tiles extends a partition to the longer sequence. */
  lemma PartitionsTake(init: seq<Cell>, t: Cell, tileSet: set<Cell>, regions: seq<Region>, r: Region)
    requires Partitions(init, tileSet, regions)
    requires WellFormed(r) && r.minX == t.x && r.minY == t.y
    requires forall c :: InRegion(c, r) ==> c in tileSet && !Covered(c, regions)
    ensures Partitions(init + [t], tileSet, regions + [r])
  {
    CoveredAppend(regions, r);
    DisjointAppend(regions, r);
    assert InRegion(t, r);
    var rs := regions + [r];
    assert forall k :: 0 <= k < |regions| ==> rs[k] == regions[k];
  }

  /** A full 2×2 block of floor tiles, listed row by row, becomes a single
      2×2 region: the first tile grows the whole block and the other three
      start nothing. */
  lemma SquareBlockIsOneRegion()
    ensures var tiles := [Cell(0, 0), Cell(1, 0), Cell(0, 1), Cell(1, 1)];
            GreedyRegions(tiles, TileSet(tiles)) == [Region(0, 1, 0, 1, 2, 2)]
  {
    var tiles := [Cell(0, 0), Cell(1, 0), Cell(0, 1), Cell(1, 1)];
    var tileSet := TileSet(tiles);
    assert tileSet == {Cell(0, 0), Cell(1, 0), Cell(0, 1), Cell(1, 1)};
    var none: set<Cell> := {};
    assert RunWidth(2, 0, tileSet, none) == 0;
    assert RunWidth(0, 0, tileSet, none) == 2;
    assert !RowBlocked(0, 0, 2, tileSet, none);
    assert !RowBlocked(1, 0, 2, tileSet, none);
    assert !Available(Cell(0, 2), tileSet, none);
    assert RowBlocked(2, 0, 2, tileSet, none);
    assert RowsDown(0, 2, 2, tileSet, none) == 0;
    assert RowsDown(0, 2, 1, tileSet, none) == 1;
    assert RowsDown(0, 2, 0, tileSet, none) == 2;
    var r := Region(0, 1, 0, 1, 2, 2);
    assert CoveredTiles([], tileSet) == none;
    assert GreedyRegions(tiles[..1], tileSet) == [r];
    assert InRegion(tiles[1], [r][0]) && InRegion(tiles[2], [r][0]) && InRegion(tiles[3], [r][0]);
    assert GreedyRegions(tiles[..2], tileSet) == [r] by { assert tiles[..2][..1] == tiles[..1]; }
    assert GreedyRegions(tiles[..3], tileSet) == [r] by { assert tiles[..3][..2] == tiles[..2]; }
    assert tiles[..4][..3] == tiles[..3] && tiles[..4] == tiles;
  }

  /** The same block listed from its bottom-right tile first gives three
      regions: that tile can only grow right and down, so it stays 1×1 and
      splits what remains of the block. */
  lemma SquareBlockOrderMatters()
    ensures var tiles := [Cell(1, 1), Cell(0, 0), Cell(1, 0), Cell(0, 1)];
            GreedyRegions(tiles, TileSet(tiles))
            == [Region(1, 1, 1, 1, 1, 1), Region(0, 1, 0, 0, 2, 1), Region(0, 0, 1, 1, 1, 1)]
  {
    var tiles := [Cell(1, 1), Cell(0, 0), Cell(1, 0), Cell(0, 1)];
    var tileSet := TileSet(tiles);
    assert tileSet == {Cell(0, 0), Cell(1, 0), Cell(0, 1), Cell(1, 1)};
    var r1, r2, r3 := Region(1, 1, 1, 1, 1, 1), Region(0, 1, 0, 0, 2, 1), Region(0, 0, 1, 1, 1, 1);
    assert CoveredTiles([], tileSet) == {};
    GrowBottomRight(tileSet);
    assert GreedyRegions(tiles[..1], tileSet) == [r1];
    var p1 := CoveredTiles([r1], tileSet);
    CoveredByBottomRight(tileSet);
    GrowTopRow(tileSet, p1);
    assert !Covered(Cell(0, 0), [r1]);
    assert GreedyRegions(tiles[..2], tileSet) == [r1, r2] by { assert tiles[..2][..1] == tiles[..1]; }
    assert InRegion(Cell(1, 0), [r1, r2][1]);
    assert GreedyRegions(tiles[..3], tileSet) == [r1, r2] by { assert tiles[..3][..2] == tiles[..2]; }
    var p2 := CoveredTiles([r1, r2], tileSet);
    CoveredByTwoRegions(tileSet);
    GrowLeftCell(tileSet, p2);
    assert !Covered(Cell(0, 1), [r1, r2]);
    assert tiles[..4][..3] == tiles[..3] && tiles[..4] == tiles;
  }

  /** After the first region only (1,1) is processed. */
  lemma CoveredByBottomRight(tileSet: set<Cell>)
    requires tileSet == {Cell(0, 0), Cell(1, 0), Cell(0, 1), Cell(1, 1)}
    ensures CoveredTiles([Region(1, 1, 1, 1, 1, 1)], tileSet) == {Cell(1, 1)}
  {
    var rs := [Region(1, 1, 1, 1, 1, 1)];
    forall c | c in CoveredTiles(rs, tileSet)
      ensures c == Cell(1, 1)
    {
      var k :| 0 <= k < |rs| && InRegion(c, rs[k]);
    }
    assert InRegion(Cell(1, 1), rs[0]);
  }

  /** After the second region (1,1), (0,0) and (1,0) are processed. */
  lemma CoveredByTwoRegions(tileSet: set<Cell>)
    requires tileSet == {Cell(0, 0), Cell(1, 0), Cell(0, 1), Cell(1, 1)}
    ensures CoveredTiles([Region(1, 1, 1, 1, 1, 1), Region(0, 1, 0, 0, 2, 1)], tileSet)
            == {Cell(1, 1), Cell(0, 0), Cell(1, 0)}
  {
    var rs := [Region(1, 1, 1, 1, 1, 1), Region(0, 1, 0, 0, 2, 1)];
    forall c | c in CoveredTiles(rs, tileSet)
      ensures c in {Cell(1, 1), Cell(0, 0), Cell(1, 0)}
    {
      var k :| 0 <= k < |rs| && InRegion(c, rs[k]);
    }
    assert InRegion(Cell(1, 1), rs[0]);
    assert InRegion(Cell(0, 0), rs[1]) && InRegion(Cell(1, 0), rs[1]);
  }

  /** In the 2×2 block with nothing processed, (1,1) grows only itself. */
  lemma GrowBottomRight(tileSet: set<Cell>)
    requires tileSet == {Cell(0, 0), Cell(1, 0), Cell(0, 1), Cell(1, 1)}
    ensures Grown(Cell(1, 1), tileSet, {}) == Region(1, 1, 1, 1, 1, 1)
  {
    var none: set<Cell> := {};
    assert RunWidth(2, 1, tileSet, none) == 0;
    assert RunWidth(1, 1, tileSet, none) == 1;
    assert !Available(Cell(1, 2), tileSet, none);
    assert RowsDown(1, 1, 2, tileSet, none) == 0;
    assert RowsDown(1, 1, 1, tileSet, none) == 1;
  }

  /** With (1,1) processed, (0,0) grows along the top row only. */
  lemma GrowTopRow(tileSet: set<Cell>, processed: set<Cell>)
    requires tileSet == {Cell(0, 0), Cell(1, 0), Cell(0, 1), Cell(1, 1)}
    requires processed == {Cell(1, 1)}
    ensures Grown(Cell(0, 0), tileSet, processed) == Region(0, 1, 0, 0, 2, 1)
  {
    assert RunWidth(2, 0, tileSet, processed) == 0;
    assert RunWidth(1, 0, tileSet, processed) == 1;
    assert RunWidth(0, 0, tileSet, processed) == 2;
    assert !Available(Cell(1, 1), tileSet, processed);
    assert RowsDown(0, 2, 1, tileSet, processed) == 0;
    assert RowsDown(0, 2, 0, tileSet, processed) == 1;
  }

  /** With the rest of the block processed, (0,1) grows only itself. */
  lemma GrowLeftCell(tileSet: set<Cell>, processed: set<Cell>)
    requires tileSet == {Cell(0, 0), Cell(1, 0), Cell(0, 1), Cell(1, 1)}
    requires processed == {Cell(1, 1), Cell(0, 0), Cell(1, 0)}
    ensures Grown(Cell(0, 1), tileSet, processed) == Region(0, 0, 1, 1, 1, 1)
  {
    assert !Available(Cell(1, 1), tileSet, processed);
    assert RunWidth(1, 1, tileSet, processed) == 0;
    assert RunWidth(0, 1, tileSet, processed) == 1;
    assert !Available(Cell(0, 2), tileSet, processed);
    assert RowsDown(0, 1, 2, tileSet, processed) == 0;
    assert RowsDown(0, 1, 1, tileSet, processed) == 1;
  }
}
