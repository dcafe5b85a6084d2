# scene.3d.v1 runtime, modelled in Dafny

This project models the geometry core of a 3D scene runtime. The runtime reads
`scene.3d.v1` documents and builds boxes for them:
- floor tiles on an integer grid, in cells;
- horizontal and vertical wall edges;
- units (cell size in metres, wall height and thickness, floor thickness);
- an origin offset;
- meta data (schema, version, name, axes, optional parity counts).

Eight modules model the source:

- `Scene` (scene.dfy): the shared value types. These are grid cells, 3-vectors, boxes given by centre and size, `Option`/`Result`, and JavaScript truthiness with the `||` defaulting rule.
- `ImportClusters` (import_clusters.dfy): the importer's floor clustering (`src/runtime/importScene3D.js`). The regions it builds are proved equal to a greedy specification: tiles are visited in input order, and each tile not yet covered grows the widest run to its right, then as many full rows downwards as are free. So a 2 x 2 block listed row by row becomes one region, while the same block listed from its bottom-right tile first becomes three. In every order the regions partition the floor tiles.
  - `findRectangularRegion` grows a rectangle of unprocessed tiles to the right and then downwards.
  - `buildClusteredFloors` walks the tiles in input order and turns each region into one slab.
  - Proved: the regions are pairwise disjoint, cover exactly the floor tiles, and each slab holds exactly the tiles of its region.
- `ImportRuns` (import_runs.dfy): wall coalescing.
  - Edges are grouped by their fixed coordinate in a dictionary. The keys are enumerated in JavaScript's integer-key order: non-negative keys ascending, then the others in insertion order.
  - Each group is sorted numerically and merged into maximal runs of consecutive values.
  - Proved: the runs are non-empty and cover exactly the edges. On distinct edges they are also pairwise separated, and their total length is the number of edges; duplicated edges, which the source keeps, give overlapping runs. The run count the importer logs is the length of the same list the walls are built from.
- `Importer` (importer.dfy): the entry point.
  - It checks the schema, works out the scale, applies the defaults, and builds literal or optimised floors and walls.
  - Proved: the optimised output holds exactly the tiles and edges that the literal output holds.
- `V1Layout`, `V1Floors`, `V1Loader` (v1_layout.dfy, v1_floors.dfy, v1_loader.dfy): the v1 loader (`src/runtime/loadScene3dV1.ts`). Together they model:
  - the tiles shifted by the origin offset and rebased onto a tight layout;
  - the row-major strip scan that builds the floors;
  - the per-edge walls and the scene bounds;
  - the six-field parity check;
  - the required-field checks, and the ghost-grid extent defaults.

  The browser build `src/runtime/loadScene3dV1.browser.js` repeats the same logic, and the same members model it:

  | function | browser.js lines |
  |---|---|
  | v1ToLayout | 59-86 |
  | v1ToEdges | 91-125 |
  | buildFloorsV1 | 130-204 |
  | buildWallsV1 | 209-258 |
  | computeBounds | 264-302 |
  | validateParity | 307-338 |
  | required fields | 358-369 |
  | grid extent | 383-384 |
- `Validator` (validator.dfy): the schema validator `src/runtime/validateScene3D.js`.
  - Each `validateX(value, errors, path)` becomes a method that appends to an `ErrorLog` object.
  - Each method is proved to append exactly the list that a pure function computes, and the lemmas state what those lists mean.
- `Coords` (coords.dfy): the corner-based room helpers of `src/lib/coords.ts` and the values their unit tests fix.
- `Gltf` (gltf.dfy): the byte-level helpers of the vendored glTF exporter `src/runtime/GLTFExporter.js`:
  - plugin registration;
  - `equalArray` and `isIdentityMatrix`;
  - the Latin-1 fallback of `stringToArrayBuffer`;
  - 4-byte padding;
  - `getMinMax`;
  - the binary glTF (GLB) layout of chapter 4 of the Khronos glTF 2.0 specification.

Two discrepancies between the importer and the v1 loader are stated as lemmas rather than hidden:
- The loader places a horizontal wall on the cell's grid line (`z = y`). The importer puts it at `y + 0.5`.
- The loader centres a floor strip half a cell to the left of the extents that its own geometry trace reports. This moves the strip off the walls along x.

## Model

| member | source | states |
|---|---|---|
| ImportClusters.FindRectangularRegion | src/runtime/importScene3D.js:229-260 | the region starts at the start tile, every tile in it is in the set and unprocessed, the row scan stopped at the first unavailable tile, the downward scan stopped at the first row with an unavailable tile, and the region is exactly the rectangle grown from the start tile |
| ImportClusters.MarkProcessed | src/runtime/importScene3D.js:104-109 | the processed set afterwards is the old set plus exactly the cells of the region |
| ImportClusters.RegionBox | src/runtime/importScene3D.js:112-118 | the slab of a region spans [minX, maxX+1] x [0, thickness] x [minY, maxY+1] |
| ImportClusters.BuildClusteredFloors | src/runtime/importScene3D.js:81-125 | the regions are exactly the greedy regions of the tiles taken in input order; they are well formed and pairwise disjoint, cover exactly the floor tiles, each starts at a floor tile, and slab k is the box of region k |
| ImportClusters.GreedySkip | src/runtime/importScene3D.js:96-98 | a tile already covered leaves the greedy regions unchanged |
| ImportClusters.GreedyTake | src/runtime/importScene3D.js:101-102 | an uncovered tile adds the rectangle grown from it, among the tiles not yet covered, as the next greedy region |
| ImportClusters.MarkCovers | src/runtime/importScene3D.js:104-109 | after marking, the processed set is exactly the floor tiles covered by the regions so far |
| ImportClusters.AppendSlab | src/runtime/importScene3D.js:111-120 | each new region adds its slab at the same position in the slab list |
| ImportClusters.FinishClusters | src/runtime/importScene3D.js:96-122 | once every tile is visited, a cell is covered by a region exactly when it is a floor tile, and each region starts at one |
| ImportClusters.RunWidthAvailable | src/runtime/importScene3D.js:234-237 | the rightward scan counts only available tiles and stops at the first unavailable one |
| ImportClusters.RowsDownAvailable | src/runtime/importScene3D.js:240-250 | the downward scan counts only rows that are available across the width and stops at the first blocked row |
| ImportClusters.GrownAvailable | src/runtime/importScene3D.js:229-260 | the rectangle grown from an available tile is well formed, cornered at that tile, made of available tiles, and maximal to the right and downwards |
| ImportClusters.CoveredAppend | src/runtime/importScene3D.js:104-109 | a cell is covered by the longer region list exactly when the shorter list or the new region covers it |
| ImportClusters.DisjointAppend | src/runtime/importScene3D.js:104-109 | a region none of whose cells is already covered keeps the regions pairwise disjoint |
| ImportClusters.GreedyPartitions | src/runtime/importScene3D.js:96-122 | the greedy regions of any tile list are well formed, pairwise disjoint, made of floor tiles, cover every tile, and each starts at a tile of the list |
| ImportClusters.PartitionsSkip | src/runtime/importScene3D.js:96-98 | a tile already covered keeps the partition a partition of the longer list |
| ImportClusters.PartitionsTake | src/runtime/importScene3D.js:100-109 | a well-formed region cornered at the next tile and made of uncovered floor tiles extends the partition to the longer list |
| ImportClusters.SquareBlockIsOneRegion | src/runtime/importScene3D.js:81-125 | the tiles (0,0), (1,0), (0,1), (1,1) in that order give the single region minX 0, maxX 1, minY 0, maxY 1, 2 wide and 2 high |
| ImportClusters.SquareBlockOrderMatters | src/runtime/importScene3D.js:81-125 | the same 2 x 2 block listed as (1,1), (0,0), (1,0), (0,1) gives three regions: (1,1) alone, the top row, then (0,1) alone, so the output depends on the input order |
| ImportRuns.EdgeAt | src/runtime/importScene3D.js:266-270 | rebuilding an edge from its fixed and free coordinates gives back those coordinates |
| ImportRuns.InsertMultiset | src/runtime/importScene3D.js:274 | inserting into the sorted list adds exactly one copy of the value |
| ImportRuns.InsertMembers | src/runtime/importScene3D.js:274 | the members after insertion are the old members and the value |
| ImportRuns.InsertSorted | src/runtime/importScene3D.js:274 | insertion keeps the list sorted |
| ImportRuns.InsertStrictlySorted | src/runtime/importScene3D.js:274 | insertion of a new value keeps a strictly sorted list strictly sorted |
| ImportRuns.SortAscPermutes | src/runtime/importScene3D.js:274 | the numeric sort is a permutation of its input |
| ImportRuns.SortAscSorted | src/runtime/importScene3D.js:274 | the numeric sort is ascending |
| ImportRuns.SortAscStrict | src/runtime/importScene3D.js:274 | on distinct values the sort is strictly ascending |
| ImportRuns.SortAscFacts | src/runtime/importScene3D.js:274 | permutation, ascending order, and strict order on distinct input, together |
| ImportRuns.SortAscMembers | src/runtime/importScene3D.js:274 | the sort keeps the length and the set of members |
| ImportRuns.KeysFacts | src/runtime/importScene3D.js:266-270 | the dictionary keys in insertion order are distinct, and are exactly the fixed coordinates of the edges |
| ImportRuns.KeysDistinct | src/runtime/importScene3D.js:266-270 | no key is inserted twice |
| ImportRuns.GroupMembers | src/runtime/importScene3D.js:266-270 | the list under key k holds exactly the free coordinates of the edges with fixed coordinate k, and is no longer than the edge list |
| ImportRuns.GroupNonEmpty | src/runtime/importScene3D.js:266-270 | a group is non-empty exactly when its key was inserted |
| ImportRuns.GroupDistinct | src/runtime/importScene3D.js:266-270 | a group holds no value twice when the edges are distinct |
| ImportRuns.SplitBySign | src/runtime/importScene3D.js:273 | the integer-index keys are the non-negative ones and the rest are the negative ones; both parts stay distinct |
| ImportRuns.ObjectKeyOrderFacts | src/runtime/importScene3D.js:273 | Object.keys lists every key exactly once |
| ImportRuns.ObjectKeyOrderExample | src/runtime/importScene3D.js:273 | keys inserted as 3, -1, 1, -4 are enumerated as 1, 3, -1, -4 |
| ImportRuns.TotalLengthAppend | src/runtime/importScene3D.js:277-290 | the total run length of two run lists joined is the sum of their lengths |
| ImportRuns.CoversAppend | src/runtime/importScene3D.js:277-290 | a cell is covered by two joined lists exactly when one of them covers it |
| ImportRuns.CoversSingle | src/runtime/importScene3D.js:277-290 | one run covers exactly the cells from its start up to but not including its end, on its fixed line |
| ImportRuns.SeparatedSnoc | src/runtime/importScene3D.js:284 | a run that starts after the end of every earlier run keeps the list separated |
| ImportRuns.EndsBeforeSnoc | src/runtime/importScene3D.js:284 | appending a run that ends before x keeps every run ending before x |
| ImportRuns.SeparatedBlocks | src/runtime/importScene3D.js:273-290 | the run lists of two different keys joined are separated |
| ImportRuns.MergeShape | src/runtime/importScene3D.js:274-288 | merging a sorted group leaves an open run that ends just after the last value, closed runs that are non-empty and on the group's line, and fewer closed runs than values |
| ImportRuns.MergeCovers | src/runtime/importScene3D.js:274-288 | a value is in the group exactly when a closed run or the open run covers it |
| ImportRuns.MergeSeparates | src/runtime/importScene3D.js:274-288 | the closed runs are separated, all end before the open run starts, and their lengths and the open run's length add up to the group size |
| ImportRuns.GroupRunsFacts | src/runtime/importScene3D.js:274-290 | the runs of one group are non-empty, on the key's line, cover exactly the group, are separated, and their total length is the group size |
| ImportRuns.GroupSizesEmpty | src/runtime/importScene3D.js:266-270 | no edges give empty groups |
| ImportRuns.GroupSizesSnoc | src/runtime/importScene3D.js:266-270 | one more edge adds one to its key's group size |
| ImportRuns.GroupSizesTotal | src/runtime/importScene3D.js:266-273 | the group sizes over all keys add up to the number of edges |
| ImportRuns.RunsForKeysShape | src/runtime/importScene3D.js:273-290 | the runs of a list of keys are non-empty, on those keys, and no more than the edges grouped under them |
| ImportRuns.RunsForKeysCovers | src/runtime/importScene3D.js:273-290 | the runs of a list of keys cover exactly the edges whose fixed coordinate is one of the keys |
| ImportRuns.RunsForKeysSeparated | src/runtime/importScene3D.js:273-290 | the runs of a list of keys are separated, and their total length is the number of edges under those keys |
| ImportRuns.RunsForKeysStep | src/runtime/importScene3D.js:273-290 | the runs of one more key are the earlier runs followed by that key's runs |
| ImportRuns.CoalescedFacts | src/runtime/importScene3D.js:262-322 | coalescing gives non-empty runs that cover exactly the edges, no more runs than edges, no runs exactly when there are no edges, and on distinct edges separated runs of total length equal to the edge count |
| ImportRuns.GapExampleGroups | src/runtime/importScene3D.js:266-270 | the edges (5,2), (0,2), (1,2), (2,2) form the single group 2 holding 5, 0, 1, 2 |
| ImportRuns.GapExampleSort | src/runtime/importScene3D.js:274 | 5, 0, 1, 2 sorts to 0, 1, 2, 5 |
| ImportRuns.GapExampleMerge | src/runtime/importScene3D.js:274-288 | 0, 1, 2, 5 merges into the runs [0,3) and [5,6) |
| ImportRuns.CoalescedGapExample | src/runtime/importScene3D.js:262-291 | a gap in a row splits it into two walls |
| ImportRuns.DuplicateExampleGroups | src/runtime/importScene3D.js:298-302 | duplicated vertical edges (4,1), (4,1), (4,2) group as 1, 1, 2 under x = 4 |
| ImportRuns.DuplicateExampleRuns | src/runtime/importScene3D.js:305-320 | the group 1, 1, 2 merges into the runs [1,2) and [1,3) |
| ImportRuns.CoalescedDuplicateExample | src/runtime/importScene3D.js:293-322 | a duplicated edge yields two overlapping runs, so the separation result needs distinct edges |
| ImportRuns.GroupByFixed | src/runtime/importScene3D.js:266-270 | the grouping loop builds exactly the key order and the groups of the specification |
| ImportRuns.MergeGroup | src/runtime/importScene3D.js:274-288 | the merging loop over a sorted group produces exactly its maximal runs |
| ImportRuns.CoalesceEdges | src/runtime/importScene3D.js:262-291 | coalesceHorizontalEdges and coalesceVerticalEdges return the specification's run list |
| ImportRuns.CountRuns | src/runtime/importScene3D.js:324-330 | the logged run count is the length of the coalesced list, at most the number of edges, and zero exactly when there are no edges |
| Importer.Scale | src/runtime/importScene3D.js:42 | scale times the effective cell size is 1, and the scale is 1 when cellMeters is absent or zero |
| Importer.FloorThickness | src/runtime/importScene3D.js:85 | the floor thickness times the effective cell size is the given metres, or 0.1 when those are absent or zero; without units it is 0.1 |
| Importer.WallHeight | src/runtime/importScene3D.js:134 | the wall height times the effective cell size is the given metres, or 3 when those are absent or zero; without units it is 3 |
| Importer.WallThickness | src/runtime/importScene3D.js:135 | the wall thickness times the effective cell size is the given metres, or 0.2 when those are absent or zero; without units it is 0.2 |
| Importer.GroupName | src/runtime/importScene3D.js:48 | the group name is "scene-3d-" followed by the meta name when that is a non-empty string, and "scene-3d-imported" when the name is missing or empty |
| Importer.TileBox | src/runtime/importScene3D.js:185-191 | the literal floor box of tile (x, y) spans [x, x+1] x [0, thickness] x [y, y+1] |
| Importer.EdgeBox | src/runtime/importScene3D.js:207-223 | a literal wall is one cell long along its direction, centred on the cell line at +0.5, as high as the wall and as thick as the wall |
| Importer.RunBox | src/runtime/importScene3D.js:143-170 | a coalesced wall spans its run from start to end, at fixed + 0.5 across, as high and thick as the wall |
| Importer.SingleRunIsLiteralWall | src/runtime/importScene3D.js:143-223 | a run of length one gives exactly the literal wall of its edge |
| Importer.RegionSlabHoldsTile | src/runtime/importScene3D.js:112-118 | a region slab contains the literal floor box of a tile exactly when the tile is in the region |
| Importer.RunWallHoldsEdge | src/runtime/importScene3D.js:143-170 | a run wall contains the literal wall of an edge exactly when the edge lies on the run |
| Importer.CoalescedWallsHoldExactlyTheEdges | src/runtime/importScene3D.js:130-173 | some coalesced wall holds the literal wall of an edge exactly when the edge is in the input |
| Importer.BuildLiteralFloors | src/runtime/importScene3D.js:178-194 | one floor box per tile, in tile order |
| Importer.AppendEdgeWalls | src/runtime/importScene3D.js:208-223 | appends one literal wall per edge, in edge order, after the existing walls |
| Importer.BuildLiteralWalls | src/runtime/importScene3D.js:199-226 | the horizontal edge walls followed by the vertical ones |
| Importer.AppendRunWalls | src/runtime/importScene3D.js:143-170 | appends one wall per run, in run order, after the existing walls |
| Importer.BuildCoalescedWalls | src/runtime/importScene3D.js:130-173 | one wall per horizontal run and then one per vertical run of the coalesced lists |
| Importer.ImportLiteral | src/runtime/importScene3D.js:50-54 | the literal mode output has the literal floors and walls, and counts the edges as runs |
| Importer.ImportOptimized | src/runtime/importScene3D.js:55-64 | the optimised mode output has the greedy floor regions of the tiles in input order with one slab each, the coalesced walls, and counts the coalesced runs |
| Importer.ImportScene3D | src/runtime/importScene3D.js:25-77 | throws the schema error exactly when meta is missing or its schema is not scene.3d.v1; otherwise it returns the group name, tile count and, by mode, the literal shape or the optimised shape with the greedy floor regions |
| Importer.OptimizedMatchesLiteral | src/runtime/importScene3D.js:50-64 | the optimised slabs hold exactly the floor tiles, and the optimised walls hold exactly the horizontal and the vertical edges, as the literal mode draws them |
| V1Layout.MinMaxFacts | src/runtime/loadScene3dV1.ts:80-83 | Math.min and Math.max of a non-empty list are members of it and bound every element |
| V1Layout.TileSpanFacts | src/runtime/loadScene3dV1.ts:74-86 | the span of the shifted tiles bounds every tile and is attained on each side |
| V1Layout.V1ToLayout | src/runtime/loadScene3dV1.ts:69-96 | no tiles give a 1 x 1 empty layout; otherwise each shifted tile becomes a floor cell rebased by the minimum, in order |
| V1Layout.LayoutIsTightBox | src/runtime/loadScene3dV1.ts:69-96 | the layout is at least 1 x 1, every cell lies inside it, and with tiles some cell touches each of its four sides |
| V1Layout.V1ToEdges | src/runtime/loadScene3dV1.ts:101-135 | one edge per input edge, horizontals first, each shifted and rebased with the same minimum as the layout |
| V1Layout.CellMapFacts | src/runtime/loadScene3dV1.ts:144-147 | the cell map's keys are exactly the cell positions, and all map to floor when all cells are floors |
| V1Layout.BuildCellMap | src/runtime/loadScene3dV1.ts:144-147 | the map-building loop produces the cell map of the specification |
| V1Layout.GetCellKind | src/runtime/loadScene3dV1.ts:150-155 | the kind is not empty exactly when (x, y) is inside the layout and the map holds a non-empty kind there, and then it is that kind |
| V1Layout.FloorIsCells | src/runtime/loadScene3dV1.ts:150-155 | getCellKind reports floor at (x, y) exactly when a floor cell of the layout is there |
| V1Layout.LayoutFloorIsTiles | src/runtime/loadScene3dV1.ts:69-96 | a layout position is floor exactly when some input tile is rebased onto it |
| V1Floors.StripBox | src/runtime/loadScene3dV1.ts:183-206 | a strip's slab is len cells long, one cell deep and floorThickness high, placed at x + len/2 - 0.5 and y + 0.5 in cells |
| V1Floors.StripBoxLagsTraceByHalfCell | src/runtime/loadScene3dV1.ts:199-213 | the slab's x extent is half a cell less than the extents the geometry trace reports; its z extent matches |
| V1Floors.RowMajorStripsAreDisjoint | src/runtime/loadScene3dV1.ts:164-180 | strips in scan order never share a cell |
| V1Floors.AppendStrip | src/runtime/loadScene3dV1.ts:176-180 | marking a strip makes the processed set equal to the cells the strips cover |
| V1Floors.BuildFloorsV1 | src/runtime/loadScene3dV1.ts:140-222 | the strips are maximal row runs of floor, in row-major order, and cover exactly the floor cells; slab k is strip k's box |
| V1Floors.SkipCell | src/runtime/loadScene3dV1.ts:169-171 | skipping a processed or non-floor cell keeps the scan invariant |
| V1Floors.TakeStrip | src/runtime/loadScene3dV1.ts:173-180 | taking the strip grown from an unprocessed floor cell keeps the scan invariant |
| V1Floors.NextRow | src/runtime/loadScene3dV1.ts:164-165 | finishing a row keeps the scan invariant for the next row |
| V1Floors.FinishScan | src/runtime/loadScene3dV1.ts:164-222 | once every row is scanned, a cell is covered exactly when it is floor |
| V1Floors.GrowStrip | src/runtime/loadScene3dV1.ts:174-180 | the strip grows over every floor cell to the right and stops at the first non-floor cell or the layout's edge |
| V1Floors.NewStripStart | src/runtime/loadScene3dV1.ts:169-175 | a new strip starts after all earlier strips, and the cell to its left is not floor |
| V1Loader.EdgeWallBox | src/runtime/loadScene3dV1.ts:243-272 | a horizontal wall is centred at (x+0.5, y) cells and a vertical one at (x, y+0.5), one cell long, wallHeight high, wallThickness thick |
| V1Loader.BuildWallsV1 | src/runtime/loadScene3dV1.ts:227-290 | one wall per edge, in edge order |
| V1Loader.LoaderWallIsHalfCellBehindImporter | src/runtime/loadScene3dV1.ts:248-252 | with 1-metre cells the loader's horizontal wall has the importer's size and x, but lies half a cell before it in z |
| V1Loader.SlabAndWallDisagreeAlongX | src/runtime/loadScene3dV1.ts:199-252 | the single-cell floor slab at a cell starts and ends half a cell before the horizontal wall on that cell |
| V1Loader.ComputeBounds | src/runtime/loadScene3dV1.ts:296-334 | no tiles give the one-cell box [0, cell] x [0, height] x [0, cell]; the centre is the midpoint of min and max |
| V1Loader.SpanBoundsHoldCell | src/runtime/loadScene3dV1.ts:311-326 | every tile inside the span lies inside the world bounds |
| V1Loader.SpanBoundsCorners | src/runtime/loadScene3dV1.ts:317-326 | the world min and max are the span's corners times the cell size, from ground to wall height |
| V1Loader.SpanBoundsOrdered | src/runtime/loadScene3dV1.ts:317-326 | min is at most max on every axis |
| V1Loader.BoundsOrdered | src/runtime/loadScene3dV1.ts:296-334 | the scene bounds have min at most max on every axis |
| V1Loader.BoundsHoldTiles | src/runtime/loadScene3dV1.ts:296-334 | every shifted tile lies inside the scene bounds |
| V1Loader.BoundsAreLayoutShiftedByTileMin | src/runtime/loadScene3dV1.ts:296-334 | the bounds are the layout's extent shifted by the minimum tile, so they are not normalised like the layout |
| V1Loader.CompareField | src/runtime/loadScene3dV1.ts:355-360 | one comparison appends a mismatch exactly when the expected and actual field differ, keeping the mismatch list exact up to that field |
| V1Loader.CompareStep | src/runtime/loadScene3dV1.ts:355-360 | one comparison extends the exactness of the mismatch list by one field |
| V1Loader.ExactAfterAllFields | src/runtime/loadScene3dV1.ts:355-366 | after the six comparisons the list holds exactly the differing fields in order, and is empty exactly when all six agree |
| V1Loader.CompareCounts | src/runtime/loadScene3dV1.ts:355-357 | after the tiles, edgesH and edgesV comparisons the mismatch list is exact for those three fields |
| V1Loader.CompareLengths | src/runtime/loadScene3dV1.ts:358-360 | the floorArea, edgeLenH and edgeLenV comparisons extend an exact list for the first three fields to one exact for all six |
| V1Loader.ValidateParity | src/runtime/loadScene3dV1.ts:339-370 | no parity data gives "unavailable"; otherwise the mismatches are exactly the differing fields, and there are none exactly when every count matches |
| V1Loader.InputError | src/runtime/loadScene3dV1.ts:393-403 | no error exactly when cellMeters is truthy and the axes are present and end in _XY_ground; otherwise the first failing check in source order |
| V1Loader.GridExtent | src/runtime/loadScene3dV1.ts:417-418 | each side of the ghost grid is the simLimits value when that is present and non-zero, and 60 (width) or 40 (height) otherwise, whether simLimits is missing or only that field is |
| V1Loader.LoadScene3dV1 | src/runtime/loadScene3dV1.ts:378-455 | a bad input throws the first failing check's error; otherwise the group holds the strip floors, the edge walls, the grid extent, the bounds and the parity report |
| V1Loader.LoadedFloorsCoverTheTiles | src/runtime/loadScene3dV1.ts:409-413 | in a loaded scene a layout cell is covered by a floor strip exactly when an input tile is rebased onto it, and strips never overlap |
| Validator.GridCoordinateErrorCount | src/runtime/validateScene3D.js:215-233 | a grid coordinate gives at most two errors, exactly one when it is not a two-element array, and none exactly when it is a pair of integers in [0, 1000] |
| Validator.CoordinatesClean | src/runtime/validateScene3D.js:160-162 | a coordinate list gives no error exactly when every entry is clean |
| Validator.TilesClean | src/runtime/validateScene3D.js:149-164 | tiles give no error exactly when they are an object whose floor is an array of clean grid coordinates |
| Validator.CoordinateListNoErrors | src/runtime/validateScene3D.js:154-163 | a coordinate list property gives no error exactly when it is an array of clean grid coordinates |
| Validator.EdgesClean | src/runtime/validateScene3D.js:166-183 | edges give no error exactly when they are an object whose horizontal and vertical are both arrays of clean grid coordinates |
| Validator.NumberPropsClean | src/runtime/validateScene3D.js:189-197 | the numeric-property check gives no error exactly when every property is present and a number |
| Validator.Point3DAsWritten | src/runtime/validateScene3D.js:200-213 | validatePoint3D as written completes exactly when the point is not null |
| Validator.NullPointThrows | src/runtime/validateScene3D.js:200-212 | null passes the typeof test and then `'x' in null` throws a TypeError; the corrected check reports "Must be an object" instead, and otherwise both agree |
| Validator.Point3DErrors | src/runtime/validateScene3D.js:200-213 | the corrected point check reports only catalogued messages: no root error and no top-level missing property |
| Validator.Point3DClean | src/runtime/validateScene3D.js:200-213 | a point gives no error exactly when it is an object with numeric x, y and z |
| Validator.BoundsPropClean | src/runtime/validateScene3D.js:139-146 | a bounds corner gives no error exactly when it is present and an object with numeric x, y and z |
| Validator.BoundsClean | src/runtime/validateScene3D.js:134-147 | bounds give no error exactly when they are an object whose min, max and center are all objects with numeric x, y and z |
| Validator.OriginOffsetClean | src/runtime/validateScene3D.js:185-198 | the origin offset gives no error exactly when it has numeric x and z; y is never looked at |
| Validator.UnitAtMostOneError | src/runtime/validateScene3D.js:107-121 | each numeric unit gives at most one error, and none exactly when it is present, a number and within its range |
| Validator.ZeroCellMetersFlagged | src/runtime/validateScene3D.js:101-117 | cellMeters = 0 is rejected with "Must be > 0", because its lower bound is exclusive |
| Validator.LengthUnitClean | src/runtime/validateScene3D.js:125-127 | lengthUnit gives no error exactly when it is missing, falsy, "meters" or "metres", and otherwise exactly the one wrong-unit error |
| Validator.CoordinateSystemClean | src/runtime/validateScene3D.js:129-131 | coordinateSystem gives no error exactly when it is missing, falsy or "right-handed-y-up", and otherwise exactly the one wrong-system error |
| Validator.UnitsRangeClean | src/runtime/validateScene3D.js:100-122 | the first n numeric units give no error exactly when each is present, a number and within its range |
| Validator.UnitsClean | src/runtime/validateScene3D.js:93-132 | units give no error exactly when they are an object whose four numeric units are in range, whose lengthUnit is falsy or metres, and whose coordinateSystem is falsy or right-handed y-up |
| Validator.MetaClean | src/runtime/validateScene3D.js:68-91 | meta gives no error exactly when it is an object, its schema is "scene.3d.v1", its version is a string matching 1.x, and any truthy name is a string of 1-100 characters |
| Validator.RequiredErrors | src/runtime/validateScene3D.js:28-33 | at most one missing-property error per required property |
| Validator.SceneErrors | src/runtime/validateScene3D.js:19-66 | a value that is not an object always yields at least one error |
| Validator.MissingErrorInjective | src/runtime/validateScene3D.js:31 | different properties give different missing-property errors |
| Validator.RequiredErrorsPaths | src/runtime/validateScene3D.js:29-32 | every missing-property error has a path starting with "$." and a top-level missing message |
| Validator.RootMustBeObject | src/runtime/validateScene3D.js:22-25 | a falsy or non-object root gives exactly the one root error, and the root error appears exactly for such roots |
| Validator.RequiredErrorsCount | src/runtime/validateScene3D.js:28-33 | each property is reported once if it is required and missing, and otherwise not at all |
| Validator.RequiredPropsDistinct | src/runtime/validateScene3D.js:28 | the six required property names are distinct |
| Validator.MissingPropertyReportedOnce | src/runtime/validateScene3D.js:19-66 | in the whole report, a required property is reported missing exactly once when absent and never when present |
| Validator.ErrorLog.Push | src/runtime/validateScene3D.js:20 | pushing appends one error to the log |
| Validator.ValidateGridCoordinate | src/runtime/validateScene3D.js:215-233 | appends exactly the grid-coordinate errors |
| Validator.ValidateCoordinates | src/runtime/validateScene3D.js:160-162 | appends the errors of every entry, in order |
| Validator.ValidateCoordinateList | src/runtime/validateScene3D.js:171-180 | appends the missing, not-an-array or per-entry errors of one edge list |
| Validator.ValidateTiles | src/runtime/validateScene3D.js:149-164 | appends exactly the tiles errors |
| Validator.ValidateEdges | src/runtime/validateScene3D.js:166-183 | appends exactly the edges errors, horizontal list first |
| Validator.ValidateNumberProps | src/runtime/validateScene3D.js:189-197 | appends one missing or not-a-number error per offending property, in order |
| Validator.ValidatePoint3D | src/runtime/validateScene3D.js:200-213 | appends exactly the corrected point errors |
| Validator.ValidateBounds | src/runtime/validateScene3D.js:134-147 | appends exactly the bounds errors for min, max and center |
| Validator.ValidateBoundsProp | src/runtime/validateScene3D.js:140-145 | appends the missing error or the point errors of one bounds property |
| Validator.ValidateOriginOffset | src/runtime/validateScene3D.js:185-198 | appends exactly the origin offset errors |
| Validator.ValidateUnitRange | src/runtime/validateScene3D.js:101-121 | appends the missing, not-a-number, below-minimum and above-maximum errors of one numeric unit |
| Validator.ValidateUnits | src/runtime/validateScene3D.js:93-132 | appends the range errors of the four numeric units, then the lengthUnit and coordinateSystem errors |
| Validator.ValidateMeta | src/runtime/validateScene3D.js:68-91 | appends the schema, version and name errors |
| Validator.ValidateNested | src/runtime/validateScene3D.js:35-63 | for each truthy top-level part, in order, appends that part's errors |
| Validator.ValidateScene3D | src/runtime/validateScene3D.js:19-66 | returns the specification's error list and its length as the count; that list is built on the corrected point check (see ## Findings), so a null bounds corner is reported as "Must be an object" where the source throws |
| Coords.ParseWall | src/lib/coords.ts:52-86 | exactly the four identifiers north, south, east and west are accepted |
| Coords.WallCenter | src/lib/coords.ts:52-86 | an unknown identifier throws "Invalid wall identifier: " followed by it; a known one gives its wall's centre |
| Coords.FloorAndCeilingCentred | src/lib/coords.ts:25-44 | the floor centre is on the ground, midway across width and depth; the ceiling centre is straight above it at the room's height |
| Coords.WallCentresOnTheirSides | src/lib/coords.ts:52-86 | each wall centre is half-way up, on its own side and midway along it, and opposite walls mirror through the floor centre |
| Coords.ExpectedCentres | tests/unit/coords.spec.ts:12-92 | the centres the unit tests expect for a 40 x 30 x 8 and a 10 x 6 x 3 room, and the message for "invalid" |
| Gltf.IndexOf | src/runtime/GLTFExporter.js:68 | indexOf gives -1 exactly when the callback is absent, and otherwise its first position |
| Gltf.GLTFExporter.constructor | src/runtime/GLTFExporter.js:42-64 | the exporter starts with the three built-in extension callbacks, in order |
| Gltf.GLTFExporter.Register | src/runtime/GLTFExporter.js:66-76 | appends the callback unless it is already registered, and returns the exporter |
| Gltf.GLTFExporter.Unregister | src/runtime/GLTFExporter.js:78-88 | removes the first occurrence of the callback if there is one, and returns the exporter |
| Gltf.RegisterIdempotent | src/runtime/GLTFExporter.js:66-76 | after register the callback is registered, registering it again changes nothing, and no duplicate is introduced |
| Gltf.UnregisterRemovesOne | src/runtime/GLTFExporter.js:78-88 | unregister removes exactly one copy of a registered callback and leaves the list alone otherwise |
| Gltf.UnregisterKeepsDistinct | src/runtime/GLTFExporter.js:78-88 | on a duplicate-free list the callback is gone afterwards and no duplicate appears |
| Gltf.UnregisterUndoesRegister | src/runtime/GLTFExporter.js:66-88 | unregistering a newly registered callback restores the list |
| Gltf.EqualArray | src/runtime/GLTFExporter.js:187-195 | equalArray holds exactly when the two arrays are equal |
| Gltf.IsIdentityMatrix | src/runtime/GLTFExporter.js:231-235 | a matrix is the identity exactly when its elements equal the 16 identity elements |
| Gltf.IdentityIsDiagonal | src/runtime/GLTFExporter.js:231-235 | a matrix is the identity exactly when its 16 elements are 1 at every fifth position and 0 elsewhere |
| Gltf.Latin1RoundTrip | src/runtime/GLTFExporter.js:210-221 | the fallback encoding keeps the length, reads back as the text when every code unit is at most 0xFF, and turns every wider code unit into a space |
| Gltf.StringToArrayBuffer | src/runtime/GLTFExporter.js:210-221 | the fallback loop fills a buffer of the text's length with the Latin-1 encoding |
| Gltf.PaddedBufferSize | src/runtime/GLTFExporter.js:293-297 | the padded size is a multiple of 4 at least the size and less than 4 more |
| Gltf.PaddedSizeIsLeast | src/runtime/GLTFExporter.js:293-297 | no smaller multiple of 4 holds the buffer, and an aligned size is kept |
| Gltf.PaddedFacts | src/runtime/GLTFExporter.js:306-331 | the padded bytes are aligned, start with the original bytes and end with at most three padding bytes, and are the original when that is aligned |
| Gltf.GetPaddedArrayBuffer | src/runtime/GLTFExporter.js:306-331 | returns the padded bytes: the very same buffer when it is already aligned, and a newly allocated one otherwise |
| Gltf.ComponentMinBounds | src/runtime/GLTFExporter.js:244-283 | over at least one item the minimum of a component is finite, at most every value, and attained |
| Gltf.ComponentMaxBounds | src/runtime/GLTFExporter.js:244-283 | over at least one item the maximum of a component is finite, at least every value, and attained |
| Gltf.MinAtMostMax | src/runtime/GLTFExporter.js:246-251 | over no item the bounds keep their +Infinity and -Infinity seeds; otherwise min is at most max |
| Gltf.GetMinMax | src/runtime/GLTFExporter.js:244-283 | the nested loops return, per component, the minimum and maximum over the item range |
| Gltf.Uint32RoundTrip | src/runtime/GLTFExporter.js:404-420 | a 32-bit value written little-endian reads back unchanged |
| Gltf.GlbTagsSpellAscii | src/runtime/GLTFExporter.js:169-175 | the magic number reads "glTF" and the chunk types "JSON" and "BIN\0" in little-endian byte order |
| Gltf.GlbFileLength | src/runtime/GLTFExporter.js:404-429 | the GLB is 28 bytes of header and chunk prefixes plus both padded chunks, and a multiple of 4 |
| Gltf.GlbLengthField | src/runtime/GLTFExporter.js:414-420 | the header's length field reads back as the size of the file |
| Gltf.GlbJsonPaddedWithSpaces | src/runtime/GLTFExporter.js:409 | the bytes after the JSON text up to its 4-byte boundary are spaces |

Some functions have no contract of their own; the rows of the lemmas about them state what they mean:
- `Coords.FloorCenter` and `Coords.CeilingCenter` (src/lib/coords.ts:25-44) are covered by `Coords.FloorAndCeilingCentred`.
- `Coords.CenterOf` (src/lib/coords.ts:52-86) is covered by `Coords.WallCentresOnTheirSides` and `Coords.WallCenter`.
- `ImportRuns.SortAsc` (src/runtime/importScene3D.js:274) is covered by `ImportRuns.SortAscPermutes`, `ImportRuns.SortAscSorted`, `ImportRuns.SortAscStrict` and `ImportRuns.SortAscFacts`.
- `ImportClusters.RunWidth`, `ImportClusters.RowsDown`, `ImportClusters.Grown` and `ImportClusters.GreedyRegions` are the specification of the two clustering functions. They are covered by `ImportClusters.GrownAvailable`, `ImportClusters.GreedyPartitions`, `ImportClusters.SquareBlockIsOneRegion` and `ImportClusters.SquareBlockOrderMatters`.

## Left out

- Three.js scene objects, materials, meshes and names are left out. Floors and walls are boxes given by centre and size.
- `fetch` of a document URL, the `mount` option, console logging, and the `TRACE_GEOM` and `SCENE_DEBUG` switches are left out. The trace extents appear only as a function, to state the strip offset.
- The ghost grid (`src/runtime/ghostGrid.ts`) is left out. `ghostGrid.ts` is not part of this model beyond the width and height the loader passes to it.
- Floating point is modelled with exact reals. NaN, the infinities (except `getMinMax`'s seeds), rounding, and `toFixed` are not modelled.
- Coordinates and counts are unbounded integers. JavaScript's 2^53 limit is not modelled, nor are Object.keys' integer keys of 2^32 - 1 and beyond, which it lists as strings in insertion order.
- Input documents are modelled after `JSON.parse`. Fields that the loader's TypeScript interface declares required, and reads without a guard, are plain values; fields it guards are options.
- Validator messages are an enumeration with a `Text` function that gives the source strings. Numbers in messages are rendered from the range table rather than by `Number.prototype.toString`.
- Validator: the `/^1\.[0-9]+$/` version test is written out as a predicate on strings. Strings are sequences of characters, and `length` counts characters, not UTF-16 code units.
- Gltf: the `GLTFWriter` class (scene traversal, accessors, images, materials, and the JSON it emits) is left out. Only the byte layout of the binary output is modelled, taking the JSON bytes and binary bytes as given.
- Gltf.StringToArrayBuffer: the `TextEncoder` branch (UTF-8) is a host call and is left out. Only the fallback loop is modelled.
- Gltf.GetMinMax: it reads an attribute as a list of items, so interleaved buffers and normalised accessors are not modelled. `Math.min`/`Math.max` on NaN are not modelled either.
- Gltf.GlbLengthField: it requires the file to fit in 32 bits. `setUint32` would wrap a larger length modulo 2^32, and `Uint32LE` models that reduction.
- Gltf.GLTFExporter.constructor: it takes the three extension callbacks as distinct arguments. In the source they are fresh closures, so they are distinct.
- Importer.GroupName: `meta.name` is modelled as an optional string. The source interpolates any truthy value, so `name: 5` gives "scene-3d-5"; names that are not strings are not modelled.
- ImportClusters.BuildClusteredFloors: the guard that skips a region of width or height 0 (src/runtime/importScene3D.js:102) is not modelled as a branch. A region grown from an unprocessed floor tile is at least 1 x 1, as `ImportClusters.GrownAvailable` proves, so the guard never fires.
- Promises, `FileReader`, `Blob` and `onDone` callbacks are left out. The binary output is the byte sequence the Blob would hold.

## Findings

| source | as written | input that shows it | evidently intended | confidence | as-written member | corrected member |
|---|---|---|---|---|---|---|
| src/runtime/validateScene3D.js:200-212 | `typeof null` is `'object'`, so a null point passes the object test, and then `'x' in null` throws a TypeError that aborts the whole validation | `{"bounds": {"min": null, "max": {...}, "center": {...}}, ...}` | a null point is reported as "Must be an object" at its path, like any other non-object | not executed | Validator.NullPointThrows | Validator.ValidatePoint3D |
