/** The v1 loader's floor builder: a row-major scan of the layout that cuts
    the floor cells into maximal one-row strips, one box per strip
    (src/runtime/loadScene3dV1.ts: buildFloorsV1; repeated in
    src/runtime/loadScene3dV1.browser.js). */
module V1Floors {
  import opened Scene
  import opened V1Layout

  /** A strip of `len` floor cells starting at (x, y) and running along +x. */
  datatype Strip = Strip(x: int, y: int, len: int)

  predicate InStrip(x: int, y: int, s: Strip) {
    y == s.y && s.x <= x < s.x + s.len
  }

  /** Some strip of the list holds the cell (x, y). */
  predicate StripCovered(x: int, y: int, strips: seq<Strip>) {
    exists k :: 0 <= k < |strips| && InStrip(x, y, strips[k])
  }

  /** A non-empty strip of floor cells inside the layout that cannot be
      extended: the cells just left and just right of it are not floor. */
  predicate MaximalStrip(l: Layout, s: Strip) {
    && s.len >= 1 && 0 <= s.x && s.x + s.len <= l.width && 0 <= s.y < l.height
    && (forall x :: s.x <= x < s.x + s.len ==> IsFloor(l, x, s.y))
    && !IsFloor(l, s.x - 1, s.y)
    && !IsFloor(l, s.x + s.len, s.y)
  }

  /** Row-major order with a gap: `a` lies in an earlier row, or in the same
      row ending at least one cell before `b` starts. */
  predicate Before(a: Strip, b: Strip) {
    a.y < b.y || (a.y == b.y && a.x + a.len < b.x)
  }

  /** The floor slab of a strip: `len` cells long, one cell deep, centred at
      (x + len/2 - 0.5, y + 0.5) in cell space. Its footprint therefore runs
      from x - 0.5 to x + len - 0.5 cells across and from y to y + 1 along. */
  function StripBox(s: Strip, cellMeters: real, thickness: real): (b: Box)
    ensures b.kind == FloorBox
    ensures Lo(b) == Vec3((s.x as real - 0.5) * cellMeters, 0.0, s.y as real * cellMeters)
    ensures Hi(b) == Vec3(((s.x + s.len) as real - 0.5) * cellMeters, thickness, (s.y + 1) as real * cellMeters)
  {
    var len := s.len as real;
    Box(FloorBox, Vec3(len * cellMeters, thickness, cellMeters),
        Vec3((s.x as real + len / 2.0 - 0.5) * cellMeters, thickness / 2.0, (s.y as real + 0.5) * cellMeters))
  }

  /** The extents the floor builder reports for a strip in its trace output. */
  datatype Extents = Extents(minX: real, maxX: real, minZ: real, maxZ: real)

  function TraceExtents(s: Strip, cellMeters: real): Extents {
    Extents(s.x as real * cellMeters, (s.x + s.len) as real * cellMeters,
            s.y as real * cellMeters, (s.y + 1) as real * cellMeters)
  }

  /** The slab actually placed lies half a cell to the left of the extents the
      trace reports for it; only along z do the two agree. */
  lemma StripBoxLagsTraceByHalfCell(s: Strip, cellMeters: real)
    requires cellMeters != 0.0
    ensures var b, e := StripBox(s, cellMeters, 0.0), TraceExtents(s, cellMeters);
            && Lo(b).x == e.minX - cellMeters / 2.0 && Hi(b).x == e.maxX - cellMeters / 2.0
            && Lo(b).z == e.minZ && Hi(b).z == e.maxZ
            && Lo(b).x != e.minX
  {
  }

  /** Strips in row-major order with gaps never share a cell. */
  lemma RowMajorStripsAreDisjoint(strips: seq<Strip>, x: int, y: int, i: int, j: int)
    requires forall p, q :: 0 <= p < q < |strips| ==> Before(strips[p], strips[q])
    requires 0 <= i < j < |strips| && InStrip(x, y, strips[i])
    ensures !InStrip(x, y, strips[j])
  {
    assert Before(strips[i], strips[j]);
  }

  /** Appending strip `s` to the list while adding its cells to the processed
      set keeps the set equal to the covered cells. */
  lemma AppendStrip(strips: seq<Strip>, s: Strip, before: set<Cell>, after: set<Cell>)
    requires forall c :: c in before <==> StripCovered(c.x, c.y, strips)
    requires forall c :: c in after <==> c in before || InStrip(c.x, c.y, s)
    ensures forall c :: c in after <==> StripCovered(c.x, c.y, strips + [s])
    ensures forall x, y :: StripCovered(x, y, strips + [s]) <==> StripCovered(x, y, strips) || InStrip(x, y, s)
  {
    var ss := strips + [s];
    forall x, y ensures StripCovered(x, y, ss) <==> StripCovered(x, y, strips) || InStrip(x, y, s) {
      if StripCovered(x, y, ss) {
        var k :| 0 <= k < |ss| && InStrip(x, y, ss[k]);
        if k < |strips| {
          assert InStrip(x, y, strips[k]);
        }
      }
      if StripCovered(x, y, strips) {
        var k :| 0 <= k < |strips| && InStrip(x, y, strips[k]);
        assert InStrip(x, y, ss[k]);
      }
      if InStrip(x, y, s) {
        assert InStrip(x, y, ss[|strips|]);
      }
    }
  }

  /** The scan's state before cell (x, y): every strip found so far is
      maximal and starts earlier in row-major order, the strips are in order,
      the processed set is exactly the covered cells, and every floor cell
      scanned already is covered. */
  ghost predicate ScannedUpTo(l: Layout, strips: seq<Strip>, processed: set<Cell>, x: int, y: int) {
    && (forall i :: 0 <= i < |strips| ==>
          MaximalStrip(l, strips[i]) && (strips[i].y < y || (strips[i].y == y && strips[i].x < x)))
    && (forall i, j :: 0 <= i < j < |strips| ==> Before(strips[i], strips[j]))
    && (forall c :: c in processed <==> StripCovered(c.x, c.y, strips))
    && (forall x', y' :: (y' < y || (y' == y && x' < x)) && IsFloor(l, x', y') ==> StripCovered(x', y', strips))
  }

  /** One slab per strip, in the same order. */
  predicate SlabsOf(strips: seq<Strip>, boxes: seq<Box>, cellMeters: real, thickness: real) {
    |boxes| == |strips| && forall i :: 0 <= i < |strips| ==> boxes[i] == StripBox(strips[i], cellMeters, thickness)
  }

  /** buildFloorsV1: scans rows top to bottom and cells left to right; every
      floor cell not yet processed starts a strip that runs right while the
      cells are floor. The strips are maximal, in row-major order, and cover
      exactly the floor cells of the layout; each gets its slab. */
  method BuildFloorsV1(l: Layout, cellMeters: real, floorThickness: real)
    returns (strips: seq<Strip>, boxes: seq<Box>)
    ensures forall i :: 0 <= i < |strips| ==> MaximalStrip(l, strips[i])
    ensures forall i, j :: 0 <= i < j < |strips| ==> Before(strips[i], strips[j])
    ensures forall x, y :: StripCovered(x, y, strips) <==> IsFloor(l, x, y)
    ensures |boxes| == |strips|
    ensures forall i :: 0 <= i < |strips| ==> boxes[i] == StripBox(strips[i], cellMeters, floorThickness)
  {
    var m := BuildCellMap(l.cells);
    var processed: set<Cell> := {};
    strips, boxes := [], [];
    var y := 0;
    while y < l.height
      invariant 0 <= y
      invariant ScannedUpTo(l, strips, processed, 0, y)
      invariant SlabsOf(strips, boxes, cellMeters, floorThickness)
      decreases l.height - y
    {
      var x := 0;
      while x < l.width
        invariant 0 <= x && 0 <= y < l.height
        invariant ScannedUpTo(l, strips, processed, x, y)
        invariant SlabsOf(strips, boxes, cellMeters, floorThickness)
        decreases l.width - x
      {
        if Cell(x, y) in processed || GetCellKind(l, m, x, y) != FloorCell {
          SkipCell(l, strips, processed, x, y);
        } else {
          ghost var before := processed;
          var stripLength;
          stripLength, processed := GrowStrip(l, m, x, y, processed);
          var s := Strip(x, y, stripLength);
          TakeStrip(l, strips, before, processed, s);
          strips := strips + [s];
          boxes := boxes + [StripBox(s, cellMeters, floorThickness)];
        }
        x := x + 1;
      }
      NextRow(l, strips, processed, x, y);
      y := y + 1;
    }
    FinishScan(l, strips, processed, y);
  }

  /** A cell already processed or not floor needs no strip. */
  lemma SkipCell(l: Layout, strips: seq<Strip>, processed: set<Cell>, x: int, y: int)
    requires ScannedUpTo(l, strips, processed, x, y)
    requires Cell(x, y) in processed || !IsFloor(l, x, y)
    ensures ScannedUpTo(l, strips, processed, x + 1, y)
  {
    if Cell(x, y) in processed {
      assert StripCovered(x, y, strips) by {
        assert Cell(x, y).x == x && Cell(x, y).y == y;
      }
    }
  }

  /** A floor cell not yet processed starts a maximal strip, and appending it
      moves the scan past the cell. */
  lemma TakeStrip(l: Layout, strips: seq<Strip>, before: set<Cell>, after: set<Cell>, s: Strip)
    requires ScannedUpTo(l, strips, before, s.x, s.y)
    requires IsFloor(l, s.x, s.y) && Cell(s.x, s.y) !in before
    requires s.len >= 1 && s.x + s.len <= l.width && 0 <= s.y < l.height && 0 <= s.x
    requires forall x' :: s.x <= x' < s.x + s.len ==> IsFloor(l, x', s.y)
    requires !IsFloor(l, s.x + s.len, s.y)
    requires forall c :: c in after <==> c in before || InStrip(c.x, c.y, s)
    ensures ScannedUpTo(l, strips + [s], after, s.x + 1, s.y)
  {
    NewStripStart(l, strips, before, s.x, s.y);
    assert MaximalStrip(l, s);
    AppendStrip(strips, s, before, after);
    var ss := strips + [s];
    forall i, j | 0 <= i < j < |ss|
      ensures Before(ss[i], ss[j])
    {
      if j == |strips| {
        assert Before(strips[i], Strip(s.x, s.y, 1));
      }
    }
  }

  /** At the end of a row the scan moves to the start of the next. */
  lemma NextRow(l: Layout, strips: seq<Strip>, processed: set<Cell>, x: int, y: int)
    requires ScannedUpTo(l, strips, processed, x, y) && x >= l.width
    ensures ScannedUpTo(l, strips, processed, 0, y + 1)
  {
    forall x' | IsFloor(l, x', y)
      ensures x' < x
    {
      assert 0 <= x' < l.width;
    }
  }

  /** After the last row every floor cell is covered, and only floor cells
      are. */
  lemma FinishScan(l: Layout, strips: seq<Strip>, processed: set<Cell>, y: int)
    requires ScannedUpTo(l, strips, processed, 0, y) && y >= l.height
    ensures forall x', y' :: StripCovered(x', y', strips) <==> IsFloor(l, x', y')
  {
    forall x', y' | IsFloor(l, x', y')
      ensures StripCovered(x', y', strips)
    {
      assert 0 <= y' < l.height;
    }
    forall x', y' | StripCovered(x', y', strips)
      ensures IsFloor(l, x', y')
    {
      var k :| 0 <= k < |strips| && InStrip(x', y', strips[k]);
      assert MaximalStrip(l, strips[k]);
    }
  }

  /** The inner scan of buildFloorsV1: from a floor cell (x, y), marks cells
      processed while they are floor and returns how many it marked. */
  method GrowStrip(l: Layout, m: map<Cell, CellKind>, x: int, y: int, processed: set<Cell>)
    returns (stripLength: int, marked: set<Cell>)
    requires m == CellMap(l.cells) && IsFloor(l, x, y)
    ensures stripLength >= 1 && x + stripLength <= l.width
    ensures forall x' :: x <= x' < x + stripLength ==> IsFloor(l, x', y)
    ensures !IsFloor(l, x + stripLength, y)
    ensures forall c :: c in marked <==> c in processed || (c.y == y && x <= c.x < x + stripLength)
  {
    stripLength := 0;
    marked := processed;
    var checkX := x;
    while checkX < l.width && GetCellKind(l, m, checkX, y) == FloorCell
      invariant x <= checkX <= l.width && stripLength == checkX - x
      invariant forall x' :: x <= x' < checkX ==> IsFloor(l, x', y)
      invariant forall c :: c in marked <==> c in processed || (c.y == y && x <= c.x < checkX)
      decreases l.width - checkX
    {
      marked := marked + {Cell(checkX, y)};
      stripLength := stripLength + 1;
      checkX := checkX + 1;
    }
  }

  /** A floor cell that no strip covers yet, scanned in row-major order, lies
      right of a gap after every earlier strip of its row, and its left
      neighbour is not floor. */
  lemma NewStripStart(l: Layout, strips: seq<Strip>, processed: set<Cell>, x: int, y: int)
    requires IsFloor(l, x, y) && Cell(x, y) !in processed
    requires forall i :: 0 <= i < |strips| ==>
               MaximalStrip(l, strips[i]) && (strips[i].y < y || (strips[i].y == y && strips[i].x < x))
    requires forall c :: c in processed <==> StripCovered(c.x, c.y, strips)
    requires forall x', y' :: (y' < y || (y' == y && x' < x)) && IsFloor(l, x', y') ==> StripCovered(x', y', strips)
    ensures forall i :: 0 <= i < |strips| ==> Before(strips[i], Strip(x, y, 1))
    ensures !IsFloor(l, x - 1, y)
  {
    assert !StripCovered(x, y, strips) by {
      assert Cell(x, y).x == x && Cell(x, y).y == y;
    }
    forall i | 0 <= i < |strips| && strips[i].y == y
      ensures strips[i].x + strips[i].len < x
    {
      assert !InStrip(x, y, strips[i]);
    }
    forall i | 0 <= i < |strips|
      ensures !InStrip(x - 1, y, strips[i])
    {
    }
  }
}
