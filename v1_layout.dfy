/** The v1 loader's conversion of a scene.3d.v1 document into its internal
    layout: the origin offset is applied in cell space and every coordinate is
    re-based to the minimum of the offset floor tiles
    (src/runtime/loadScene3dV1.ts: v1ToLayout, v1ToEdges; the browser build
    src/runtime/loadScene3dV1.browser.js repeats both line for line). */
module V1Layout {
  import opened Scene

  /** The document's `originOffset`, in cells. */
  datatype Offset = Offset(x: int, y: int)

  /** The layout's cell kinds; the v1 loader only ever produces floor cells. */
  datatype CellKind = EmptyCell | FloorCell | WallCell

  datatype LayoutCell = LayoutCell(x: int, y: int, kind: CellKind)

  /** The internal layout handed to the floor builder. */
  datatype Layout = Layout(width: int, height: int, cells: seq<LayoutCell>)

  /** An internal wall edge: re-based lattice position and direction. */
  datatype Edge = Edge(x: int, y: int, dir: Orientation)

  /** Smallest element of a non-empty list (`Math.min(...xs)`). */
  function Min(xs: seq<int>): int
    requires |xs| > 0
  {
    if |xs| == 1 then xs[0]
    else
      var r := Min(xs[1..]);
      if xs[0] < r then xs[0] else r
  }

  /** Largest element of a non-empty list (`Math.max(...xs)`). */
  function Max(xs: seq<int>): int
    requires |xs| > 0
  {
    if |xs| == 1 then xs[0]
    else
      var r := Max(xs[1..]);
      if xs[0] > r then xs[0] else r
  }

  /** The minimum is an element of the list and no element is smaller; the
      maximum is an element and no element is larger. */
  lemma {:induction false} MinMaxFacts(xs: seq<int>)
    requires |xs| > 0
    ensures exists i :: 0 <= i < |xs| && xs[i] == Min(xs)
    ensures forall i :: 0 <= i < |xs| ==> Min(xs) <= xs[i]
    ensures exists i :: 0 <= i < |xs| && xs[i] == Max(xs)
    ensures forall i :: 0 <= i < |xs| ==> xs[i] <= Max(xs)
  {
    if |xs| == 1 {
      assert xs[0] == Min(xs) && xs[0] == Max(xs);
    } else {
      var tail := xs[1..];
      MinMaxFacts(tail);
      assert forall i :: 1 <= i < |xs| ==> tail[i - 1] == xs[i];
      var a :| 0 <= a < |tail| && tail[a] == Min(tail);
      var b :| 0 <= b < |tail| && tail[b] == Max(tail);
      assert Min(xs) == if xs[0] < Min(tail) then xs[0] else Min(tail);
      assert Max(xs) == if xs[0] > Max(tail) then xs[0] else Max(tail);
      assert xs[a + 1] == Min(tail) && xs[b + 1] == Max(tail);
      assert xs[0] == Min(xs) || xs[a + 1] == Min(xs);
      assert xs[0] == Max(xs) || xs[b + 1] == Max(xs);
    }
  }

  function Xs(cells: seq<Cell>): seq<int> {
    seq(|cells|, i requires 0 <= i < |cells| => cells[i].x)
  }

  function Ys(cells: seq<Cell>): seq<int> {
    seq(|cells|, i requires 0 <= i < |cells| => cells[i].y)
  }

  /** The floor tiles moved by the origin offset. */
  function Shifted(floor: seq<Cell>, off: Offset): seq<Cell> {
    seq(|floor|, i requires 0 <= i < |floor| => Cell(floor[i].x + off.x, floor[i].y + off.y))
  }

  /** The extreme coordinates of a non-empty tile list. */
  datatype Span = Span(minX: int, maxX: int, minY: int, maxY: int)

  /** `Math.min`/`Math.max` over the x and the y coordinates of the offset
      tiles: every tile lies within the span and each bound is attained. */
  function TileSpan(floor: seq<Cell>, off: Offset): Span
    requires |floor| > 0
  {
    var s := Shifted(floor, off);
    Span(Min(Xs(s)), Max(Xs(s)), Min(Ys(s)), Max(Ys(s)))
  }

  /** Every offset tile lies within the span and each bound is attained. */
  lemma TileSpanFacts(floor: seq<Cell>, off: Offset)
    requires |floor| > 0
    ensures var sp, s := TileSpan(floor, off), Shifted(floor, off);
            && (forall i :: 0 <= i < |s| ==> sp.minX <= s[i].x <= sp.maxX && sp.minY <= s[i].y <= sp.maxY)
            && (exists i :: 0 <= i < |s| && s[i].x == sp.minX)
            && (exists i :: 0 <= i < |s| && s[i].x == sp.maxX)
            && (exists i :: 0 <= i < |s| && s[i].y == sp.minY)
            && (exists i :: 0 <= i < |s| && s[i].y == sp.maxY)
  {
    var s := Shifted(floor, off);
    var xs, ys := Xs(s), Ys(s);
    MinMaxFacts(xs);
    MinMaxFacts(ys);
    assert forall i :: 0 <= i < |s| ==> xs[i] == s[i].x && ys[i] == s[i].y;
  }

  /** The re-basing origin: the minimum x and minimum y over the offset tiles,
      taken as (0, 0) when there are none. */
  function TileMin(floor: seq<Cell>, off: Offset): Cell {
    if |floor| == 0 then Cell(0, 0)
    else
      var sp := TileSpan(floor, off);
      Cell(sp.minX, sp.minY)
  }

  /** A document coordinate moved by the offset and re-based to the tile minimum. */
  function Rebase(p: Cell, floor: seq<Cell>, off: Offset): Cell {
    var o := TileMin(floor, off);
    Cell(p.x + off.x - o.x, p.y + off.y - o.y)
  }

  /** v1ToLayout: one floor cell per tile, re-based to the tile minimum, in a
      layout whose extent spans the offset tiles (1 x 1 when there are none). */
  function V1ToLayout(floor: seq<Cell>, off: Offset): (l: Layout)
    ensures |floor| == 0 ==> l == Layout(1, 1, [])
    ensures |l.cells| == |floor|
    ensures forall i :: 0 <= i < |floor| ==>
              l.cells[i] == LayoutCell(Rebase(floor[i], floor, off).x, Rebase(floor[i], floor, off).y, FloorCell)
  {
    if |floor| == 0 then Layout(1, 1, [])
    else
      var s := Shifted(floor, off);
      var sp := TileSpan(floor, off);
      Layout(sp.maxX - sp.minX + 1, sp.maxY - sp.minY + 1,
             seq(|s|, i requires 0 <= i < |s| => LayoutCell(s[i].x - sp.minX, s[i].y - sp.minY, FloorCell)))
  }

  /** The layout is the tight bounding box of the re-based tiles: every cell
      lies inside it and each of its four sides touches some cell. */
  lemma LayoutIsTightBox(floor: seq<Cell>, off: Offset)
    ensures var l := V1ToLayout(floor, off);
            && l.width >= 1 && l.height >= 1
            && (forall i :: 0 <= i < |l.cells| ==> 0 <= l.cells[i].x < l.width && 0 <= l.cells[i].y < l.height)
            && (|floor| > 0 ==> exists i :: 0 <= i < |l.cells| && l.cells[i].x == 0)
            && (|floor| > 0 ==> exists i :: 0 <= i < |l.cells| && l.cells[i].y == 0)
            && (|floor| > 0 ==> exists i :: 0 <= i < |l.cells| && l.cells[i].x == l.width - 1)
            && (|floor| > 0 ==> exists i :: 0 <= i < |l.cells| && l.cells[i].y == l.height - 1)
  {
    if |floor| > 0 {
      var l := V1ToLayout(floor, off);
      var s := Shifted(floor, off);
      var sp := TileSpan(floor, off);
      TileSpanFacts(floor, off);
      assert l.width == sp.maxX - sp.minX + 1 && l.height == sp.maxY - sp.minY + 1;
      assert forall i :: 0 <= i < |s| ==> l.cells[i] == LayoutCell(s[i].x - sp.minX, s[i].y - sp.minY, FloorCell);
      var a :| 0 <= a < |floor| && s[a].x == sp.minX;
      var b :| 0 <= b < |floor| && s[b].y == sp.minY;
      var a' :| 0 <= a' < |floor| && s[a'].x == sp.maxX;
      var b' :| 0 <= b' < |floor| && s[b'].y == sp.maxY;
      assert l.cells[a].x == 0 && l.cells[b].y == 0;
      assert l.cells[a'].x == l.width - 1 && l.cells[b'].y == l.height - 1;
    }
  }

  /** v1ToEdges: every horizontal edge, then every vertical edge, each in input
      order, moved by the offset and re-based like the tiles. Edges are not
      clamped to the layout, so they may be negative. */
  method V1ToEdges(floor: seq<Cell>, horizontal: seq<Cell>, vertical: seq<Cell>, off: Offset)
    returns (edges: seq<Edge>)
    ensures |edges| == |horizontal| + |vertical|
    ensures forall i :: 0 <= i < |horizontal| ==>
              edges[i] == Edge(Rebase(horizontal[i], floor, off).x, Rebase(horizontal[i], floor, off).y, Horizontal)
    ensures forall i :: 0 <= i < |vertical| ==>
              edges[|horizontal| + i] == Edge(Rebase(vertical[i], floor, off).x, Rebase(vertical[i], floor, off).y, Vertical)
  {
    var base := TileMin(floor, off);
    edges := [];
    var i := 0;
    while i < |horizontal|
      invariant 0 <= i <= |horizontal| && |edges| == i
      invariant forall j :: 0 <= j < i ==>
                  edges[j] == Edge(horizontal[j].x + off.x - base.x, horizontal[j].y + off.y - base.y, Horizontal)
    {
      edges := edges + [Edge(horizontal[i].x + off.x - base.x, horizontal[i].y + off.y - base.y, Horizontal)];
      i := i + 1;
    }
    i := 0;
    while i < |vertical|
      invariant 0 <= i <= |vertical| && |edges| == |horizontal| + i
      invariant forall j :: 0 <= j < |horizontal| ==>
                  edges[j] == Edge(horizontal[j].x + off.x - base.x, horizontal[j].y + off.y - base.y, Horizontal)
      invariant forall j :: 0 <= j < i ==>
                  edges[|horizontal| + j] == Edge(vertical[j].x + off.x - base.x, vertical[j].y + off.y - base.y, Vertical)
    {
      edges := edges + [Edge(vertical[i].x + off.x - base.x, vertical[i].y + off.y - base.y, Vertical)];
      i := i + 1;
    }
  }

  // ---------------------------------------------------------------------------
  // The floor builder's cell lookup

  /** The cell map after `set` for every layout cell in order: a later cell at
      the same position overwrites an earlier one. */
  function CellMap(cells: seq<LayoutCell>): map<Cell, CellKind> {
    if |cells| == 0 then map[]
    else
      var last := cells[|cells| - 1];
      CellMap(cells[..|cells| - 1])[Cell(last.x, last.y) := last.kind]
  }

  /** The keys of the cell map are exactly the cells' positions, and a map
      built from floor cells holds only floor. */
  lemma {:induction false} CellMapFacts(cells: seq<LayoutCell>)
    ensures forall p :: p in CellMap(cells) <==> exists i :: 0 <= i < |cells| && Cell(cells[i].x, cells[i].y) == p
    ensures (forall i :: 0 <= i < |cells| ==> cells[i].kind == FloorCell) ==>
              forall p :: p in CellMap(cells) ==> CellMap(cells)[p] == FloorCell
  {
    if |cells| > 0 {
      var init := cells[..|cells| - 1];
      CellMapFacts(init);
      forall p ensures p in CellMap(cells) <==> exists i :: 0 <= i < |cells| && Cell(cells[i].x, cells[i].y) == p {
        if p in CellMap(init) {
          var i :| 0 <= i < |init| && Cell(init[i].x, init[i].y) == p;
          assert cells[i] == init[i];
        }
        if exists i :: 0 <= i < |cells| && Cell(cells[i].x, cells[i].y) == p {
          var i :| 0 <= i < |cells| && Cell(cells[i].x, cells[i].y) == p;
          if i < |cells| - 1 {
            assert init[i] == cells[i];
          }
        }
      }
      if forall i :: 0 <= i < |cells| ==> cells[i].kind == FloorCell {
        assert forall i :: 0 <= i < |init| ==> init[i] == cells[i];
      }
    }
  }

  /** Fills the lookup map, one `set` per layout cell in order. */
  method BuildCellMap(cells: seq<LayoutCell>) returns (m: map<Cell, CellKind>)
    ensures m == CellMap(cells)
  {
    m := map[];
    var i := 0;
    while i < |cells|
      invariant 0 <= i <= |cells|
      invariant m == CellMap(cells[..i])
    {
      assert cells[..i + 1][..i] == cells[..i];
      m := m[Cell(cells[i].x, cells[i].y) := cells[i].kind];
      i := i + 1;
    }
    assert cells[..|cells|] == cells;
  }

  /** getCellKind: empty outside the layout, otherwise the mapped kind or
      empty when nothing was set there. */
  function GetCellKind(l: Layout, m: map<Cell, CellKind>, x: int, y: int): (k: CellKind)
    ensures k != EmptyCell <==> 0 <= x < l.width && 0 <= y < l.height && Cell(x, y) in m && m[Cell(x, y)] != EmptyCell
    ensures k != EmptyCell ==> k == m[Cell(x, y)]
  {
    if x < 0 || x >= l.width || y < 0 || y >= l.height then EmptyCell
    else if Cell(x, y) in m then m[Cell(x, y)]
    else EmptyCell
  }

  /** The layout has a floor cell at (x, y). */
  predicate IsFloor(l: Layout, x: int, y: int) {
    GetCellKind(l, CellMap(l.cells), x, y) == FloorCell
  }

  /** A cell lies at (x, y). */
  predicate At(c: LayoutCell, x: int, y: int) {
    c.x == x && c.y == y
  }

  /** In a layout whose cells are all floor cells inside its extent, the
      floor positions are exactly the cells' positions. */
  lemma FloorIsCells(l: Layout, x: int, y: int)
    requires forall i :: 0 <= i < |l.cells| ==> 0 <= l.cells[i].x < l.width && 0 <= l.cells[i].y < l.height
    requires forall i :: 0 <= i < |l.cells| ==> l.cells[i].kind == FloorCell
    ensures IsFloor(l, x, y) <==> exists i :: 0 <= i < |l.cells| && At(l.cells[i], x, y)
  {
    CellMapFacts(l.cells);
    if exists i :: 0 <= i < |l.cells| && At(l.cells[i], x, y) {
      var i :| 0 <= i < |l.cells| && At(l.cells[i], x, y);
      assert Cell(l.cells[i].x, l.cells[i].y) == Cell(x, y);
    }
    if IsFloor(l, x, y) {
      var i :| 0 <= i < |l.cells| && Cell(l.cells[i].x, l.cells[i].y) == Cell(x, y);
      assert At(l.cells[i], x, y);
    }
  }

  /** In a layout built by v1ToLayout, the floor cells are exactly the
      re-based tiles. */
  lemma LayoutFloorIsTiles(floor: seq<Cell>, off: Offset, x: int, y: int)
    ensures IsFloor(V1ToLayout(floor, off), x, y) <==>
              exists i :: 0 <= i < |floor| && Rebase(floor[i], floor, off) == Cell(x, y)
  {
    var l := V1ToLayout(floor, off);
    LayoutIsTightBox(floor, off);
    FloorIsCells(l, x, y);
    assert forall i :: 0 <= i < |floor| ==> (At(l.cells[i], x, y) <==> Rebase(floor[i], floor, off) == Cell(x, y));
  }
}
