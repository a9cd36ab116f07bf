/**
 * The layout-painting helpers of `RoomTemplates.java`.
 *
 * Each helper is specified twice: a function on grid values says which cells a
 * paint writes and with what, and a method with the Java loop structure paints
 * an `array2` in place and is proved to leave exactly that function's result.
 */
module Painting {
  import opened Tiles
  import opened Directions

  /* ----------------------------------------------------------------------
   * Specification on values
   * ---------------------------------------------------------------------- */

  /** A w by h grid of NOTHING (the freshly allocated layout; see README). */
  function Blank(w: nat, h: nat): (g: Grid)
    ensures IsGrid(g, w, h)
    ensures forall x, y :: 0 <= x < w && 0 <= y < h ==> g[x][y] == NOTHING
  {
    seq(w, x => seq(h, y => NOTHING))
  }

  /** Rewrites every cell of `g` by `f(x, y, old cell)`, keeping the shape. */
  function MapCells(g: Grid, f: (int, int, Tile) -> Tile): (r: Grid)
    ensures |r| == |g| && forall x :: 0 <= x < |g| ==> |r[x]| == |g[x]|
    ensures forall x, y :: 0 <= x < |g| && 0 <= y < |g[x]| ==> r[x][y] == f(x, y, g[x][y])
  {
    seq(|g|, x requires 0 <= x < |g| => seq(|g[x]|, y requires 0 <= y < |g[x]| => f(x, y, g[x][y])))
  }

  predicate InRect(x: int, y: int, sx: int, sy: int, w: int, h: int)
  {
    sx <= x < sx + w && sy <= y < sy + h
  }

  function Chebyshev(dx: int, dy: int): nat
  {
    if Abs(dx) >= Abs(dy) then Abs(dx) else Abs(dy)
  }

  predicate InRing(x: int, y: int, cx: int, cy: int, inner: int, outer: int)
  {
    inner < Chebyshev(x - cx, y - cy) <= outer
  }

  predicate InDisc(x: int, y: int, cx: int, cy: int, r: int)
  {
    r >= 0 && (x - cx) * (x - cx) + (y - cy) * (y - cy) <= r * r
  }

  predicate OnBorder(x: int, y: int, w: int, h: int)
  {
    x == 0 || x == w - 1 || y == 0 || y == h - 1
  }

  predicate FloorAt(g: Grid, x: int, y: int, floor: Tile)
  {
    InGrid(g, x, y) && g[x][y] == floor
  }

  /** The cell has a 4-neighbour inside the grid holding `floor`. */
  predicate FloorNeighbour(g: Grid, x: int, y: int, floor: Tile)
  {
    FloorAt(g, x - 1, y, floor) || FloorAt(g, x + 1, y, floor) ||
    FloorAt(g, x, y - 1, floor) || FloorAt(g, x, y + 1, floor)
  }

  /** `fill`: every cell becomes `t`. */
  function FillAll(g: Grid, t: Tile): Grid
  {
    MapCells(g, (x, y, c) => t)
  }

  /** `fillRect`: the rectangle [sx, sx+w) x [sy, sy+h), clipped to the grid, becomes `t`. */
  function FillRect(g: Grid, sx: int, sy: int, w: int, h: int, t: Tile): Grid
  {
    MapCells(g, (x, y, c) => if InRect(x, y, sx, sy, w, h) then t else c)
  }

  /** `fillRing`: cells whose Chebyshev distance from the centre is in (inner, outer] become `t`. */
  function FillRing(g: Grid, cx: int, cy: int, inner: int, outer: int, t: Tile): Grid
  {
    MapCells(g, (x, y, c) => if InRing(x, y, cx, cy, inner, outer) then t else c)
  }

  /** `fillCircle`: for r >= 0, cells with dx*dx + dy*dy <= r*r become `t`. */
  function FillCircle(g: Grid, cx: int, cy: int, r: int, t: Tile): Grid
  {
    MapCells(g, (x, y, c) => if InDisc(x, y, cx, cy, r) then t else c)
  }

  /** `addWallsAroundFloor`: NOTHING cells 4-adjacent to a `floor` cell become WALL. */
  function WallsAroundFloor(g: Grid, floor: Tile): Grid
  {
    MapCells(g, (x, y, c) => if c == NOTHING && FloorNeighbour(g, x, y, floor) then WALL else c)
  }

  /** `addBoundaryWalls`: the outer rectangle of the grid becomes WALL. */
  function BoundaryWalls(g: Grid, w: int, h: int): Grid
  {
    MapCells(g, (x, y, c) => if OnBorder(x, y, w, h) then WALL else c)
  }

  /** `drawLockedDoors`: the listed cells become LOCKED_DOOR. */
  function LockedDoors(g: Grid, doors: seq<Point>): Grid
  {
    MapCells(g, (x, y, c) => if Point(x, y) in doors then LOCKED_DOOR else c)
  }

  /** A single assignment `layout[x][y] = t`. */
  function SetCell(g: Grid, px: int, py: int, t: Tile): Grid
  {
    MapCells(g, (x, y, c) => if x == px && y == py then t else c)
  }

  /** One step of a template's construction, as data. */
  datatype PaintOp =
    | Fill(tile: Tile)
    | Rect(sx: int, sy: int, w: int, h: int, tile: Tile)
    | Ring(cx: int, cy: int, inner: int, outer: int, tile: Tile)
    | Circle(cx: int, cy: int, r: int, tile: Tile)
    | WallsAround(floor: Tile)
    | Boundary
    | Set(x: int, y: int, tile: Tile)
    | Doors(doors: seq<Point>)

  /** The operations the methods below can carry out without a Java exception. */
  predicate OpAllowed(op: PaintOp, w: int, h: int)
  {
    match op
    case WallsAround(floor) => floor != NOTHING && floor != WALL
    case Set(x, y, _) => 0 <= x < w && 0 <= y < h
    case Doors(doors) => forall i :: 0 <= i < |doors| ==> 0 <= doors[i].x < w && 0 <= doors[i].y < h
    case _ => true
  }

  function Apply(g: Grid, op: PaintOp): Grid
  {
    match op
    case Fill(t) => FillAll(g, t)
    case Rect(sx, sy, w, h, t) => FillRect(g, sx, sy, w, h, t)
    case Ring(cx, cy, inner, outer, t) => FillRing(g, cx, cy, inner, outer, t)
    case Circle(cx, cy, r, t) => FillCircle(g, cx, cy, r, t)
    case WallsAround(floor) => WallsAroundFloor(g, floor)
    case Boundary => BoundaryWalls(g, |g|, if |g| == 0 then 0 else |g[0]|)
    case Set(x, y, t) => SetCell(g, x, y, t)
    case Doors(doors) => LockedDoors(g, doors)
  }

  /** The ops applied left to right. */
  function ApplyAll(g: Grid, ops: seq<PaintOp>): Grid
    decreases |ops|
  {
    if ops == [] then g else ApplyAll(Apply(g, ops[0]), ops[1..])
  }

  /** The tile an op can write, if any besides WALL and LOCKED_DOOR. */
  predicate Writes(op: PaintOp, t: Tile)
  {
    match op
    case Fill(u) => u == t
    case Rect(_, _, _, _, u) => u == t
    case Ring(_, _, _, _, u) => u == t
    case Circle(_, _, _, u) => u == t
    case WallsAround(_) => t == WALL
    case Boundary => t == WALL
    case Set(_, _, u) => u == t
    case Doors(_) => t == LOCKED_DOOR
  }

  /* ----------------------------------------------------------------------
   * Properties of the specification
   * ---------------------------------------------------------------------- */

  ghost predicate Absent(g: Grid, t: Tile)
  {
    forall x, y :: 0 <= x < |g| && 0 <= y < |g[x]| ==> g[x][y] != t
  }

  /** Painting keeps the grid's size. */
  lemma {:induction false} ApplyAllShape(g: Grid, ops: seq<PaintOp>, w: int, h: int)
    requires IsGrid(g, w, h)
    ensures IsGrid(ApplyAll(g, ops), w, h)
    decreases |ops|
  {
    if ops != [] {
      ApplyAllShape(Apply(g, ops[0]), ops[1..], w, h);
    }
  }

  /** A tile that no op writes and the grid lacks is still absent afterwards. */
  lemma {:induction false} ApplyAllAbsent(g: Grid, ops: seq<PaintOp>, t: Tile)
    requires Absent(g, t)
    requires forall i :: 0 <= i < |ops| ==> !Writes(ops[i], t)
    requires t != WALL && t != LOCKED_DOOR
    ensures Absent(ApplyAll(g, ops), t)
    decreases |ops|
  {
    if ops != [] {
      var g' := Apply(g, ops[0]);
      assert Absent(g', t);
      ApplyAllAbsent(g', ops[1..], t);
    }
  }

  /** After the door op, every listed door cell holds LOCKED_DOOR. */
  lemma DoorsLocked(g: Grid, doors: seq<Point>, i: int)
    requires 0 <= i < |doors| && InGrid(g, doors[i].x, doors[i].y)
    ensures LockedDoors(g, doors)[doors[i].x][doors[i].y] == LOCKED_DOOR
  {
  }

  /**
   * After `addWallsAroundFloor` no `floor` cell touches a NOTHING cell: the
   * floor region is enclosed by walls or other non-empty tiles.
   */
  lemma WallsEnclose(g: Grid, floor: Tile, x: int, y: int, d: Direction)
    requires floor != NOTHING && floor != WALL
    requires FloorAt(g, x, y, floor)
    requires IsGrid(g, |g|, |g[x]|)
    requires InGrid(g, x + d.Dx(), y + d.Dy())
    ensures WallsAroundFloor(g, floor)[x][y] == floor
    ensures WallsAroundFloor(g, floor)[x + d.Dx()][y + d.Dy()] != NOTHING
  {
    var nx, ny := x + d.Dx(), y + d.Dy();
    assert FloorNeighbour(g, nx, ny, floor) by {
      match d
      case UP => assert FloorAt(g, nx, ny - 1, floor);
      case DOWN => assert FloorAt(g, nx, ny + 1, floor);
      case LEFT => assert FloorAt(g, nx + 1, ny, floor);
      case RIGHT => assert FloorAt(g, nx - 1, ny, floor);
    }
  }

  /** `fillRect` is idempotent. */
  lemma FillRectIdempotent(g: Grid, sx: int, sy: int, w: int, h: int, t: Tile)
    ensures FillRect(FillRect(g, sx, sy, w, h, t), sx, sy, w, h, t) == FillRect(g, sx, sy, w, h, t)
  {
    var a := FillRect(g, sx, sy, w, h, t);
    GridExt(FillRect(a, sx, sy, w, h, t), a);
  }

  /** A ring with outer <= inner paints nothing. */
  lemma EmptyRing(g: Grid, cx: int, cy: int, inner: int, outer: int, t: Tile)
    requires outer <= inner
    ensures FillRing(g, cx, cy, inner, outer, t) == g
  {
    GridExt(FillRing(g, cx, cy, inner, outer, t), g);
  }

  /** `fillCircle` with a negative radius changes nothing. */
  lemma NegativeCircle(g: Grid, cx: int, cy: int, r: int, t: Tile)
    requires r < 0
    ensures FillCircle(g, cx, cy, r, t) == g
  {
    GridExt(FillCircle(g, cx, cy, r, t), g);
  }

  /* ----------------------------------------------------------------------
   * The in-place helpers
   * ---------------------------------------------------------------------- */

  /** `fill(layout, tile)`. */
  method FillLayout(a: array2<Tile>, t: Tile)
    requires a.Length0 > 0
    modifies a
    ensures Cells(a) == FillAll(old(Cells(a)), t)
  {
    ghost var g := Cells(a);
    var w, h := a.Length0, a.Length1;
    var x := 0;
    while x < w
      invariant 0 <= x <= w
      invariant forall i, j :: 0 <= i < w && 0 <= j < h ==> a[i, j] == if i < x then t else g[i][j]
    {
      var y := 0;
      while y < h
        invariant 0 <= y <= h
        invariant forall i, j :: 0 <= i < w && 0 <= j < h ==>
          a[i, j] == if i < x || (i == x && j < y) then t else g[i][j]
      {
        a[x, y] := t;
        y := y + 1;
      }
      x := x + 1;
    }
    GridExt(Cells(a), FillAll(g, t));
  }

  /** `fillRect(layout, startX, startY, width, height, tile)`. */
  method FillRectangle(a: array2<Tile>, sx: int, sy: int, rw: int, rh: int, t: Tile)
    requires a.Length0 > 0
    modifies a
    ensures Cells(a) == FillRect(old(Cells(a)), sx, sy, rw, rh, t)
  {
    ghost var g := Cells(a);
    var w, h := a.Length0, a.Length1;
    var x := sx;
    while x < sx + rw && x < w
      invariant sx <= x
      invariant forall i, j :: 0 <= i < w && 0 <= j < h ==>
        a[i, j] == if i < x && InRect(i, j, sx, sy, rw, rh) then t else g[i][j]
      decreases w - x
    {
      FillRectColumn(a, x, sy, rh, t);
      x := x + 1;
    }
    GridExt(Cells(a), FillRect(g, sx, sy, rw, rh, t));
  }

  /** The inner loop of `fillRect`: rows `sy .. sy + rh - 1` of column `x`, where they lie in the grid. */
  method FillRectColumn(a: array2<Tile>, x: int, sy: int, rh: int, t: Tile)
    requires x < a.Length0
    modifies a
    ensures forall i, j :: 0 <= i < a.Length0 && 0 <= j < a.Length1 ==>
      a[i, j] == if i == x && sy <= j < sy + rh then t else old(a[i, j])
  {
    var y := sy;
    while y < sy + rh && y < a.Length1
      invariant sy <= y && (y == sy || y <= sy + rh)
      invariant forall i, j :: 0 <= i < a.Length0 && 0 <= j < a.Length1 ==>
        a[i, j] == if i == x && sy <= j < y then t else old(a[i, j])
      decreases a.Length1 - y
    {
      if x >= 0 && y >= 0 {
        a[x, y] := t;
      }
      y := y + 1;
    }
  }

  /** `fillRing(layout, centerX, centerY, innerRadius, outerRadius, tile)`. */
  method FillRingShape(a: array2<Tile>, cx: int, cy: int, inner: int, outer: int, t: Tile)
    requires a.Length0 > 0
    modifies a
    ensures Cells(a) == FillRing(old(Cells(a)), cx, cy, inner, outer, t)
  {
    ghost var g := Cells(a);
    var w, h := a.Length0, a.Length1;
    var x := 0;
    while x < w
      invariant 0 <= x <= w
      invariant forall i, j :: 0 <= i < w && 0 <= j < h ==>
        a[i, j] == if i < x && InRing(i, j, cx, cy, inner, outer) then t else g[i][j]
    {
      FillRingColumn(a, x, cx, cy, inner, outer, t);
      x := x + 1;
    }
    GridExt(Cells(a), FillRing(g, cx, cy, inner, outer, t));
  }

  /** The inner loop of `fillRing`: the cells of column `x` in the ring. */
  method FillRingColumn(a: array2<Tile>, x: int, cx: int, cy: int, inner: int, outer: int, t: Tile)
    requires 0 <= x < a.Length0
    modifies a
    ensures forall i, j :: 0 <= i < a.Length0 && 0 <= j < a.Length1 ==>
      a[i, j] == if i == x && InRing(i, j, cx, cy, inner, outer) then t else old(a[i, j])
  {
    var y := 0;
    while y < a.Length1
      invariant 0 <= y <= a.Length1
      invariant forall i, j :: 0 <= i < a.Length0 && 0 <= j < a.Length1 ==>
        a[i, j] == if i == x && j < y && InRing(i, j, cx, cy, inner, outer) then t else old(a[i, j])
    {
      var dx, dy := x - cx, y - cy;
      var dist := if Abs(dx) >= Abs(dy) then Abs(dx) else Abs(dy);
      if dist > inner && dist <= outer {
        a[x, y] := t;
      }
      y := y + 1;
    }
  }

  /** `fillCircle(layout, centerX, centerY, radius, tile)`. */
  method FillCircleShape(a: array2<Tile>, cx: int, cy: int, r: int, t: Tile)
    requires a.Length0 > 0
    modifies a
    ensures Cells(a) == FillCircle(old(Cells(a)), cx, cy, r, t)
  {
    ghost var g := Cells(a);
    if r < 0 {
      NegativeCircle(g, cx, cy, r, t);
      return;
    }
    var w, h := a.Length0, a.Length1;
    var radiusSq := r * r;
    var x := 0;
    while x < w
      invariant 0 <= x <= w
      invariant forall i, j :: 0 <= i < w && 0 <= j < h ==>
        a[i, j] == if i < x && InDisc(i, j, cx, cy, r) then t else g[i][j]
    {
      FillDiscColumn(a, x, cx, cy, r, radiusSq, t);
      x := x + 1;
    }
    GridExt(Cells(a), FillCircle(g, cx, cy, r, t));
  }

  /** The inner loop of `fillCircle`: the cells of column `x` in the disc. */
  method FillDiscColumn(a: array2<Tile>, x: int, cx: int, cy: int, r: int, radiusSq: int, t: Tile)
    requires 0 <= x < a.Length0 && r >= 0 && radiusSq == r * r
    modifies a
    ensures forall i, j :: 0 <= i < a.Length0 && 0 <= j < a.Length1 ==>
      a[i, j] == if i == x && InDisc(i, j, cx, cy, r) then t else old(a[i, j])
  {
    var y := 0;
    while y < a.Length1
      invariant 0 <= y <= a.Length1
      invariant forall i, j :: 0 <= i < a.Length0 && 0 <= j < a.Length1 ==>
        a[i, j] == if i == x && j < y && InDisc(i, j, cx, cy, r) then t else old(a[i, j])
    {
      var dx, dy := x - cx, y - cy;
      if dx * dx + dy * dy <= radiusSq {
        a[x, y] := t;
      }
      y := y + 1;
    }
  }

  /**
   * While `addWallsAroundFloor` scans the cells x-major, a NOTHING cell has
   * been walled once one of its `floor` neighbours has been visited.
   */
  ghost predicate Visited(fx: int, fy: int, x: int, y: int)
  {
    fx < x || (fx == x && fy < y)
  }

  ghost predicate WalledSoFar(g: Grid, floor: Tile, i: int, j: int, x: int, y: int)
  {
    (FloorAt(g, i, j - 1, floor) && Visited(i, j - 1, x, y)) ||
    (FloorAt(g, i, j + 1, floor) && Visited(i, j + 1, x, y)) ||
    (FloorAt(g, i + 1, j, floor) && Visited(i + 1, j, x, y)) ||
    (FloorAt(g, i - 1, j, floor) && Visited(i - 1, j, x, y))
  }


  /** Visiting cell (x, y) walls exactly its neighbours, and only if it is floor. */
  lemma WalledStep(g: Grid, floor: Tile, x: int, y: int)
    ensures forall i, j ::
      WalledSoFar(g, floor, i, j, x, y + 1) <==>
      WalledSoFar(g, floor, i, j, x, y) || (FloorAt(g, x, y, floor) && Adjacent(i, j, x, y))
  {
  }

  /** Finishing column x is starting column x + 1. */
  lemma WalledColumn(g: Grid, floor: Tile, x: int, h: int)
    requires forall i :: 0 <= i < |g| ==> |g[i]| == h
    ensures forall i, j :: WalledSoFar(g, floor, i, j, x, h) <==> WalledSoFar(g, floor, i, j, x + 1, 0)
  {
  }

  /** A finished scan has visited every cell, so it has walled what the specification walls. */
  lemma ScanComplete(a: array2<Tile>, g: Grid, floor: Tile)
    requires ScanState(a, g, floor, a.Length0, 0)
    ensures Cells(a) == WallsAroundFloor(g, floor)
  {
    GridExt(Cells(a), WallsAroundFloor(g, floor));
  }

  /** The body of the scan at a floor cell: its NOTHING neighbours become WALL. */
  method WallOffNeighbours(a: array2<Tile>, x: int, y: int)
    modifies a
    ensures forall i, j :: 0 <= i < a.Length0 && 0 <= j < a.Length1 ==>
      a[i, j] == if old(a[i, j]) == NOTHING && Adjacent(i, j, x, y) then WALL else old(a[i, j])
  {
    var k := 0;
    while k < 4
      invariant 0 <= k <= 4
      invariant forall i, j :: 0 <= i < a.Length0 && 0 <= j < a.Length1 ==>
        a[i, j] == if old(a[i, j]) == NOTHING && exists m :: 0 <= m < k && i == x + Values[m].Dx() && j == y + Values[m].Dy()
                   then WALL else old(a[i, j])
    {
      var d := Values[k];
      var nx, ny := x + d.Dx(), y + d.Dy();
      if nx >= 0 && nx < a.Length0 && ny >= 0 && ny < a.Length1 {
        if a[nx, ny] == NOTHING {
          a[nx, ny] := WALL;
        }
      }
      k := k + 1;
    }
    forall i, j | 0 <= i < a.Length0 && 0 <= j < a.Length1 && Adjacent(i, j, x, y)
      ensures exists m :: 0 <= m < 4 && i == x + Values[m].Dx() && j == y + Values[m].Dy()
    {
      if j == y + 1 { assert i == x + Values[0].Dx() && j == y + Values[0].Dy(); }
      else if j == y - 1 { assert i == x + Values[1].Dx() && j == y + Values[1].Dy(); }
      else if i == x - 1 { assert i == x + Values[2].Dx() && j == y + Values[2].Dy(); }
      else { assert i == x + Values[3].Dx() && j == y + Values[3].Dy(); }
    }
  }

  /** The state of the scan before visiting cell (x, y). */
  ghost predicate ScanState(a: array2<Tile>, g: Grid, floor: Tile, x: int, y: int)
    reads a
  {
    IsGrid(g, a.Length0, a.Length1) &&
    forall i, j :: 0 <= i < a.Length0 && 0 <= j < a.Length1 ==>
      a[i, j] == if g[i][j] == NOTHING && WalledSoFar(g, floor, i, j, x, y) then WALL else g[i][j]
  }

  /** One column of the `addWallsAroundFloor` scan. */
  method ScanColumn(a: array2<Tile>, floor: Tile, x: int, ghost g: Grid)
    requires 0 <= x < a.Length0
    requires IsGrid(g, a.Length0, a.Length1)
    requires floor != NOTHING && floor != WALL
    requires ScanState(a, g, floor, x, 0)
    modifies a
    ensures ScanState(a, g, floor, x + 1, 0)
  {
    var y := 0;
    while y < a.Length1
      invariant 0 <= y <= a.Length1
      invariant ScanState(a, g, floor, x, y)
    {
      ScanCell(a, floor, x, y, g);
      y := y + 1;
    }
    WalledColumn(g, floor, x, a.Length1);
  }

  /** One cell of the `addWallsAroundFloor` scan: a floor cell walls off its NOTHING neighbours. */
  method ScanCell(a: array2<Tile>, floor: Tile, x: int, y: int, ghost g: Grid)
    requires 0 <= x < a.Length0 && 0 <= y < a.Length1
    requires floor != NOTHING && floor != WALL
    requires ScanState(a, g, floor, x, y)
    modifies a
    ensures ScanState(a, g, floor, x, y + 1)
  {
    WalledStep(g, floor, x, y);
    if a[x, y] == floor {
      WallOffNeighbours(a, x, y);
    }
  }

  /** `addWallsAroundFloor(layout, floorTile)`. */
  method AddWallsAroundFloor(a: array2<Tile>, floor: Tile)
    requires a.Length0 > 0
    requires floor != NOTHING && floor != WALL
    modifies a
    ensures Cells(a) == WallsAroundFloor(old(Cells(a)), floor)
  {
    ghost var g := Cells(a);
    var w := a.Length0;
    var x := 0;
    while x < w
      invariant 0 <= x <= w
      invariant ScanState(a, g, floor, x, 0)
    {
      ScanColumn(a, floor, x, g);
      x := x + 1;
    }
    ScanComplete(a, g, floor);
  }

  /** `addBoundaryWalls(layout)`. */
  method AddBoundaryWalls(a: array2<Tile>)
    requires a.Length0 > 0 && a.Length1 > 0
    modifies a
    ensures Cells(a) == BoundaryWalls(old(Cells(a)), a.Length0, a.Length1)
  {
    ghost var g := Cells(a);
    var w, h := a.Length0, a.Length1;
    var x := 0;
    while x < w
      invariant 0 <= x <= w
      invariant forall i, j :: 0 <= i < w && 0 <= j < h ==>
        a[i, j] == if i < x && (j == 0 || j == h - 1) then WALL else g[i][j]
    {
      a[x, 0] := WALL;
      a[x, h - 1] := WALL;
      x := x + 1;
    }
    var y := 0;
    while y < h
      invariant 0 <= y <= h
      invariant forall i, j :: 0 <= i < w && 0 <= j < h ==>
        a[i, j] == if j == 0 || j == h - 1 || (j < y && (i == 0 || i == w - 1)) then WALL else g[i][j]
    {
      a[0, y] := WALL;
      a[w - 1, y] := WALL;
      y := y + 1;
    }
    GridExt(Cells(a), BoundaryWalls(g, w, h));
  }

  /** `drawLockedDoors(doors, layout)`. */
  method DrawLockedDoors(doors: seq<Point>, a: array2<Tile>)
    requires forall i :: 0 <= i < |doors| ==> InArray(a, doors[i])
    modifies a
    ensures Cells(a) == LockedDoors(old(Cells(a)), doors)
  {
    ghost var g := Cells(a);
    var n := 0;
    while n < |doors|
      invariant 0 <= n <= |doors|
      invariant forall i, j :: 0 <= i < a.Length0 && 0 <= j < a.Length1 ==>
        a[i, j] == if Point(i, j) in doors[..n] then LOCKED_DOOR else g[i][j]
    {
      a[doors[n].x, doors[n].y] := LOCKED_DOOR;
      assert doors[..n + 1] == doors[..n] + [doors[n]];
      n := n + 1;
    }
    assert doors[..n] == doors;
    GridExt(Cells(a), LockedDoors(g, doors));
  }

  /** One op, carried out by its helper. */
  method Paint(a: array2<Tile>, op: PaintOp)
    requires a.Length0 > 0 && a.Length1 > 0
    requires OpAllowed(op, a.Length0, a.Length1)
    modifies a
    ensures Cells(a) == Apply(old(Cells(a)), op)
  {
    match op
    case Fill(t) => FillLayout(a, t);
    case Rect(sx, sy, w, h, t) => FillRectangle(a, sx, sy, w, h, t);
    case Ring(cx, cy, inner, outer, t) => FillRingShape(a, cx, cy, inner, outer, t);
    case Circle(cx, cy, r, t) => FillCircleShape(a, cx, cy, r, t);
    case WallsAround(floor) => AddWallsAroundFloor(a, floor);
    case Boundary => AddBoundaryWalls(a);
    case Set(x, y, t) =>
      ghost var g := Cells(a);
      a[x, y] := t;
      GridExt(Cells(a), SetCell(g, x, y, t));
    case Doors(doors) => DrawLockedDoors(doors, a);
  }

  /** A sequence of ops, in order. */
  method PaintAll(a: array2<Tile>, ops: seq<PaintOp>)
    requires a.Length0 > 0 && a.Length1 > 0
    requires forall i :: 0 <= i < |ops| ==> OpAllowed(ops[i], a.Length0, a.Length1)
    modifies a
    ensures Cells(a) == ApplyAll(old(Cells(a)), ops)
  {
    ghost var g := Cells(a);
    var n := 0;
    while n < |ops|
      invariant 0 <= n <= |ops|
      invariant ApplyAll(g, ops) == ApplyAll(Cells(a), ops[n..])
    {
      Paint(a, ops[n]);
      assert ops[n..][1..] == ops[n + 1..];
      n := n + 1;
    }
  }
}
