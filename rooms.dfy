/**
 * `Room.java`: a template placed at a world origin (its bottom-left cell),
 * with the geometry tests the generator uses and `drawInto`, which composites
 * the template's layout onto the world grid.
 */
module Rooms {
  import opened Tiles
  import opened Blueprints

  datatype Room = Room(template: RoomTemplate, worldX: int, worldY: int)
  {
    /** `maxX()`: the first column to the right of the room. */
    function MaxX(): int { worldX + template.width }

    /** `maxY()`: the first row above the room. */
    function MaxY(): int { worldY + template.height }

    /** The world cell is one of the room's cells: inside `[worldX, maxX) × [worldY, maxY)`. */
    predicate InBox(x: int, y: int)
    {
      worldX <= x < MaxX() && worldY <= y < MaxY()
    }

    /** A template-local point moved to world coordinates. */
    function ToWorld(p: Point): Point
    {
      Point(p.x + worldX, p.y + worldY)
    }

    /** `fitsWithinWorld(worldWidth, worldHeight)`: a one-cell margin on every side. */
    predicate FitsWithinWorld(worldWidth: int, worldHeight: int)
    {
      worldX >= 1 && worldY >= 1 && MaxX() <= worldWidth - 1 && MaxY() <= worldHeight - 1
    }

    /** `overlaps(other)`: the bounding boxes are not separated on either axis. */
    predicate Overlaps(other: Room)
    {
      !(MaxX() <= other.worldX || other.MaxX() <= worldX || MaxY() <= other.worldY || other.MaxY() <= worldY)
    }
  }

  /* ----------------------------------------------------------------------
   * Geometry
   * ---------------------------------------------------------------------- */

  /**
   * A room of positive size fits the world exactly when every one of its
   * cells lies in `[1, W - 1) × [1, H - 1)`; `maxX`/`maxY` are exclusive.
   */
  lemma FitsIffCellsInside(r: Room, worldWidth: int, worldHeight: int)
    requires r.template.width > 0 && r.template.height > 0
    ensures r.FitsWithinWorld(worldWidth, worldHeight) <==>
      forall x, y :: r.InBox(x, y) ==> 1 <= x < worldWidth - 1 && 1 <= y < worldHeight - 1
  {
    if forall x, y :: r.InBox(x, y) ==> 1 <= x < worldWidth - 1 && 1 <= y < worldHeight - 1 {
      assert r.InBox(r.worldX, r.worldY);
      assert r.InBox(r.MaxX() - 1, r.MaxY() - 1);
    }
  }

  /**
   * Two rooms of positive size overlap exactly when they share a cell; so
   * `overlaps` is symmetric and rooms that only touch do not overlap.
   */
  lemma OverlapsIffSharedCell(a: Room, b: Room)
    requires a.template.width > 0 && a.template.height > 0
    requires b.template.width > 0 && b.template.height > 0
    ensures a.Overlaps(b) <==> exists x, y :: a.InBox(x, y) && b.InBox(x, y)
    ensures a.Overlaps(b) == b.Overlaps(a)
    ensures a.MaxX() == b.worldX || a.MaxY() == b.worldY ==> !a.Overlaps(b)
  {
    if a.Overlaps(b) {
      var x := if a.worldX < b.worldX then b.worldX else a.worldX;
      var y := if a.worldY < b.worldY then b.worldY else a.worldY;
      assert a.InBox(x, y) && b.InBox(x, y);
    }
  }

  /** `overlapsAny(existing)`: the loop returns at the first overlapping room. */
  method OverlapsAny(r: Room, existing: seq<Room>) returns (found: bool)
    ensures found <==> exists i :: 0 <= i < |existing| && r.Overlaps(existing[i])
  {
    var i := 0;
    while i < |existing|
      invariant 0 <= i <= |existing|
      invariant forall j :: 0 <= j < i ==> !r.Overlaps(existing[j])
    {
      if r.Overlaps(existing[i]) {
        return true;
      }
      i := i + 1;
    }
    return false;
  }

  /** `getWorldDoorPositions()`: the template's doors translated, same length and order. */
  method GetWorldDoorPositions(r: Room) returns (positions: seq<Point>)
    ensures |positions| == |r.template.doorPositions|
    ensures forall i :: 0 <= i < |positions| ==>
      positions[i].x - r.worldX == r.template.doorPositions[i].x &&
      positions[i].y - r.worldY == r.template.doorPositions[i].y
  {
    positions := [];
    var i := 0;
    while i < |r.template.doorPositions|
      invariant 0 <= i <= |r.template.doorPositions|
      invariant positions == seq(i, j requires 0 <= j < i => r.ToWorld(r.template.doorPositions[j]))
    {
      var p := r.template.doorPositions[i];
      positions := positions + [Point(p.x + r.worldX, p.y + r.worldY)];
      i := i + 1;
    }
  }

  /**
   * The world doors of a well-formed template lie on the border of the room's
   * box, and inside the world's one-cell margin when the room fits.
   */
  lemma WorldDoorsOnRoomBorder(r: Room, worldWidth: int, worldHeight: int, i: int)
    requires r.template.WellFormed()
    requires 0 <= i < |r.template.doorPositions|
    ensures var p := r.ToWorld(r.template.doorPositions[i]);
      r.InBox(p.x, p.y) &&
      (p.x == r.worldX || p.x == r.MaxX() - 1 || p.y == r.worldY || p.y == r.MaxY() - 1) &&
      (r.FitsWithinWorld(worldWidth, worldHeight) ==> 1 <= p.x < worldWidth - 1 && 1 <= p.y < worldHeight - 1)
  {
    assert r.template.OnBoundary(r.template.doorPositions[i]);
  }

  /* ----------------------------------------------------------------------
   * Drawing
   * ---------------------------------------------------------------------- */

  predicate IsDoor(t: Tile)
  {
    t == LOCKED_DOOR || t == UNLOCKED_DOOR
  }

  /** `canOverwrite(existing, incoming)`. */
  predicate CanOverwrite(existing: Tile, incoming: Tile)
  {
    if existing == WALL && incoming != NOTHING then true
    else if IsDoor(incoming) then existing == FLOOR
    else false
  }

  /** The tile `drawInto` leaves in a world cell that holds `existing` under a template cell `tile`. */
  function Composite(existing: Tile, tile: Tile): Tile
  {
    if tile == NOTHING then existing
    else if existing == NOTHING then tile
    else if CanOverwrite(existing, tile) then tile
    else existing
  }

  /**
   * The precedence `drawInto` follows, stated in one rule: a template cell
   * replaces the world cell only when it is not NOTHING and the world cell is
   * NOTHING or WALL, or it is a door over FLOOR; everything else is kept.
   */
  lemma CompositePrecedence(existing: Tile, tile: Tile)
    ensures Composite(existing, tile) ==
      if tile != NOTHING && (existing == NOTHING || existing == WALL || (IsDoor(tile) && existing == FLOOR))
      then tile else existing
  {
  }

  /** The world grid after `drawInto`: the template composited onto the room's box. */
  function Drawn(g: Grid, r: Room): (d: Grid)
    requires IsGrid(r.template.layout, r.template.width, r.template.height)
    ensures |d| == |g| && forall x :: 0 <= x < |g| ==> |d[x]| == |g[x]|
    ensures forall x, y :: InGrid(g, x, y) && !r.InBox(x, y) ==> d[x][y] == g[x][y]
    ensures forall x, y :: InGrid(g, x, y) && r.InBox(x, y) ==>
      d[x][y] == Composite(g[x][y], r.template.layout[x - r.worldX][y - r.worldY])
  {
    seq(|g|, x requires 0 <= x < |g| => seq(|g[x]|, y requires 0 <= y < |g[x]| =>
      if r.InBox(x, y) then Composite(g[x][y], r.template.layout[x - r.worldX][y - r.worldY]) else g[x][y]))
  }

  /**
   * `drawInto`: only cells inside the room's box can change, a NOTHING
   * template cell never changes the world, and a template cell only ever
   * replaces NOTHING, WALL, or (for a door) FLOOR.
   */
  lemma DrawnChanges(g: Grid, r: Room, x: int, y: int)
    requires IsGrid(r.template.layout, r.template.width, r.template.height)
    requires InGrid(g, x, y)
    ensures Drawn(g, r)[x][y] != g[x][y] ==>
      r.InBox(x, y) &&
      Drawn(g, r)[x][y] == r.template.layout[x - r.worldX][y - r.worldY] != NOTHING &&
      (g[x][y] == NOTHING || g[x][y] == WALL || (IsDoor(Drawn(g, r)[x][y]) && g[x][y] == FLOOR))
  {
    if r.InBox(x, y) {
      CompositePrecedence(g[x][y], r.template.layout[x - r.worldX][y - r.worldY]);
    }
  }

  /** The cells of `drawInto` already done: whole columns left of `x`, and column `x` below `y`. */
  ghost predicate DrawnUpTo(a: array2<Tile>, g: Grid, r: Room, x: int, y: int)
    requires IsGrid(r.template.layout, r.template.width, r.template.height)
    requires IsGrid(g, a.Length0, a.Length1)
    reads a
  {
    forall i, j :: 0 <= i < a.Length0 && 0 <= j < a.Length1 ==>
      a[i, j] == if (i < x || (i == x && j < y)) && r.InBox(i, j)
                 then Composite(g[i][j], r.template.layout[i - r.worldX][j - r.worldY]) else g[i][j]
  }

  /** One pass of the inner loop of `drawInto`: column `worldX + dx` of the room. */
  method DrawColumn(r: Room, a: array2<Tile>, dx: int, ghost g: Grid)
    requires IsGrid(r.template.layout, r.template.width, r.template.height)
    requires 0 <= r.worldX && r.MaxX() <= a.Length0
    requires 0 <= r.worldY && r.MaxY() <= a.Length1
    requires IsGrid(g, a.Length0, a.Length1)
    requires 0 <= dx < r.template.width
    requires DrawnUpTo(a, g, r, r.worldX + dx, r.worldY)
    modifies a
    ensures DrawnUpTo(a, g, r, r.worldX + dx + 1, r.worldY)
  {
    var t := r.template;
    var x := r.worldX + dx;
    assert |t.layout[dx]| == t.height;
    var dy := 0;
    while dy < t.height
      invariant 0 <= dy <= t.height
      invariant DrawnUpTo(a, g, r, x, r.worldY + dy)
    {
      var tile := t.layout[dx][dy];
      var y := r.worldY + dy;
      var existing := a[x, y];
      if tile == NOTHING {
      } else if existing == NOTHING {
        a[x, y] := tile;
      } else if CanOverwrite(existing, tile) {
        a[x, y] := tile;
      }
      dy := dy + 1;
    }
  }

  /** `drawInto(world)`: the nested loop over the template, writing the world in place. */
  method DrawInto(r: Room, a: array2<Tile>)
    requires IsGrid(r.template.layout, r.template.width, r.template.height)
    requires 0 <= r.worldX && r.MaxX() <= a.Length0
    requires 0 <= r.worldY && r.MaxY() <= a.Length1
    modifies a
    ensures Cells(a) == Drawn(old(Cells(a)), r)
  {
    ghost var g := Cells(a);
    var dx := 0;
    while dx < r.template.width
      invariant 0 <= dx <= r.template.width
      invariant DrawnUpTo(a, g, r, r.worldX + dx, r.worldY)
    {
      DrawColumn(r, a, dx, g);
      dx := dx + 1;
    }
    GridExt(Cells(a), Drawn(g, r));
  }
}
