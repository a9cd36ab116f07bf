/**
 * Tile kinds, grid coordinates and the view of a mutable tile grid as a value.
 *
 * The Java code compares `TETile` singletons of `Tileset` by identity; here
 * every kind is one constructor. Glyphs live in `Tileset`, which is not part of
 * this model, so code that needs them takes a glyph table as a parameter.
 */
module Tiles {

  datatype Tile =
    | NOTHING | FLOOR | GRASS | FLOWER | SAND | SNOW
    | WALL | WATER | MOUNTAIN | TREE | BUSH
    | STATUE | CRATE | BOOKSHELF | SNOWMAN
    | LOCKED_DOOR | UNLOCKED_DOOR | CELL
    | TREASURE | OPENED_CHEST | PORTAL
    | LAVA | SPIKE
    | AVATAR | CHASER

  /** `java.awt.Point`, compared by value. */
  datatype Point = Point(x: int, y: int)

  /** `p` comes before `q` in the column-by-column scan of a grid. */
  predicate Before(p: Point, q: Point)
  {
    p.x < q.x || (p.x == q.x && p.y < q.y)
  }

  /** Cell `(i, j)` is one of the four neighbours of cell `(x, y)`. */
  predicate Adjacent(i: int, j: int, x: int, y: int)
  {
    (i == x && (j == y + 1 || j == y - 1)) || (j == y && (i == x + 1 || i == x - 1))
  }

  /** A grid as a value: `g[x][y]`, column-major like `TETile[][]`. */
  type Grid = seq<seq<Tile>>

  /** `g` is a `w` by `h` grid. */
  ghost predicate IsGrid(g: Grid, w: int, h: int)
  {
    |g| == w && forall x :: 0 <= x < |g| ==> |g[x]| == h
  }

  predicate InGrid(g: Grid, x: int, y: int)
  {
    0 <= x < |g| && 0 <= y < |g[x]|
  }

  predicate InArray(a: array2<Tile>, p: Point)
  {
    0 <= p.x < a.Length0 && 0 <= p.y < a.Length1
  }

  /** The contents of a mutable grid, as a value. */
  ghost function Cells(a: array2<Tile>): (g: Grid)
    reads a
    ensures IsGrid(g, a.Length0, a.Length1)
    ensures forall x, y :: 0 <= x < a.Length0 && 0 <= y < a.Length1 ==> g[x][y] == a[x, y]
  {
    seq(a.Length0, x reads a => seq(a.Length1, y reads a =>
      if 0 <= x < a.Length0 && 0 <= y < a.Length1 then a[x, y] else NOTHING))
  }

  /** Two grids with the same shape and the same cells are equal. */
  lemma GridExt(g: Grid, h: Grid)
    requires |g| == |h|
    requires forall x :: 0 <= x < |g| ==> |g[x]| == |h[x]|
    requires forall x, y :: 0 <= x < |g| && 0 <= y < |g[x]| ==> g[x][y] == h[x][y]
    ensures g == h
  {
    assert forall x :: 0 <= x < |g| ==> g[x] == h[x];
  }
}
