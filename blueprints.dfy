/**
 * `RoomTemplate.java`: the immutable blueprint of a room — its size, local
 * layout, ordered door positions, declared door directions and category tags.
 */
module Blueprints {
  import opened Wrappers
  import opened Tiles
  import opened Directions

  /** `RoomType`; the enum's source is not part of this model, its values are the ones used. */
  datatype RoomType = STARTING | SQUARE | SMALL | BIG | HORIZONTAL | VERTICAL | L | RING | T | ROUND | TREASURE

  /** The cell lies on the outer rectangle of a w by h box at the origin. */
  predicate OnEdge(w: int, h: int, p: Point)
  {
    0 <= p.x < w && 0 <= p.y < h &&
    (p.x == 0 || p.x == w - 1 || p.y == 0 || p.y == h - 1)
  }

  /** The side of a w by h box a cell lies on, checked top, bottom, left, right. */
  function Side(w: int, h: int, p: Point): Option<Direction>
  {
    if p.y == h - 1 then Some(UP)
    else if p.y == 0 then Some(DOWN)
    else if p.x == 0 then Some(LEFT)
    else if p.x == w - 1 then Some(RIGHT)
    else None
  }

  /**
   * All fields are stored exactly as passed: the Java constructor copies them
   * (wrapping the lists unmodifiable) and checks nothing, so every field
   * combination is a template.
   */
  datatype RoomTemplate = RoomTemplate(
    width: int,
    height: int,
    layout: Grid,
    doorPositions: seq<Point>,
    doorDirections: set<Direction>,
    roomTypes: set<RoomType>)
  {
    /**
     * `tileAt(x, y)`: the layout cell at column `x`, row `y`; out of range
     * throws in Java. The generator reads room cells through it.
     */
    function TileAt(x: int, y: int): (t: Tile)
      requires InGrid(layout, x, y)
      ensures t == layout[x][y]
    {
      layout[x][y]
    }

    /** The local cell lies on the template's outer rectangle. */
    predicate OnBoundary(p: Point)
    {
      OnEdge(width, height, p)
    }

    /**
     * `directionForLocalDoor`: the side of the template a local door lies on,
     * checked in the order top row, bottom row, left column, right column.
     * `None` stands for the IllegalStateException thrown for an inner cell.
     */
    function DoorSide(p: Point): (r: Option<Direction>)
      ensures r.Some? <==> (p.y == height - 1 || p.y == 0 || p.x == 0 || p.x == width - 1)
      ensures r == Some(UP) <==> p.y == height - 1
      ensures r == Some(DOWN) <==> p.y == 0 && p.y != height - 1
      ensures r.Some? ==> !(0 <= p.x + r.value.Dx() < width && 0 <= p.y + r.value.Dy() < height)
    {
      Side(width, height, p)
    }

    /**
     * What the catalog guarantees of each template and the generator relies
     * on: the layout has the declared size and every door is on the boundary.
     */
    ghost predicate WellFormed()
    {
      width > 0 && height > 0 && IsGrid(layout, width, height) &&
      forall i :: 0 <= i < |doorPositions| ==> OnBoundary(doorPositions[i])
    }
  }
}
