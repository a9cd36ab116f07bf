/**
 * `Player.java` and `Chaser.java`: the two entities on the finished grid.
 * Both are mutable records whose fields the pursuit rules reassign in place.
 *
 * `Player` as written declares only `pos` and `facing`, while the pursuit
 * rules and the save format also use `previousPos`, `tileUnderPlayer` and
 * `pushAbilityCount`; the class here carries all five.
 */
module Entities {
  import opened Wrappers
  import opened Tiles
  import opened Directions

  class Player {
    var pos: Point
    var facing: Direction
    /** Where the player stood before its last move; the chaser heads there. */
    var previousPos: Point
    /** The tile the avatar covers, put back when the player leaves the cell. */
    var tileUnderPlayer: Tile
    /** Charges of the push ability. */
    var pushAbilityCount: int

    /** `new Player(x, y)`: at `(x, y)`, facing UP. */
    constructor (x: int, y: int)
      ensures pos == Point(x, y) && facing == UP
      ensures previousPos == pos && tileUnderPlayer == FLOOR && pushAbilityCount == 1
    {
      pos := Point(x, y);
      facing := UP;
      previousPos := Point(x, y);
      tileUnderPlayer := FLOOR;
      pushAbilityCount := 1;
    }

    /** `frontTile()`: the cell the player faces, one step from where it stands. */
    function FrontTile(): (p: Point)
      reads this
      ensures Adjacent(p.x, p.y, pos.x, pos.y)
      ensures Step(p, facing.Opposite()) == pos
    {
      StepBack(pos, facing);
      Step(pos, facing)
    }
  }

  class Chaser {
    var pos: Point
    /** Where the chaser stood before its last move (for the swap test). */
    var previousPos: Point
    /** The path last computed towards the player, for display; `null` is `None`. */
    var path: Option<seq<Point>>
    var previousPath: Option<seq<Point>>
    var showPath: bool
    /** The tile the chaser covers, put back when it leaves the cell. */
    var tileUnderChaser: Tile

    /** `new Chaser(x, y)`. */
    constructor (x: int, y: int)
      ensures pos == Point(x, y) && previousPos == pos
      ensures path == None && previousPath == None && !showPath
      ensures tileUnderChaser == FLOOR
    {
      pos := Point(x, y);
      previousPos := Point(x, y);
      showPath := false;
      path := None;
      previousPath := None;
      tileUnderChaser := FLOOR;
    }
  }

  /** The cell in front is never the cell the player stands on, whatever the facing. */
  lemma FrontTileElsewhere(pos: Point, facing: Direction)
    ensures Step(pos, facing) != pos
    ensures forall d :: Step(pos, d) == Step(pos, facing) ==> d == facing
  {
  }
}
