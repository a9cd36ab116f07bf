/**
 * The chase rules of `World.java` on the finished grid: the player's move,
 * the chaser's step along a shortest path, the push ability, interaction with
 * the tile in front, and the catch tests of the game loop.
 *
 * Drawing, fonts and `StdDraw.show()` inside these methods are left out; what
 * remains is how they change the grid and the two entities.
 */
module Pursuit {
  import opened Wrappers
  import opened Tiles
  import opened Directions
  import opened Entities
  import Pathfinding

  /** `World.isWalkableTile`: everything except fifteen kinds; CHASER counts as walkable. */
  predicate IsWalkableTile(t: Tile)
  {
    t != AVATAR && t != WALL && t != NOTHING && t != WATER && t != LOCKED_DOOR &&
    t != MOUNTAIN && t != BUSH && t != TREE && t != PORTAL && t != TREASURE &&
    t != OPENED_CHEST && t != CRATE && t != BOOKSHELF && t != SNOWMAN && t != STATUE
  }

  /** The player may walk onto the chaser, never onto its own avatar; the search's test agrees. */
  lemma WalkableKinds(t: Tile)
    ensures IsWalkableTile(CHASER) && !IsWalkableTile(AVATAR)
    ensures IsWalkableTile(t) == Pathfinding.IsWalkableTile(t)
    ensures IsWalkableTile(t) <==>
      t !in {AVATAR, WALL, NOTHING, WATER, LOCKED_DOOR, MOUNTAIN, BUSH, TREE, PORTAL,
             TREASURE, OPENED_CHEST, CRATE, BOOKSHELF, SNOWMAN, STATUE}
  {
  }

  /** The chaser may be moved onto a cell holding `t`: walkable, or either entity marker. */
  predicate Enterable(t: Tile)
  {
    IsWalkableTile(t) || t == AVATAR || t == CHASER
  }

  /* ----------------------------------------------------------------------
   * Writing one cell
   * ---------------------------------------------------------------------- */

  /** The grid with cell `p` replaced by `t`. */
  function Put(g: Grid, p: Point, t: Tile): (r: Grid)
    requires InGrid(g, p.x, p.y)
    ensures |r| == |g| && forall x :: 0 <= x < |g| ==> |r[x]| == |g[x]|
    ensures forall x, y :: InGrid(g, x, y) ==> r[x][y] == if x == p.x && y == p.y then t else g[x][y]
  {
    g[p.x := g[p.x][p.y := t]]
  }

  /** `world[p.x][p.y] = t`. */
  method SetCell(a: array2<Tile>, p: Point, t: Tile)
    requires InArray(a, p)
    modifies a
    ensures Cells(a) == Put(old(Cells(a)), p, t)
  {
    ghost var g := Cells(a);
    a[p.x, p.y] := t;
    GridExt(Cells(a), Put(g, p, t));
  }

  /* ----------------------------------------------------------------------
   * The player
   * ---------------------------------------------------------------------- */

  /** `movePlayer` may go to `p`: inside the grid and walkable. */
  ghost predicate CanEnter(g: Grid, p: Point)
  {
    InGrid(g, p.x, p.y) && IsWalkableTile(g[p.x][p.y])
  }

  /**
   * `movePlayer(player, dir, world)`: always turns the player; moves it one
   * step only onto an in-bounds walkable cell, putting back the tile it
   * covered and covering the new cell with the avatar.
   */
  method MovePlayer(player: Player, dir: Direction, world: array2<Tile>) returns (moved: bool)
    requires InArray(world, player.pos)
    modifies player`facing, player`pos, player`previousPos, player`tileUnderPlayer, world
    ensures player.facing == dir
    ensures moved == CanEnter(old(Cells(world)), Step(old(player.pos), dir))
    ensures !moved ==>
      player.pos == old(player.pos) && player.previousPos == old(player.previousPos) &&
      player.tileUnderPlayer == old(player.tileUnderPlayer) && Cells(world) == old(Cells(world))
    ensures moved ==>
      player.previousPos == old(player.pos) && player.pos == Step(old(player.pos), dir) &&
      player.tileUnderPlayer == old(Cells(world))[player.pos.x][player.pos.y] &&
      Cells(world) == Put(Put(old(Cells(world)), old(player.pos), old(player.tileUnderPlayer)), player.pos, AVATAR)
  {
    player.facing := dir;
    var nx := player.pos.x + dir.Dx();
    var ny := player.pos.y + dir.Dy();
    if nx < 0 || nx >= world.Length0 || ny < 0 || ny >= world.Length1 {
      return false;
    }
    var target := world[nx, ny];
    ghost var g := Cells(world);
    assert target == g[nx][ny];
    if IsWalkableTile(target) {
      var here := player.pos;
      player.previousPos := here;
      SetCell(world, here, player.tileUnderPlayer);
      ghost var g1 := Cells(world);
      player.tileUnderPlayer := target;
      player.pos := Point(nx, ny);
      SetCell(world, player.pos, AVATAR);
      assert g1 == Put(g, here, old(player.tileUnderPlayer));
      return true;
    }
    return false;
  }

  /**
   * A move followed by the move straight back restores the grid and the
   * covered tile, provided the avatar stood on its cell and the tile put back
   * there is walkable.
   */
  lemma MoveThereAndBack(g: Grid, a: Point, under: Tile, d: Direction)
    requires InGrid(g, a.x, a.y) && g[a.x][a.y] == AVATAR
    requires CanEnter(g, Step(a, d)) && IsWalkableTile(under)
    ensures var b := Step(a, d);
      var g1 := Put(Put(g, a, under), b, AVATAR);
      var under1 := g[b.x][b.y];
      Step(b, d.Opposite()) == a && CanEnter(g1, a) && g1[a.x][a.y] == under &&
      Put(Put(g1, b, under1), a, AVATAR) == g
  {
    var b := Step(a, d);
    StepBack(a, d);
    var g1 := Put(Put(g, a, under), b, AVATAR);
    var g2 := Put(Put(g1, b, g[b.x][b.y]), a, AVATAR);
    GridExt(g2, g);
  }

  /* ----------------------------------------------------------------------
   * The chaser's step
   * ---------------------------------------------------------------------- */

  /**
   * How `moveChaser` and `pushChaser` both move the chaser to `target`: the
   * covered tile goes back to the cell it leaves, the tile at `target` is
   * remembered, and `target` is marked CHASER unless the player is on it.
   */
  method Relocate(chaser: Chaser, target: Point, playerPos: Point, world: array2<Tile>)
    requires InArray(world, chaser.pos) && InArray(world, target) && target != chaser.pos
    modifies chaser`pos, chaser`previousPos, chaser`tileUnderChaser, world
    ensures chaser.previousPos == old(chaser.pos) && chaser.pos == target
    ensures chaser.tileUnderChaser == old(world[target.x, target.y])
    ensures Cells(world) == Marked(Put(old(Cells(world)), old(chaser.pos), old(chaser.tileUnderChaser)), target, playerPos)
  {
    chaser.previousPos := chaser.pos;
    SetCell(world, chaser.pos, chaser.tileUnderChaser);
    chaser.tileUnderChaser := world[target.x, target.y];
    chaser.pos := target;
    if chaser.pos != playerPos {
      SetCell(world, chaser.pos, CHASER);
    }
  }

  /**
   * `moveChaser(chaser, player, world)`: searches for a path to where the
   * player stood before its last move and takes its first cell, putting back
   * the tile it covered and marking the new cell CHASER unless the player is
   * on it. `route` is the path the search returned.
   */
  method MoveChaser(chaser: Chaser, player: Player, world: array2<Tile>) returns (ghost route: seq<Point>)
    requires world.Length0 > 0
    modifies chaser`pos, chaser`previousPos, chaser`tileUnderChaser, chaser`path, world
    ensures route != [] ==>
      old(Pathfinding.ShortestWalk(world, chaser.pos, player.previousPos, route)) &&
      InArray(world, old(chaser.pos)) && InArray(world, route[0])
    ensures route == [] ==>
      chaser.pos == old(chaser.pos) && chaser.previousPos == old(chaser.previousPos) &&
      chaser.tileUnderChaser == old(chaser.tileUnderChaser) && chaser.path == old(chaser.path) &&
      Cells(world) == old(Cells(world))
    ensures (route == [] && InArray(world, old(chaser.pos)) && InArray(world, player.previousPos) &&
             old(chaser.pos) != player.previousPos) ==>
      old(Pathfinding.Unreachable(world, chaser.pos, player.previousPos))
    ensures route != [] ==>
      chaser.pos == route[0] && chaser.previousPos == old(chaser.pos) &&
      chaser.tileUnderChaser == old(Cells(world))[route[0].x][route[0].y] && chaser.path.Some? &&
      Cells(world) == Marked(Put(old(Cells(world)), old(chaser.pos), old(chaser.tileUnderChaser)), route[0], player.pos)
  {
    var path := Pathfinding.FindPath(chaser.pos, player.previousPos, world);
    route := path;
    if path != [] {
      var next := path[0];
      if 0 <= next.x < world.Length0 && 0 <= next.y < world.Length1 {
        var nextTile := world[next.x, next.y];
        if IsWalkableTile(nextTile) || nextTile == AVATAR || nextTile == CHASER {
          Relocate(chaser, next, player.pos, world);
          var display := Pathfinding.FindPath(chaser.pos, player.pos, world);
          chaser.path := Some(display);
        }
      }
    }
  }

  /** The grid after an entity lands on `p`: marked CHASER unless the player stands there. */
  function Marked(g: Grid, p: Point, playerPos: Point): (r: Grid)
    requires InGrid(g, p.x, p.y)
    ensures p == playerPos ==> r == g
    ensures p != playerPos ==> r == Put(g, p, CHASER)
  {
    if p == playerPos then g else Put(g, p, CHASER)
  }

  /**
   * Each step along a shortest path brings the chaser one step nearer: the
   * rest of the path is a shortest walk from the cell it stepped onto.
   */
  lemma StepCloser(world: array2<Tile>, s: Point, t: Point, route: seq<Point>)
    requires |route| > 0 && Pathfinding.ShortestWalk(world, s, t, route)
    ensures Pathfinding.ShortestWalk(world, route[0], t, route[1..])
  {
    assert Pathfinding.Last(route[0], route[1..]) == t;
    forall w | Pathfinding.IsWalk(world, route[0], w) && Pathfinding.Last(route[0], w) == t
      ensures |route| - 1 <= |w|
    {
      var v := [route[0]] + w;
      assert v[1..] == w;
      assert Pathfinding.IsWalk(world, s, v);
      assert Pathfinding.Last(s, v) == t;
    }
  }

  /* ----------------------------------------------------------------------
   * The push ability
   * ---------------------------------------------------------------------- */

  function Max(a: int, b: int): int
  {
    if a < b then b else a
  }

  /** The chaser is pushable: a charge is left and it is within two cells, but not on the player. */
  predicate InPushRange(count: int, chaserPos: Point, playerPos: Point)
  {
    var dx := chaserPos.x - playerPos.x;
    var dy := chaserPos.y - playerPos.y;
    count > 0 && Max(Abs(dx), Abs(dy)) <= 2 && !(dx == 0 && dy == 0)
  }

  /**
   * The push direction for the chaser at `(dx, dy)` from the player: the axis
   * of the larger offset, horizontal on a tie, pointing away from the player.
   */
  function PushDirection(dx: int, dy: int): (d: Direction)
    requires dx != 0 || dy != 0
    ensures d.IsHorizontal() <==> Abs(dx) >= Abs(dy)
    ensures d.Dx() * dx + d.Dy() * dy > 0
  {
    if dx > 0 && dy == 0 then RIGHT
    else if dx < 0 && dy == 0 then LEFT
    else if dx == 0 && dy > 0 then UP
    else if dx == 0 && dy < 0 then DOWN
    else if Abs(dx) >= Abs(dy) then (if dx > 0 then RIGHT else LEFT)
    else (if dy > 0 then UP else DOWN)
  }

  /** `k` steps from `p` in direction `d`. */
  function Shift(p: Point, d: Direction, k: int): Point
  {
    Point(p.x + d.Dx() * k, p.y + d.Dy() * k)
  }

  /** The first `n` cells beyond `p` in direction `d` are inside the grid and enterable. */
  ghost predicate Clear(world: array2<Tile>, p: Point, d: Direction, n: int)
    reads world
  {
    forall k :: 1 <= k <= n ==>
      InArray(world, Shift(p, d, k)) && Enterable(world[Shift(p, d, k).x, Shift(p, d, k).y])
  }

  /** `n` is the largest count up to three for which the cells beyond `p` are clear. */
  ghost predicate MaxClear(world: array2<Tile>, p: Point, d: Direction, n: int)
    reads world
  {
    0 <= n <= 3 && Clear(world, p, d, n) && forall m :: n < m <= 3 ==> !Clear(world, p, d, m)
  }

  /** The clear cells beyond `p` form a prefix, so the largest clear count is one number. */
  lemma MaxClearUnique(world: array2<Tile>, p: Point, d: Direction, n: int, n': int)
    requires MaxClear(world, p, d, n) && MaxClear(world, p, d, n')
    ensures n == n'
  {
  }

  /** The step scan of `pushChaser`: how far, up to three cells, the chaser can be pushed. */
  method PushDistance(world: array2<Tile>, p: Point, d: Direction) returns (n: int)
    ensures MaxClear(world, p, d, n)
  {
    n := 0;
    var i := 1;
    while i <= 3
      invariant 1 <= i <= 4 && n == i - 1 && Clear(world, p, d, n)
    {
      var next := Shift(p, d, i);
      if next.x < 0 || next.x >= world.Length0 || next.y < 0 || next.y >= world.Length1 {
        break;
      }
      var nextTile := world[next.x, next.y];
      if !IsWalkableTile(nextTile) && nextTile != AVATAR && nextTile != CHASER {
        break;
      }
      n := i;
      i := i + 1;
    }
  }

  /** A shift of one or more steps leaves the starting cell. */
  lemma ShiftMoves(p: Point, d: Direction, k: int)
    requires k > 0
    ensures Shift(p, d, k) != p
  {
    match d
    case UP =>
    case DOWN =>
    case LEFT =>
    case RIGHT =>
  }

  /** The cells a push passes never include the player's cell: the push points away from it. */
  lemma {:induction false} PushAway(chaserPos: Point, playerPos: Point, k: nat)
    requires chaserPos != playerPos
    ensures Shift(chaserPos, PushDirection(chaserPos.x - playerPos.x, chaserPos.y - playerPos.y), k) != playerPos
  {
    var dx := chaserPos.x - playerPos.x;
    var dy := chaserPos.y - playerPos.y;
    var d := PushDirection(dx, dy);
    match d
    case UP => assert dy > 0;
    case DOWN => assert dy < 0;
    case LEFT => assert dx < 0;
    case RIGHT => assert dx > 0;
  }

  /**
   * `pushChaser(chaser, player, world)`: with a charge left and the chaser
   * within two cells, pushes it up to three cells away from the player,
   * stopping at the first blocked cell; a push of no cells spends nothing.
   * `distance` is how far the chaser went.
   */
  method PushChaser(chaser: Chaser, player: Player, world: array2<Tile>) returns (ghost distance: int)
    requires InArray(world, chaser.pos)
    modifies chaser`pos, chaser`previousPos, chaser`tileUnderChaser, chaser`path, player`pushAbilityCount, world
    ensures !InPushRange(old(player.pushAbilityCount), old(chaser.pos), player.pos) ==> distance == 0
    ensures InPushRange(old(player.pushAbilityCount), old(chaser.pos), player.pos) ==>
      var d := PushDirection(old(chaser.pos).x - player.pos.x, old(chaser.pos).y - player.pos.y);
      old(MaxClear(world, chaser.pos, d, distance)) &&
      (distance > 0 ==> chaser.pos == Shift(old(chaser.pos), d, distance))
    ensures distance == 0 ==>
      player.pushAbilityCount == old(player.pushAbilityCount) && chaser.pos == old(chaser.pos) &&
      chaser.previousPos == old(chaser.previousPos) && chaser.tileUnderChaser == old(chaser.tileUnderChaser) &&
      chaser.path == old(chaser.path) && Cells(world) == old(Cells(world))
    ensures distance > 0 ==>
      player.pushAbilityCount == old(player.pushAbilityCount) - 1 && chaser.previousPos == old(chaser.pos) &&
      chaser.pos != player.pos && InArray(world, chaser.pos) &&
      chaser.tileUnderChaser == old(Cells(world))[chaser.pos.x][chaser.pos.y] && chaser.path == None &&
      Cells(world) == Put(Put(old(Cells(world)), old(chaser.pos), old(chaser.tileUnderChaser)), chaser.pos, CHASER)
  {
    distance := 0;
    if player.pushAbilityCount <= 0 {
      return;
    }
    var dx := chaser.pos.x - player.pos.x;
    var dy := chaser.pos.y - player.pos.y;
    if Max(Abs(dx), Abs(dy)) > 2 || (dx == 0 && dy == 0) {
      return;
    }
    var dir := PushDirection(dx, dy);
    var n := PushDistance(world, chaser.pos, dir);
    distance := n;
    if n == 0 {
      return;
    }
    var target := Shift(chaser.pos, dir, n);
    assert InArray(world, target);
    PushAway(chaser.pos, player.pos, n);
    ShiftMoves(chaser.pos, dir, n);
    player.pushAbilityCount := player.pushAbilityCount - 1;
    Relocate(chaser, target, player.pos, world);
    chaser.path := None;
  }

  /* ----------------------------------------------------------------------
   * Interaction
   * ---------------------------------------------------------------------- */

  /**
   * `interact(player, world)`: a treasure in front gives a push charge and
   * becomes an opened chest; a locked door in front is unlocked; anything
   * else, or a front cell outside the grid, changes nothing.
   */
  method Interact(player: Player, world: array2<Tile>)
    modifies player`pushAbilityCount, world
    ensures var f := old(player.FrontTile());
      if !InArray(world, f) then
        player.pushAbilityCount == old(player.pushAbilityCount) && Cells(world) == old(Cells(world))
      else if old(world[f.x, f.y]) == TREASURE then
        player.pushAbilityCount == old(player.pushAbilityCount) + 1 &&
        Cells(world) == Put(old(Cells(world)), f, OPENED_CHEST)
      else if old(world[f.x, f.y]) == LOCKED_DOOR then
        player.pushAbilityCount == old(player.pushAbilityCount) &&
        Cells(world) == Put(old(Cells(world)), f, UNLOCKED_DOOR)
      else
        player.pushAbilityCount == old(player.pushAbilityCount) && Cells(world) == old(Cells(world))
  {
    var front := player.FrontTile();
    if front.x < 0 || front.x >= world.Length0 || front.y < 0 || front.y >= world.Length1 {
      return;
    }
    var frontTile := world[front.x, front.y];
    if frontTile == TREASURE {
      player.pushAbilityCount := player.pushAbilityCount + 1;
      SetCell(world, front, OPENED_CHEST);
    }
    if frontTile == LOCKED_DOOR {
      SetCell(world, front, UNLOCKED_DOOR);
    }
  }

  /* ----------------------------------------------------------------------
   * The catch tests of the game loop
   * ---------------------------------------------------------------------- */

  /**
   * The chaser's part of one round of the game loop: the display path is
   * recomputed; after a player move the chaser is caught on the player's new
   * cell, otherwise it steps and is caught on the player's cell or when the
   * two swapped cells; a final test catches any shared cell.
   */
  method ChaseRound(chaser: Chaser, player: Player, world: array2<Tile>, playerMoved: bool)
    returns (caught: bool, ghost route: seq<Point>)
    requires world.Length0 > 0
    modifies chaser`pos, chaser`previousPos, chaser`tileUnderChaser, chaser`path, world
    ensures !caught ==> chaser.pos != player.pos
    ensures !caught && playerMoved ==> !(player.previousPos == chaser.pos && chaser.previousPos == player.pos)
    ensures old(chaser.pos) == player.pos ==> caught && chaser.pos == old(chaser.pos) && Cells(world) == old(Cells(world))
    ensures !playerMoved ==> chaser.pos == old(chaser.pos) && Cells(world) == old(Cells(world))
    ensures caught ==>
      (chaser.pos == player.pos || (playerMoved && player.previousPos == chaser.pos && chaser.previousPos == player.pos))
    ensures chaser.path.Some?
    ensures !(playerMoved && old(chaser.pos) != player.pos) ==> route == []
    ensures route != [] ==>
      old(Pathfinding.ShortestWalk(world, chaser.pos, player.previousPos, route)) &&
      InArray(world, old(chaser.pos)) && InArray(world, route[0]) &&
      chaser.pos == route[0] && chaser.previousPos == old(chaser.pos) &&
      chaser.tileUnderChaser == old(Cells(world))[route[0].x][route[0].y] &&
      Cells(world) == Marked(Put(old(Cells(world)), old(chaser.pos), old(chaser.tileUnderChaser)), route[0], player.pos)
    ensures playerMoved && old(chaser.pos) != player.pos && route == [] ==>
      chaser.pos == old(chaser.pos) && chaser.previousPos == old(chaser.previousPos) &&
      chaser.tileUnderChaser == old(chaser.tileUnderChaser) && Cells(world) == old(Cells(world)) &&
      (InArray(world, old(chaser.pos)) && InArray(world, player.previousPos) && old(chaser.pos) != player.previousPos ==>
         old(Pathfinding.Unreachable(world, chaser.pos, player.previousPos)))
  {
    route := [];
    var display := Pathfinding.FindPath(chaser.pos, player.pos, world);
    chaser.path := Some(display);
    if playerMoved {
      if player.pos == chaser.pos {
        return true, route;
      }
      route := MoveChaser(chaser, player, world);
      if chaser.pos == player.pos {
        return true, route;
      }
      if player.previousPos == chaser.pos && chaser.previousPos == player.pos {
        return true, route;
      }
    }
    if chaser.pos == player.pos {
      return true, route;
    }
    return false, route;
  }
}
