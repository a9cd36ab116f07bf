/**
 * `WorldGenerator.java`: builds the dungeon. The starting room is centred in
 * the area below the HUD band, then every door of every placed room grows a
 * random corridor with a room attached at its end, recursively; finally every
 * door cell is locked or unlocked according to whether it was connected.
 *
 * The generator is a class over the mutable world grid, the list of placed
 * rooms and the two point sets it keeps. Randomness comes from a
 * `RandomSource`, so a run is a function of its draw stream.
 */
module Generation {
  import opened Wrappers
  import opened Tiles
  import opened Directions
  import opened Blueprints
  import opened Painting
  import opened Catalog
  import opened Rooms
  import opened Randomness

  /** Rows kept free at the top of the world for the HUD. */
  const HUD_HEIGHT := 2
  const MIN_CORRIDOR_LEN := 3
  const MAX_CORRIDOR_LEN := 5
  const MAX_TURNS := 3
  const MAX_EXPANSION_DEPTH := 99
  const MAX_TRIES_PER_DOOR := 5

  /**
   * Java's `/` on `int`, which truncates toward zero: the remainder
   * `a - b * q` takes the sign of the dividend and is smaller than `b` in
   * magnitude, and the quotient never has the opposite sign of `a`.
   */
  function JavaDiv(a: int, b: int): (q: int)
    requires b > 0
    ensures a >= 0 ==> 0 <= a - b * q < b
    ensures a < 0 ==> -b < a - b * q <= 0
    ensures (a >= 0 ==> q >= 0) && (a <= 0 ==> q <= 0)
  {
    if a >= 0 then a / b else -((-a) / b)
  }

  /* ----------------------------------------------------------------------
   * Tile classes
   * ---------------------------------------------------------------------- */

  /** `isWalkableTile` of the generator: what counts as room floor. */
  predicate IsWalkableTile(t: Tile)
  {
    t != AVATAR && t != WALL && t != NOTHING && t != WATER &&
    t != LOCKED_DOOR && t != MOUNTAIN && t != TREE
  }

  /** `isBlockingTile`: what a corridor may not be carved through. */
  predicate IsBlockingTile(t: Tile)
  {
    t == AVATAR || t == WALL || t == WATER || t == LOCKED_DOOR ||
    t == UNLOCKED_DOOR || t == MOUNTAIN || t == TREE
  }

  /**
   * The two lists are not complements: UNLOCKED_DOOR is both walkable and
   * blocking, NOTHING is neither, and every other kind is exactly one of them.
   */
  lemma WalkableVersusBlocking(t: Tile)
    ensures IsWalkableTile(t) && IsBlockingTile(t) <==> t == UNLOCKED_DOOR
    ensures !IsWalkableTile(t) && !IsBlockingTile(t) <==> t == NOTHING
  {
  }

  /* ----------------------------------------------------------------------
   * Corridors
   * ---------------------------------------------------------------------- */

  /** `CorridorResult`: the last tile, the direction of the last segment, and every tile in order. */
  datatype CorridorResult = CorridorResult(end: Point, lastDir: Direction, floorPath: seq<Point>)

  /** `turnCandidates(dir)`: the two directions at right angles, vertical first for a horizontal `dir`. */
  function TurnCandidates(d: Direction): (r: seq<Direction>)
    ensures |r| == 2 && r[0] != r[1]
    ensures forall e :: e in r <==> e.IsVertical() != d.IsVertical()
  {
    if d == UP || d == DOWN then [LEFT, RIGHT] else [UP, DOWN]
  }

  /** `List.remove(Object)`: drops the first occurrence, if any. */
  function RemoveFirst(xs: seq<Direction>, x: Direction): (r: seq<Direction>)
    ensures x !in xs ==> r == xs
    ensures x in xs ==> |r| == |xs| - 1
    ensures multiset(r) == multiset(xs) - multiset{x}
  {
    if xs == [] then []
    else
      assert xs == [xs[0]] + xs[1..];
      if xs[0] == x then xs[1..] else [xs[0]] + RemoveFirst(xs[1..], x)
  }

  /** One straight run of a corridor. */
  datatype Segment = Segment(dir: Direction, len: int)

  /** The `n` tiles stepped from `from` in direction `d`, in order. */
  function Line(from: Point, d: Direction, n: nat): (r: seq<Point>)
    ensures |r| == n
    ensures forall i :: 0 <= i < n ==> r[i] == Point(from.x + (i + 1) * d.Dx(), from.y + (i + 1) * d.Dy())
  {
    seq(n, i requires 0 <= i < n => Point(from.x + (i + 1) * d.Dx(), from.y + (i + 1) * d.Dy()))
  }

  /** The last tile of a walk so far, or its start. */
  function Tip(start: Point, path: seq<Point>): Point
  {
    if path == [] then start else path[|path| - 1]
  }

  /** The tiles visited by walking the segments in order from `start`. */
  function Walk(start: Point, segs: seq<Segment>): seq<Point>
  {
    if segs == [] then []
    else
      var before := Walk(start, segs[..|segs| - 1]);
      var s := segs[|segs| - 1];
      before + Line(Tip(start, before), s.dir, if s.len < 0 then 0 else s.len)
  }

  /**
   * The shape of every corridor `buildRandomCorridorFrom` returns: one to
   * four segments (so at most three turns) of 3 to 5 tiles, the first in the
   * door's direction, each turn a right angle, and the last segment never
   * heading back against the first.
   */
  ghost predicate CorridorShape(startDir: Direction, segs: seq<Segment>)
  {
    1 <= |segs| <= MAX_TURNS + 1 &&
    segs[0].dir == startDir &&
    (forall k :: 0 <= k < |segs| ==> MIN_CORRIDOR_LEN <= segs[k].len <= MAX_CORRIDOR_LEN) &&
    (forall k :: 0 < k < |segs| ==> segs[k].dir.IsVertical() != segs[k - 1].dir.IsVertical()) &&
    segs[|segs| - 1].dir != startDir.Opposite()
  }

  /** Consecutive tiles of a walk are 4-adjacent, and the first is next to the start. */
  lemma {:induction false} WalkConnected(start: Point, segs: seq<Segment>)
    ensures var w := Walk(start, segs);
      (|w| > 0 ==> Adjacent(w[0].x, w[0].y, start.x, start.y)) &&
      forall k :: 0 < k < |w| ==> Adjacent(w[k].x, w[k].y, w[k - 1].x, w[k - 1].y)
    decreases |segs|
  {
    if segs != [] {
      var before := Walk(start, segs[..|segs| - 1]);
      WalkConnected(start, segs[..|segs| - 1]);
      var s := segs[|segs| - 1];
      var from := Tip(start, before);
      var line := Line(from, s.dir, if s.len < 0 then 0 else s.len);
      var w := before + line;
      assert w == Walk(start, segs);
      forall k | 0 < k < |w|
        ensures Adjacent(w[k].x, w[k].y, w[k - 1].x, w[k - 1].y)
      {
        if k > |before| {
          assert w[k] == line[k - |before|] && w[k - 1] == line[k - 1 - |before|];
        } else if k == |before| {
          assert w[k] == line[0];
        }
      }
    }
  }

  /** A walk of well-shaped segments has between 3 and 20 tiles. */
  lemma {:induction false} WalkLength(start: Point, segs: seq<Segment>)
    requires forall k :: 0 <= k < |segs| ==> MIN_CORRIDOR_LEN <= segs[k].len <= MAX_CORRIDOR_LEN
    ensures MIN_CORRIDOR_LEN * |segs| <= |Walk(start, segs)| <= MAX_CORRIDOR_LEN * |segs|
    decreases |segs|
  {
    if segs != [] {
      WalkLength(start, segs[..|segs| - 1]);
    }
  }

  /** One more step of a line. */
  lemma LineSnoc(from: Point, d: Direction, n: nat)
    ensures Line(from, d, n + 1) == Line(from, d, n) + [Step(Tip(from, Line(from, d, n)), d)]
  {
    var l, l1 := Line(from, d, n), Line(from, d, n + 1);
    var q := Step(Tip(from, l), d);
    assert q == Point(from.x + (n + 1) * d.Dx(), from.y + (n + 1) * d.Dy());
    assert l1 == l + [q];
  }

  /** Walking one more segment appends its line. */
  lemma WalkSnoc(start: Point, segs: seq<Segment>, s: Segment)
    requires s.len >= 0
    ensures Walk(start, segs + [s]) == Walk(start, segs) + Line(Tip(start, Walk(start, segs)), s.dir, s.len)
  {
    assert (segs + [s])[..|segs|] == segs;
  }

  /** The shape constraints a prefix of the segments already meets. */
  ghost predicate ShapeSoFar(startDir: Direction, segs: seq<Segment>)
  {
    (|segs| > 0 ==> segs[0].dir == startDir) &&
    (forall k :: 0 <= k < |segs| ==> MIN_CORRIDOR_LEN <= segs[k].len <= MAX_CORRIDOR_LEN) &&
    (forall k :: 0 < k < |segs| ==> segs[k].dir.IsVertical() != segs[k - 1].dir.IsVertical())
  }

  /**
   * The state of `buildRandomCorridorFrom`'s segment loop after `seg`
   * segments: the path is their walk, `curr` its last tile, and `currDir` the
   * direction the next segment takes (or the last one's, when all are done).
   */
  ghost predicate Progress(start: Point, startDir: Direction, numSegments: int, seg: int,
                           segs: seq<Segment>, path: seq<Point>, curr: Point, currDir: Direction)
  {
    |segs| == seg && path == Walk(start, segs) && curr == Tip(start, path) &&
    ShapeSoFar(startDir, segs) &&
    (seg == 0 ==> currDir == startDir) &&
    (0 < seg < numSegments ==> currDir.IsVertical() != segs[seg - 1].dir.IsVertical()) &&
    (seg == numSegments - 1 ==> currDir != startDir.Opposite()) &&
    (0 < seg == numSegments ==> currDir == segs[seg - 1].dir && currDir != startDir.Opposite())
  }

  /** After the last segment the walk has a corridor's shape. */
  lemma ProgressDone(start: Point, startDir: Direction, numSegments: int,
                     segs: seq<Segment>, path: seq<Point>, curr: Point, currDir: Direction)
    requires 1 <= numSegments <= MAX_TURNS + 1
    requires Progress(start, startDir, numSegments, numSegments, segs, path, curr, currDir)
    ensures CorridorShape(startDir, segs) && path == Walk(start, segs) && currDir == segs[|segs| - 1].dir
    ensures |path| >= MIN_CORRIDOR_LEN
  {
    WalkLength(start, segs);
  }

  /** One pass of the segment loop keeps `Progress`. */
  lemma SegmentStep(start: Point, startDir: Direction, numSegments: int, seg: int,
                    segs: seq<Segment>, path: seq<Point>, curr: Point, currDir: Direction,
                    len: int, tiles: seq<Point>, nextDir: Direction)
    requires 0 <= seg < numSegments
    requires Progress(start, startDir, numSegments, seg, segs, path, curr, currDir)
    requires MIN_CORRIDOR_LEN <= len <= MAX_CORRIDOR_LEN && tiles == Line(curr, currDir, len)
    requires seg < numSegments - 1 ==> nextDir.IsVertical() != currDir.IsVertical()
    requires seg == numSegments - 2 ==> nextDir != startDir.Opposite()
    requires seg == numSegments - 1 ==> nextDir == currDir
    ensures Progress(start, startDir, numSegments, seg + 1, segs + [Segment(currDir, len)],
                     path + tiles, tiles[len - 1], nextDir)
  {
    var s := Segment(currDir, len);
    var segs', path' := segs + [s], path + tiles;
    assert path' == Walk(start, segs') by { WalkSnoc(start, segs, s); }
    assert ShapeSoFar(startDir, segs') by { ShapeStep(startDir, segs, s); }
    assert Tip(start, path') == tiles[len - 1] by { assert path'[|path'| - 1] == tiles[len - 1]; }
    assert |segs'| == seg + 1 && segs'[seg] == s;
  }

  lemma ShapeStep(startDir: Direction, segs: seq<Segment>, s: Segment)
    requires ShapeSoFar(startDir, segs)
    requires MIN_CORRIDOR_LEN <= s.len <= MAX_CORRIDOR_LEN
    requires |segs| == 0 ==> s.dir == startDir
    requires |segs| > 0 ==> s.dir.IsVertical() != segs[|segs| - 1].dir.IsVertical()
    ensures ShapeSoFar(startDir, segs + [s])
  {
    var segs' := segs + [s];
    assert segs'[|segs|] == s;
    assert forall k :: 0 <= k < |segs| ==> segs'[k] == segs[k];
  }

  /** `isInsideFloorBounds(p)`: off the outer border and below the HUD band. */
  predicate InsideFloorBounds(p: Point, width: int, height: int)
  {
    p.x > 0 && p.x < width - 1 && p.y > 0 && p.y < height - HUD_HEIGHT
  }

  /** The tiles of a path, as a set. */
  function PathSet(path: seq<Point>): set<Point>
  {
    set p | p in path
  }

  lemma PathSetSnoc(path: seq<Point>, p: Point)
    ensures PathSet(path + [p]) == PathSet(path) + {p}
  {
  }

  /* ----------------------------------------------------------------------
   * Corridor drawing as a function of the grid
   * ---------------------------------------------------------------------- */

  /** Some tile of the path is 4-adjacent to the cell. */
  predicate NextToPath(path: seq<Point>, x: int, y: int)
  {
    exists k :: 0 <= k < |path| && Adjacent(x, y, path[k].x, path[k].y)
  }

  /** A cell is next to `path + [p]` when it is next to `path` or to `p`. */
  lemma NextToPathSnoc(path: seq<Point>, p: Point, x: int, y: int)
    ensures NextToPath(path + [p], x, y) <==> NextToPath(path, x, y) || Adjacent(x, y, p.x, p.y)
  {
    var q := path + [p];
    if NextToPath(path, x, y) {
      var k :| 0 <= k < |path| && Adjacent(x, y, path[k].x, path[k].y);
      assert q[k] == path[k];
    }
    if Adjacent(x, y, p.x, p.y) {
      assert q[|path|] == p;
    }
  }

  /** One iteration of `drawCorridor`: the tile becomes FLOOR, then its NOTHING neighbours WALL. */
  function CorridorTile(g: Grid, p: Point): (r: Grid)
    ensures |r| == |g| && forall x :: 0 <= x < |g| ==> |r[x]| == |g[x]|
    ensures forall x, y :: InGrid(g, x, y) ==>
      r[x][y] == (if x == p.x && y == p.y then FLOOR
                  else if g[x][y] == NOTHING && Adjacent(x, y, p.x, p.y) then WALL
                  else g[x][y])
  {
    MapCells(g, (x, y, c) =>
      if x == p.x && y == p.y then FLOOR
      else if c == NOTHING && Adjacent(x, y, p.x, p.y) then WALL
      else c)
  }

  /** The grid after `drawCorridor` has handled the tiles of `path` in order. */
  function CorridorDrawn(g: Grid, path: seq<Point>): (r: Grid)
    ensures |r| == |g| && forall x :: 0 <= x < |g| ==> |r[x]| == |g[x]|
  {
    if path == [] then g else CorridorTile(CorridorDrawn(g, path[..|path| - 1]), path[|path| - 1])
  }

  /**
   * What `drawCorridor` leaves: every path tile is FLOOR, every NOTHING cell
   * 4-adjacent to the path is WALL, and every other cell is as before.
   */
  lemma {:induction false} CorridorDrawnCells(g: Grid, path: seq<Point>, x: int, y: int)
    requires InGrid(g, x, y)
    ensures CorridorDrawn(g, path)[x][y] ==
      if Point(x, y) in path then FLOOR
      else if g[x][y] == NOTHING && NextToPath(path, x, y) then WALL
      else g[x][y]
    decreases |path|
  {
    if path != [] {
      var front := path[..|path| - 1];
      var p := path[|path| - 1];
      CorridorDrawnCells(g, front, x, y);
      NextToPathSnoc(front, p, x, y);
      assert path == front + [p];
    }
  }

  /* ----------------------------------------------------------------------
   * Room cells
   * ---------------------------------------------------------------------- */

  /** The template cell of `room` under the world cell `(x, y)`. */
  function LayoutAt(room: Room, x: int, y: int): Tile
    requires IsGrid(room.template.layout, room.template.width, room.template.height)
    requires room.InBox(x, y)
  {
    room.template.TileAt(x - room.worldX, y - room.worldY)
  }

  /** `p` is one of the room's walkable cells, the ones `registerRoomFloors` records. */
  predicate FloorCell(room: Room, p: Point)
    requires IsGrid(room.template.layout, room.template.width, room.template.height)
  {
    room.InBox(p.x, p.y) && IsWalkableTile(LayoutAt(room, p.x, p.y))
  }

  /** `p` is a cell where the room has something other than NOTHING. */
  predicate SolidCell(room: Room, x: int, y: int)
    requires IsGrid(room.template.layout, room.template.width, room.template.height)
  {
    room.InBox(x, y) && LayoutAt(room, x, y) != NOTHING
  }

  /** The room lies inside a `width` by `height` array, so drawing it cannot go out of range. */
  ghost predicate InWorld(room: Room, width: int, height: int)
  {
    room.template.WellFormed() &&
    0 <= room.worldX && room.MaxX() <= width && 0 <= room.worldY && room.MaxY() <= height
  }

  /** The world positions of all doors of all rooms, room by room, in door order. */
  function DoorsOf(rooms: seq<Room>): seq<Point>
  {
    if rooms == [] then []
    else
      var r := rooms[|rooms| - 1];
      DoorsOf(rooms[..|rooms| - 1]) + RoomDoors(r)
  }

  /** Every door of a room inside the world is a cell of the world. */
  lemma {:induction false} DoorsOfInWorld(rooms: seq<Room>, width: int, height: int)
    requires forall i :: 0 <= i < |rooms| ==> InWorld(rooms[i], width, height)
    ensures forall p :: p in DoorsOf(rooms) ==> 0 <= p.x < width && 0 <= p.y < height
    decreases |rooms|
  {
    if rooms != [] {
      var r := rooms[|rooms| - 1];
      DoorsOfInWorld(rooms[..|rooms| - 1], width, height);
      forall k | 0 <= k < |r.template.doorPositions|
        ensures var p := r.ToWorld(r.template.doorPositions[k]); 0 <= p.x < width && 0 <= p.y < height
      {
        assert r.template.OnBoundary(r.template.doorPositions[k]);
      }
    }
  }

  /** The door state `updateDoorTiles` gives a cell. */
  function DoorState(p: Point, connected: set<Point>): Tile
  {
    if p in connected then UNLOCKED_DOOR else LOCKED_DOOR
  }

  /** The world door positions of one room, in door order. */
  function RoomDoors(r: Room): (ds: seq<Point>)
    ensures |ds| == |r.template.doorPositions|
    ensures forall k :: 0 <= k < |ds| ==> ds[k] == r.ToWorld(r.template.doorPositions[k])
  {
    Translated(r, r.template.doorPositions)
  }

  /** The points `ps` moved to world coordinates by the room's origin, in order. */
  function Translated(r: Room, ps: seq<Point>): (ds: seq<Point>)
    ensures |ds| == |ps|
    ensures forall k :: 0 <= k < |ds| ==> ds[k] == r.ToWorld(ps[k])
  {
    if ps == [] then [] else Translated(r, ps[..|ps| - 1]) + [r.ToWorld(ps[|ps| - 1])]
  }


  /** `placeStartingRoom`'s position: centred, with truncating division, in the area below the HUD band. */
  function StartPlacement(t: RoomTemplate, width: int, height: int): Room
  {
    Room(t, JavaDiv(width - t.width, 2), JavaDiv((height - HUD_HEIGHT) - t.height, 2))
  }

  /**
   * When the template fits the area below the HUD band, the starting room
   * lies inside it with margins that differ by at most one cell, the extra
   * cell going to the right and to the top.
   */
  lemma StartPlacementCentred(t: RoomTemplate, width: int, height: int)
    requires 0 <= t.width <= width && 0 <= t.height <= height - HUD_HEIGHT
    ensures var r := StartPlacement(t, width, height);
      0 <= r.worldX && r.MaxX() <= width &&
      0 <= (width - r.MaxX()) - r.worldX <= 1 &&
      0 <= r.worldY && r.MaxY() <= height - HUD_HEIGHT &&
      0 <= ((height - HUD_HEIGHT) - r.MaxY()) - r.worldY <= 1
  {
  }

  /**
   * The placed rooms: each lies inside the array, each after the first fits
   * the world's one-cell margin, and no two boxes overlap.
   */
  ghost predicate RoomsOk(rooms: seq<Room>, width: int, height: int)
  {
    (forall i :: 0 <= i < |rooms| ==> InWorld(rooms[i], width, height)) &&
    (forall i :: 1 <= i < |rooms| ==> rooms[i].FitsWithinWorld(width, height)) &&
    (forall i, j :: 0 <= i < j < |rooms| ==> !rooms[j].Overlaps(rooms[i]))
  }

  /** Appending a room that fits and overlaps none of the placed rooms keeps them consistent. */
  lemma RoomsOkAppend(rooms: seq<Room>, r: Room, width: int, height: int)
    requires RoomsOk(rooms, width, height)
    requires InWorld(r, width, height) && (|rooms| > 0 ==> r.FitsWithinWorld(width, height))
    requires forall i :: 0 <= i < |rooms| ==> !r.Overlaps(rooms[i])
    ensures RoomsOk(rooms + [r], width, height)
  {
    var rs := rooms + [r];
    forall i, j | 0 <= i < j < |rs| ensures !rs[j].Overlaps(rs[i]) {
      if j == |rooms| {
        assert rs[j] == r && rs[i] == rooms[i];
      }
    }
  }

  /** A sequence extending `a + [x]` starts with `a` and then `x`. */
  lemma GrownPrefix<T>(a: seq<T>, x: T, b: seq<T>, c: seq<T>)
    requires b == a + [x]
    requires |b| <= |c| && c[..|b|] == b
    ensures |c| > |a| && c[..|a|] == a && c[|a|] == x
  {
    assert c[..|a|] == c[..|b|][..|a|];
  }

  /** `directionForDoor(room, doorWorld)`: the side of the room the world door lies on. */
  function DirectionForDoor(room: Room, doorWorld: Point): Option<Direction>
  {
    room.template.DoorSide(Point(doorWorld.x - room.worldX, doorWorld.y - room.worldY))
  }

  /**
   * Classifying a world door gives the side of the template door it came
   * from, which for a well-formed template is always defined.
   */
  lemma DirectionForWorldDoor(room: Room, k: int)
    requires 0 <= k < |room.template.doorPositions|
    ensures DirectionForDoor(room, RoomDoors(room)[k]) == room.template.DoorSide(room.template.doorPositions[k])
    ensures room.template.WellFormed() ==> DirectionForDoor(room, RoomDoors(room)[k]).Some?
  {
    var p := room.template.doorPositions[k];
    assert Point(RoomDoors(room)[k].x - room.worldX, RoomDoors(room)[k].y - room.worldY) == p;
    if room.template.WellFormed() {
      assert room.template.OnBoundary(p);
    }
  }

  /** The templates the generator draws from, as the catalog guarantees them. */
  ghost predicate CatalogOk(templates: seq<RoomTemplate>, index: map<Direction, seq<RoomTemplate>>)
  {
    |templates| > 0 && templates[0].WellFormed() &&
    forall d :: d in index ==> forall t :: t in index[d] ==> t.WellFormed()
  }

  /** The catalog of `RoomTemplates` and any index built from it satisfy `CatalogOk`. */
  lemma CatalogIsOk(index: map<Direction, seq<RoomTemplate>>)
    requires forall d :: d in index ==> index[d] == ByDirection(AllTemplates(), d)
    ensures CatalogOk(AllTemplates(), index)
  {
    CatalogWellFormed();
    forall d, t | d in index && t in index[d]
      ensures t.WellFormed()
    {
      ByDirectionMembers(AllTemplates(), d, t);
    }
  }

  /* ----------------------------------------------------------------------
   * The avatar cell
   * ---------------------------------------------------------------------- */

  /** Every tile of the path is a cell of the array and not blocking, as when the corridor was built. */
  ghost predicate Unblocked(a: array2<Tile>, path: seq<Point>)
    reads a
  {
    forall k :: 0 <= k < |path| ==> InArray(a, path[k]) && !IsBlockingTile(a[path[k].x, path[k].y])
  }

  /**
   * Where `generate` puts the avatar: the origin plus half the template's
   * size. The sizes of a well-formed template are positive, so `/` here is
   * Java's truncating division.
   */
  function Centre(r: Room): Point
  {
    Point(r.worldX + r.template.width / 2, r.worldY + r.template.height / 2)
  }

  /** The template's own centre cell is not one of its doors. */
  predicate CentreFree(t: RoomTemplate)
  {
    Point(t.width / 2, t.height / 2) !in t.doorPositions
  }

  /** The centre of a room of positive size is one of its cells. */
  lemma CentreInBox(r: Room)
    requires r.template.width > 0 && r.template.height > 0
    ensures r.InBox(Centre(r).x, Centre(r).y)
  {
  }

  /** The catalog's starting room, a 5 by 5 room with doors in the middle of its sides, has a free centre. */
  lemma StartingRoomCentreFree()
    ensures CentreFree(AllTemplates()[0])
  {
    var s := StartingRoom();
    assert AllTemplates()[0] == Realize(s);
    RealizeKeepsFields(s);
  }

  /**
   * When the first room's centre is not one of its doors, it is no door of
   * any placed room: the doors of every later room lie in that room's box,
   * which does not overlap the first room's.
   */
  lemma {:induction false} CentreNotADoor(rooms: seq<Room>, width: int, height: int)
    requires RoomsOk(rooms, width, height) && |rooms| > 0
    requires CentreFree(rooms[0].template)
    ensures Centre(rooms[0]) !in DoorsOf(rooms)
    decreases |rooms|
  {
    var n := |rooms|;
    var r := rooms[n - 1];
    var a := Centre(rooms[0]);
    var front := rooms[..n - 1];
    if n == 1 {
      assert front == [];
      forall k | 0 <= k < |RoomDoors(r)|
        ensures RoomDoors(r)[k] != a
      {
        assert r.template.doorPositions[k] in r.template.doorPositions;
      }
    } else {
      assert front[0] == rooms[0];
      assert RoomsOk(front, width, height);
      CentreNotADoor(front, width, height);
      CentreInBox(rooms[0]);
      OverlapsIffSharedCell(r, rooms[0]);
      forall k | 0 <= k < |RoomDoors(r)|
        ensures RoomDoors(r)[k] != a
      {
        WorldDoorsOnRoomBorder(r, width, height, k);
      }
    }
  }

  /**
   * A cell that is not on the corridor, is not NOTHING and lies outside the
   * next room's box keeps its tile while the corridor and then the room are
   * drawn.
   */
  lemma PassageKeeps(g: Grid, path: seq<Point>, next: Room, x: int, y: int)
    requires IsGrid(next.template.layout, next.template.width, next.template.height)
    requires InGrid(g, x, y) && g[x][y] != NOTHING
    requires Point(x, y) !in path && !next.InBox(x, y)
    ensures Drawn(CorridorDrawn(g, path), next)[x][y] == g[x][y]
  {
    CorridorDrawnCells(g, path, x, y);
  }

  /**
   * A corridor dug over unblocked tiles never passes the avatar at the first
   * room's centre, since AVATAR is blocking, and a room that does not overlap
   * the first room does not cover that centre.
   */
  lemma PassageAvoidsCentre(a: array2<Tile>, path: seq<Point>, next: Room, first: Room)
    requires Unblocked(a, path)
    requires first.template.width > 0 && first.template.height > 0
    requires next.template.width > 0 && next.template.height > 0 && !next.Overlaps(first)
    requires InArray(a, Centre(first)) && a[Centre(first).x, Centre(first).y] == AVATAR
    ensures Centre(first) !in path && !next.InBox(Centre(first).x, Centre(first).y)
  {
    var c := Centre(first);
    forall k | 0 <= k < |path| ensures path[k] != c {
      assert InArray(a, path[k]);
    }
    CentreInBox(first);
    OverlapsIffSharedCell(next, first);
  }

  /** A cell drawn over by neither the corridor nor the room keeps its tile in the array. */
  lemma DrawnCellKept(a: array2<Tile>, g: Grid, path: seq<Point>, next: Room, p: Point)
    requires IsGrid(next.template.layout, next.template.width, next.template.height)
    requires Cells(a) == Drawn(CorridorDrawn(g, path), next)
    requires InGrid(g, p.x, p.y) && g[p.x][p.y] != NOTHING && p !in path && !next.InBox(p.x, p.y)
    ensures InArray(a, p) && a[p.x, p.y] == g[p.x][p.y]
  {
    PassageKeeps(g, path, next, p.x, p.y);
  }

  /** The points of `ps` on the side `needed` of the template, in their order in `ps`. */
  function Facing(t: RoomTemplate, ps: seq<Point>, needed: Direction): seq<Point>
  {
    if ps == [] then []
    else
      var last := ps[|ps| - 1];
      Facing(t, ps[..|ps| - 1], needed) + if t.DoorSide(last) == Some(needed) then [last] else []
  }

  /** The filtered list holds exactly the points of `ps` on side `needed`, none twice more than in `ps`. */
  lemma {:induction false} FacingMembers(t: RoomTemplate, ps: seq<Point>, needed: Direction)
    ensures forall p :: p in Facing(t, ps, needed) <==> p in ps && t.DoorSide(p) == Some(needed)
    ensures |Facing(t, ps, needed)| <= |ps|
    decreases |ps|
  {
    if ps != [] {
      var front := ps[..|ps| - 1];
      FacingMembers(t, front, needed);
      assert ps == front + [ps[|ps| - 1]];
    }
  }

  class WorldGenerator {
    const width: int
    const height: int
    const world: array2<Tile>
    const rand: RandomSource
    /** `RoomTemplates.ALL_TEMPLATES`. */
    const templates: seq<RoomTemplate>
    /** `RoomTemplates.BY_DIRECTION`. */
    const byDirection: map<Direction, seq<RoomTemplate>>

    var rooms: seq<Room>
    /** All cells already used as floor by rooms and corridors. */
    var floorOccupied: set<Point>
    /** World positions of doors that were connected to another room. */
    var connectedDoors: set<Point>

    /**
     * What holds between the generator's steps: the array has the declared
     * size, the catalog is well formed, every placed room lies inside the
     * array, every room after the first fits the world's one-cell margin, and
     * no two placed rooms' boxes overlap.
     */
    ghost predicate Valid()
      reads this`rooms
    {
      world.Length0 == width && world.Length1 == height &&
      CatalogOk(templates, byDirection) &&
      RoomsOk(rooms, width, height)
    }

    /** The avatar stands at the centre of the first placed room. */
    ghost predicate AvatarPlaced()
      reads this`rooms, world
    {
      |rooms| > 0 && InArray(world, Centre(rooms[0])) && world[Centre(rooms[0]).x, Centre(rooms[0]).y] == AVATAR
    }

    /** The constructor with `fillWithNothing`. */
    constructor (width: int, height: int, stream: nat -> nat,
                 templates: seq<RoomTemplate>, byDirection: map<Direction, seq<RoomTemplate>>)
      requires width > 0 && height > 0
      requires CatalogOk(templates, byDirection)
      ensures Valid()
      ensures this.width == width && this.height == height
      ensures this.templates == templates && this.byDirection == byDirection
      ensures fresh(world) && fresh(rand) && rand.stream == stream && rand.drawn == 0
      ensures rooms == [] && floorOccupied == {} && connectedDoors == {}
      ensures Cells(world) == Blank(width, height)
    {
      this.width := width;
      this.height := height;
      this.templates := templates;
      this.byDirection := byDirection;
      var a := new Tile[width, height];
      world := a;
      rand := new RandomSource(stream);
      rooms := [];
      floorOccupied := {};
      connectedDoors := {};
      new;
      FillLayout(a, NOTHING);
      GridExt(Cells(a), Blank(width, height));
    }

    /* --------------------------------------------------------------------
     * Rooms and floors
     * -------------------------------------------------------------------- */

    /** `registerRoomFloors(room)`: records every walkable cell of the room. */
    method RegisterRoomFloors(room: Room)
      requires IsGrid(room.template.layout, room.template.width, room.template.height)
      modifies this`floorOccupied
      ensures forall p :: p in floorOccupied <==> p in old(floorOccupied) || FloorCell(room, p)
    {
      var t := room.template;
      var dx := 0;
      while dx < t.width
        invariant 0 <= dx <= t.width
        invariant forall p :: p in floorOccupied <==>
          p in old(floorOccupied) || (FloorCell(room, p) && p.x < room.worldX + dx)
      {
        assert |t.layout[dx]| == t.height;
        var dy := 0;
        while dy < t.height
          invariant 0 <= dy <= t.height
          invariant forall p :: p in floorOccupied <==>
            p in old(floorOccupied) ||
            (FloorCell(room, p) && Before(p, Point(room.worldX + dx, room.worldY + dy)))
        {
          var tile := t.layout[dx][dy];
          if IsWalkableTile(tile) {
            floorOccupied := floorOccupied + {Point(room.worldX + dx, room.worldY + dy)};
          }
          dy := dy + 1;
        }
        dx := dx + 1;
      }
    }

    /** `roomFloorsDisjoint(room)`: no walkable cell of the room is already floor. */
    method RoomFloorsDisjoint(room: Room) returns (ok: bool)
      requires IsGrid(room.template.layout, room.template.width, room.template.height)
      ensures ok <==> forall p :: FloorCell(room, p) ==> p !in floorOccupied
    {
      var t := room.template;
      var dx := 0;
      while dx < t.width
        invariant 0 <= dx <= t.width
        invariant forall p :: FloorCell(room, p) && p.x < room.worldX + dx ==> p !in floorOccupied
      {
        assert |t.layout[dx]| == t.height;
        var dy := 0;
        while dy < t.height
          invariant 0 <= dy <= t.height
          invariant forall p :: FloorCell(room, p) && Before(p, Point(room.worldX + dx, room.worldY + dy)) ==>
            p !in floorOccupied
        {
          var tile := t.layout[dx][dy];
          if IsWalkableTile(tile) {
            var p := Point(room.worldX + dx, room.worldY + dy);
            if p in floorOccupied {
              assert FloorCell(room, p);
              return false;
            }
          }
          dy := dy + 1;
        }
        dx := dx + 1;
      }
      return true;
    }

    /** The inner loop of `roomTilesDisjoint`: some placed room has a non-NOTHING cell at `(x, y)`. */
    method SolidInPlacedRoom(x: int, y: int) returns (found: bool)
      requires Valid()
      ensures found <==> exists k :: 0 <= k < |rooms| && SolidCell(rooms[k], x, y)
    {
      var k := 0;
      while k < |rooms|
        invariant 0 <= k <= |rooms|
        invariant forall j :: 0 <= j < k ==> !SolidCell(rooms[j], x, y)
      {
        var r := rooms[k];
        var localX := x - r.worldX;
        var localY := y - r.worldY;
        if localX >= 0 && localX < r.template.width && localY >= 0 && localY < r.template.height {
          if r.template.layout[localX][localY] != NOTHING {
            assert SolidCell(rooms[k], x, y);
            return true;
          }
        }
        k := k + 1;
      }
      return false;
    }

    /**
     * No non-NOTHING cell of the room meets a non-NOTHING cell of a placed
     * room or a non-NOTHING world cell.
     */
    ghost predicate TilesDisjoint(room: Room)
      requires Valid()
      requires InWorld(room, width, height)
      reads this, world
    {
      forall x, y :: SolidCell(room, x, y) ==>
        world[x, y] == NOTHING && forall k :: 0 <= k < |rooms| ==> !SolidCell(rooms[k], x, y)
    }

    /** `roomTilesDisjoint(room)`. */
    method RoomTilesDisjoint(room: Room) returns (ok: bool)
      requires Valid()
      requires InWorld(room, width, height)
      ensures ok <==> TilesDisjoint(room)
    {
      var t := room.template;
      var dx := 0;
      while dx < t.width
        invariant 0 <= dx <= t.width
        invariant forall x, y :: SolidCell(room, x, y) && x < room.worldX + dx ==>
          world[x, y] == NOTHING && forall k :: 0 <= k < |rooms| ==> !SolidCell(rooms[k], x, y)
      {
        assert |t.layout[dx]| == t.height;
        var dy := 0;
        while dy < t.height
          invariant 0 <= dy <= t.height
          invariant forall x, y :: SolidCell(room, x, y) && Before(Point(x, y), Point(room.worldX + dx, room.worldY + dy)) ==>
            world[x, y] == NOTHING && forall k :: 0 <= k < |rooms| ==> !SolidCell(rooms[k], x, y)
        {
          var tile := t.layout[dx][dy];
          if tile != NOTHING {
            var x, y := room.worldX + dx, room.worldY + dy;
            var clash := SolidInPlacedRoom(x, y);
            if clash {
              assert SolidCell(room, x, y);
              return false;
            }
            if world[x, y] != NOTHING {
              assert SolidCell(room, x, y);
              return false;
            }
          }
          dy := dy + 1;
        }
        dx := dx + 1;
      }
      return true;
    }

    /** `placeStartingRoom()`: template 0, centred below the HUD band, its floors recorded. */
    method PlaceStartingRoom() returns (r: Room)
      requires Valid()
      modifies this`floorOccupied
      ensures r == StartPlacement(templates[0], width, height)
      ensures forall p :: p in floorOccupied <==> p in old(floorOccupied) || FloorCell(r, p)
    {
      var t := templates[0];
      var usableHeight := height - HUD_HEIGHT;
      var worldX := JavaDiv(width - t.width, 2);
      var worldY := JavaDiv(usableHeight - t.height, 2);
      r := Room(t, worldX, worldY);
      RegisterRoomFloors(r);
    }

    /* --------------------------------------------------------------------
     * Drawing
     * -------------------------------------------------------------------- */

    /** One iteration of `drawCorridor`. */
    method DrawCorridorTile(p: Point)
      requires InArray(world, p)
      modifies world, this`floorOccupied
      ensures Cells(world) == CorridorTile(old(Cells(world)), p)
      ensures floorOccupied == old(floorOccupied) + {p}
    {
      ghost var g := Cells(world);
      world[p.x, p.y] := FLOOR;
      floorOccupied := floorOccupied + {p};
      WallOffNeighbours(world, p.x, p.y);
      GridExt(Cells(world), CorridorTile(g, p));
    }

    /** `drawCorridor(corridor)`: the path becomes floor, walled in where the world was empty. */
    method DrawCorridor(c: CorridorResult)
      requires forall k :: 0 <= k < |c.floorPath| ==> InArray(world, c.floorPath[k])
      modifies world, this`floorOccupied
      ensures Cells(world) == CorridorDrawn(old(Cells(world)), c.floorPath)
      ensures floorOccupied == old(floorOccupied) + PathSet(c.floorPath)
    {
      ghost var g := Cells(world);
      var path := c.floorPath;
      var i := 0;
      while i < |path|
        invariant 0 <= i <= |path|
        invariant Cells(world) == CorridorDrawn(g, path[..i])
        invariant floorOccupied == old(floorOccupied) + PathSet(path[..i])
      {
        DrawCorridorTile(path[i]);
        assert path[..i + 1][..i] == path[..i];
        PathSetSnoc(path[..i], path[i]);
        assert path[..i] + [path[i]] == path[..i + 1];
        i := i + 1;
      }
      assert path[..i] == path;
    }

    /** `drawRoom(room)`. */
    method DrawRoom(room: Room)
      requires InWorld(room, world.Length0, world.Length1)
      modifies world
      ensures Cells(world) == Drawn(old(Cells(world)), room)
    {
      DrawInto(room, world);
    }

    /** The inner loop of `updateDoorTiles`, for one room. */
    method UpdateRoomDoors(r: Room)
      requires InWorld(r, world.Length0, world.Length1)
      modifies world
      ensures forall x, y :: 0 <= x < world.Length0 && 0 <= y < world.Length1 ==>
        world[x, y] == if Point(x, y) in RoomDoors(r) then DoorState(Point(x, y), connectedDoors) else old(world[x, y])
    {
      var doorWorlds := GetWorldDoorPositions(r);
      assert doorWorlds == RoomDoors(r);
      var j := 0;
      while j < |doorWorlds|
        invariant 0 <= j <= |doorWorlds|
        invariant forall x, y :: 0 <= x < world.Length0 && 0 <= y < world.Length1 ==>
          world[x, y] == if Point(x, y) in doorWorlds[..j] then DoorState(Point(x, y), connectedDoors) else old(world[x, y])
      {
        var d := doorWorlds[j];
        assert r.template.OnBoundary(r.template.doorPositions[j]);
        if d in connectedDoors {
          world[d.x, d.y] := UNLOCKED_DOOR;
        } else {
          world[d.x, d.y] := LOCKED_DOOR;
        }
        assert doorWorlds[..j + 1] == doorWorlds[..j] + [d];
        forall x, y | 0 <= x < world.Length0 && 0 <= y < world.Length1
          ensures world[x, y] == if Point(x, y) in doorWorlds[..j + 1] then DoorState(Point(x, y), connectedDoors) else old(world[x, y])
        {
          assert Point(x, y) in doorWorlds[..j + 1] <==> Point(x, y) in doorWorlds[..j] || Point(x, y) == d;
        }
        j := j + 1;
      }
      assert doorWorlds[..j] == doorWorlds;
    }

    /**
     * `updateDoorTiles()`: every door cell of every placed room is unlocked
     * if it was connected and locked otherwise; no other cell changes.
     */
    method UpdateDoorTiles()
      requires Valid()
      modifies world
      ensures forall x, y :: 0 <= x < width && 0 <= y < height ==>
        world[x, y] == if Point(x, y) in DoorsOf(rooms) then DoorState(Point(x, y), connectedDoors) else old(world[x, y])
    {
      var i := 0;
      while i < |rooms|
        invariant 0 <= i <= |rooms|
        invariant forall x, y :: 0 <= x < width && 0 <= y < height ==>
          world[x, y] == if Point(x, y) in DoorsOf(rooms[..i]) then DoorState(Point(x, y), connectedDoors) else old(world[x, y])
      {
        assert DoorsOf(rooms[..i + 1]) == DoorsOf(rooms[..i]) + RoomDoors(rooms[i]) by {
          assert rooms[..i + 1][..i] == rooms[..i];
        }
        label Prior:
        UpdateRoomDoors(rooms[i]);
        forall x, y | 0 <= x < width && 0 <= y < height
          ensures world[x, y] == if Point(x, y) in DoorsOf(rooms[..i + 1]) then DoorState(Point(x, y), connectedDoors) else old(world[x, y])
        {
          assert old@Prior(world[x, y]) == if Point(x, y) in DoorsOf(rooms[..i]) then DoorState(Point(x, y), connectedDoors) else old(world[x, y]);
        }
        i := i + 1;
      }
      assert rooms[..i] == rooms;
    }

    /* --------------------------------------------------------------------
     * Corridor generation
     * -------------------------------------------------------------------- */

    /** `randomInRange(lo, hiInclusive)`: a draw in `[lo, hiInclusive]`. */
    method RandomInRange(lo: int, hiInclusive: int) returns (r: int)
      requires lo <= hiInclusive
      modifies rand
      ensures lo <= r <= hiInclusive
    {
      r := rand.UniformRange(lo, hiInclusive + 1);
    }

    /** `randomChoice(list)`: a drawn element of a non-empty list. */
    method RandomChoice<T>(list: seq<T>) returns (x: T)
      requires |list| > 0
      modifies rand
      ensures x in list
    {
      var idx := rand.Uniform(|list|);
      x := list[idx];
    }

    /** A corridor may use the tile: inside the floor bounds, not yet floor, and not blocking. */
    ghost predicate CorridorTileOk(p: Point)
      reads this, world
    {
      InsideFloorBounds(p, width, height) && p !in floorOccupied &&
      InArray(world, p) && !IsBlockingTile(world[p.x, p.y])
    }

    /** What a corridor returned by `buildRandomCorridorFrom(start, startDir)` satisfies. */
    ghost predicate CorridorOk(start: Point, startDir: Direction, c: CorridorResult)
      reads this, world
    {
      (exists segs: seq<Segment> :: CorridorShape(startDir, segs) && c.floorPath == Walk(start, segs) && c.lastDir == segs[|segs| - 1].dir) &&
      |c.floorPath| > 0 && c.end == c.floorPath[|c.floorPath| - 1] &&
      forall k :: 0 <= k < |c.floorPath| ==> CorridorTileOk(c.floorPath[k])
    }

    /**
     * The inner loop of `buildRandomCorridorFrom`: `len` steps from `from` in
     * direction `d`; `None` where the source returns `null` for a bad tile.
     */
    method WalkSegment(from: Point, d: Direction, len: int) returns (tiles: Option<seq<Point>>)
      requires Valid()
      requires len >= 0
      ensures tiles.Some? ==> tiles.value == Line(from, d, len)
      ensures tiles.Some? ==> forall k :: 0 <= k < len ==> CorridorTileOk(tiles.value[k])
    {
      var path: seq<Point> := [];
      var curr := from;
      var i := 0;
      while i < len
        invariant 0 <= i <= len
        invariant path == Line(from, d, i)
        invariant curr == Tip(from, path)
        invariant forall k :: 0 <= k < i ==> CorridorTileOk(path[k])
      {
        curr := Step(curr, d);
        if !InsideFloorBounds(curr, width, height) {
          return None;
        }
        if curr in floorOccupied {
          return None;
        }
        var existing := world[curr.x, curr.y];
        if IsBlockingTile(existing) {
          return None;
        }
        LineSnoc(from, d, i);
        path := path + [curr];
        i := i + 1;
      }
      return Some(path);
    }

    /**
     * The turn between segments: a right angle, drawn at random, and before
     * the final segment never the opposite of the corridor's first direction.
     */
    method ChooseTurn(currDir: Direction, initialDir: Direction, beforeLast: bool) returns (next: Option<Direction>)
      modifies rand
      ensures next.Some? ==> next.value.IsVertical() != currDir.IsVertical()
      ensures next.Some? && beforeLast ==> next.value != initialDir.Opposite()
    {
      var candidates := TurnCandidates(currDir);
      if beforeLast {
        candidates := RemoveFirst(candidates, initialDir.Opposite());
      }
      if |candidates| == 0 {
        return None;
      }
      var d := RandomChoice(candidates);
      assert d in TurnCandidates(currDir) by {
        if beforeLast {
          assert multiset(candidates)[d] > 0;
        }
      }
      return Some(d);
    }

    /**
     * `buildRandomCorridorFrom(start, startDir)`: `None` stands for `null`,
     * returned as soon as a tile leaves the floor bounds, is already floor or
     * is blocking. Only the random source changes.
     */
    method BuildRandomCorridorFrom(start: Point, startDir: Direction) returns (res: Option<CorridorResult>)
      requires Valid()
      modifies rand
      ensures res.Some? ==> CorridorOk(start, startDir, res.value)
    {
      var numTurns := rand.Uniform(MAX_TURNS + 1);
      var numSegments := numTurns + 1;
      var path: seq<Point> := [];
      var currDir := startDir;
      var curr := start;
      ghost var segs: seq<Segment> := [];
      var seg := 0;
      while seg < numSegments
        invariant 0 <= seg <= numSegments <= MAX_TURNS + 1
        invariant Progress(start, startDir, numSegments, seg, segs, path, curr, currDir)
        invariant AllTilesOk(path)
      {
        var ok;
        ok, path, curr, currDir, segs := CorridorSegment(start, startDir, numSegments, seg, segs, path, curr, currDir);
        if !ok {
          return None;
        }
        seg := seg + 1;
      }
      ProgressDone(start, startDir, numSegments, segs, path, curr, currDir);
      res := Some(CorridorResult(path[|path| - 1], currDir, path));
      assert CorridorOk(start, startDir, res.value) by {
        assert CorridorShape(startDir, segs) && path == Walk(start, segs) && currDir == segs[|segs| - 1].dir;
        assert AllTilesOk(path);
      }
    }

    /**
     * One pass of the segment loop of `buildRandomCorridorFrom`: draw a
     * length, walk it, and between segments draw the turn. `false` where the
     * source returns `null`.
     */
    method CorridorSegment(start: Point, startDir: Direction, numSegments: int, seg: int, ghost segs: seq<Segment>,
                           path: seq<Point>, curr: Point, currDir: Direction)
      returns (ok: bool, path': seq<Point>, curr': Point, currDir': Direction, ghost segs': seq<Segment>)
      requires Valid()
      requires 0 <= seg < numSegments
      requires Progress(start, startDir, numSegments, seg, segs, path, curr, currDir)
      requires AllTilesOk(path)
      modifies rand
      ensures ok ==> Progress(start, startDir, numSegments, seg + 1, segs', path', curr', currDir')
      ensures ok ==> AllTilesOk(path')
    {
      var len := RandomInRange(MIN_CORRIDOR_LEN, MAX_CORRIDOR_LEN);
      var tiles := WalkSegment(curr, currDir, len);
      if tiles.None? {
        return false, path, curr, currDir, segs;
      }
      var nextDir := currDir;
      if seg < numSegments - 1 {
        var next := ChooseTurn(currDir, startDir, seg == numSegments - 2);
        if next.None? {
          return false, path, curr, currDir, segs;
        }
        nextDir := next.value;
      }
      SegmentStep(start, startDir, numSegments, seg, segs, path, curr, currDir, len, tiles.value, nextDir);
      AllTilesOkAppend(path, tiles.value);
      return true, path + tiles.value, tiles.value[len - 1], nextDir, segs + [Segment(currDir, len)];
    }

    /** Every tile of the path may be used by a corridor. */
    ghost predicate AllTilesOk(path: seq<Point>)
      reads this, world
    {
      forall k :: 0 <= k < |path| ==> CorridorTileOk(path[k])
    }

    lemma AllTilesOkAppend(path: seq<Point>, more: seq<Point>)
      requires AllTilesOk(path)
      requires forall k :: 0 <= k < |more| ==> CorridorTileOk(more[k])
      ensures AllTilesOk(path + more)
    {
      forall k | 0 <= k < |path + more|
        ensures CorridorTileOk((path + more)[k])
      {
        if k >= |path| {
          assert (path + more)[k] == more[k - |path|];
        }
      }
    }

    /* --------------------------------------------------------------------
     * Attaching a room at the corridor's end
     * -------------------------------------------------------------------- */

    /**
     * What a room returned by `tryPlaceRandomRoomAtCorridorEnd` satisfies: a
     * door of it facing `needed` sits exactly on `end`, it fits the world, its
     * box overlaps no placed room, its walkable cells are not yet floor, and
     * its non-NOTHING cells meet neither a placed room's non-NOTHING cells nor
     * a non-NOTHING world cell.
     */
    ghost predicate PlacementOk(room: Room, end: Point, needed: Direction)
      requires Valid()
      reads this, world
    {
      room.template.WellFormed() &&
      (exists k :: 0 <= k < |room.template.doorPositions| &&
        room.ToWorld(room.template.doorPositions[k]) == end &&
        room.template.DoorSide(room.template.doorPositions[k]) == Some(needed)) &&
      room.FitsWithinWorld(width, height) &&
      (forall i :: 0 <= i < |rooms| ==> !room.Overlaps(rooms[i])) &&
      (forall p :: FloorCell(room, p) ==> p !in floorOccupied) &&
      InWorld(room, width, height) && TilesDisjoint(room)
    }

    /** The loop collecting `matchingDoors`: the template's doors that face `needed`, in door order. */
    method MatchingDoors(t: RoomTemplate, needed: Direction) returns (m: seq<Point>)
      requires t.WellFormed()
      ensures m == Facing(t, t.doorPositions, needed)
      ensures forall p :: p in m <==> p in t.doorPositions && t.DoorSide(p) == Some(needed)
    {
      m := [];
      var i := 0;
      while i < |t.doorPositions|
        invariant 0 <= i <= |t.doorPositions|
        invariant m == Facing(t, t.doorPositions[..i], needed)
      {
        var local := t.doorPositions[i];
        var doorDir := t.DoorSide(local);
        if doorDir == Some(needed) {
          m := m + [local];
        }
        assert t.doorPositions[..i + 1][..i] == t.doorPositions[..i];
        i := i + 1;
      }
      assert t.doorPositions[..i] == t.doorPositions;
      FacingMembers(t, t.doorPositions, needed);
    }

    /** One pass of the candidate loop of `tryPlaceRandomRoomAtCorridorEnd`, before registering floors. */
    method TryTemplate(t: RoomTemplate, end: Point, needed: Direction) returns (placed: Option<Room>)
      requires Valid()
      requires t.WellFormed()
      modifies rand
      ensures placed.Some? ==> placed.value.template == t && PlacementOk(placed.value, end, needed)
    {
      if |t.doorPositions| == 0 {
        return None;
      }
      var matching := MatchingDoors(t, needed);
      if |matching| == 0 {
        return None;
      }
      var localDoor := RandomChoice(matching);
      var candidate := Room(t, end.x - localDoor.x, end.y - localDoor.y);
      if !candidate.FitsWithinWorld(width, height) {
        return None;
      }
      var overlapping := OverlapsAny(candidate, rooms);
      if overlapping {
        return None;
      }
      var floorsOk := RoomFloorsDisjoint(candidate);
      if !floorsOk {
        return None;
      }
      var tilesOk := RoomTilesDisjoint(candidate);
      if !tilesOk {
        return None;
      }
      var k :| 0 <= k < |t.doorPositions| && t.doorPositions[k] == localDoor;
      assert candidate.ToWorld(t.doorPositions[k]) == end;
      return Some(candidate);
    }

    /**
     * `tryPlaceRandomRoomAtCorridorEnd(corridor, candidates, neededDoorDir)`:
     * the candidates are shuffled and the first that can be placed is
     * returned with its floors registered; `None` stands for `null`, and then
     * nothing but the random source has changed.
     */
    method TryPlaceRandomRoomAtCorridorEnd(c: CorridorResult, candidates: seq<RoomTemplate>, needed: Direction)
      returns (placed: Option<Room>)
      requires Valid()
      requires forall t :: t in candidates ==> t.WellFormed()
      modifies this`floorOccupied, rand
      ensures placed.Some? ==> placed.value.template in candidates && old(PlacementOk(placed.value, c.end, needed))
      ensures placed.Some? ==> forall p :: p in floorOccupied <==> p in old(floorOccupied) || FloorCell(placed.value, p)
      ensures placed.None? ==> floorOccupied == old(floorOccupied)
    {
      var arr := new RoomTemplate[|candidates|](i requires 0 <= i < |candidates| => candidates[i]);
      assert arr[..] == candidates;
      rand.Shuffle(arr);
      var shuffled := arr[..];
      var end := c.end;
      var i := 0;
      while i < |shuffled|
        invariant 0 <= i <= |shuffled|
        invariant floorOccupied == old(floorOccupied)
        invariant multiset(shuffled) == multiset(candidates)
      {
        var t := shuffled[i];
        assert t in multiset(candidates);
        var attempt := TryTemplate(t, end, needed);
        if attempt.Some? {
          RegisterRoomFloors(attempt.value);
          return attempt;
        }
        i := i + 1;
      }
      return None;
    }

    /* --------------------------------------------------------------------
     * Recursive expansion
     * -------------------------------------------------------------------- */

    /** What a room passed to the connecting step satisfies: it can join the placed rooms. */
    ghost predicate Attachable(room: Room, end: Point)
      reads this
    {
      InWorld(room, width, height) && room.FitsWithinWorld(width, height) &&
      (forall i :: 0 <= i < |rooms| ==> !room.Overlaps(rooms[i])) &&
      exists k :: 0 <= k < |RoomDoors(room)| && RoomDoors(room)[k] == end
    }

    /**
     * The door `doorWorld` was joined to room `n`: both it and one of the
     * new room's doors are connected.
     */
    ghost predicate JoinedAt(n: int, doorWorld: Point)
      reads this
    {
      0 <= n < |rooms| && doorWorld in connectedDoors &&
      exists k :: 0 <= k < |RoomDoors(rooms[n])| && RoomDoors(rooms[n])[k] in connectedDoors
    }

    /**
     * The success branch of `growFromRoom`'s attempt loop, up to the
     * recursive call: both doors become connected, and the corridor and the
     * room are drawn.
     */
    method Join(doorWorld: Point, c: CorridorResult, next: Room)
      requires Valid()
      requires forall k :: 0 <= k < |c.floorPath| ==> InArray(world, c.floorPath[k])
      requires Unblocked(world, c.floorPath)
      requires Attachable(next, c.end)
      modifies this`rooms, this`floorOccupied, this`connectedDoors, world
      ensures Valid()
      ensures rooms == old(rooms) + [next]
      ensures floorOccupied == old(floorOccupied) + PathSet(c.floorPath)
      ensures connectedDoors == old(connectedDoors) + {doorWorld, c.end}
      ensures Cells(world) == Drawn(CorridorDrawn(old(Cells(world)), c.floorPath), next)
      ensures old(AvatarPlaced()) ==> AvatarPlaced()
    {
      ghost var placed := AvatarPlaced();
      ghost var a := Centre(if |rooms| > 0 then rooms[0] else next);
      if placed {
        PassageAvoidsCentre(world, c.floorPath, next, rooms[0]);
      }
      Record(doorWorld, c.end, next);
      DrawPassage(c, next, a);
    }

    /** The bookkeeping of the success branch: both doors connected, the room recorded. */
    method Record(doorWorld: Point, end: Point, next: Room)
      requires Valid()
      requires Attachable(next, end)
      modifies this`rooms, this`connectedDoors
      ensures Valid()
      ensures rooms == old(rooms) + [next]
      ensures connectedDoors == old(connectedDoors) + {doorWorld, end}
    {
      var grown := rooms + [next];
      RoomsOkAppend(rooms, next, width, height);
      connectedDoors := connectedDoors + {doorWorld};
      connectedDoors := connectedDoors + {end};
      rooms := grown;
    }

    /**
     * The drawing half of the success branch: the corridor, then the room over
     * it. The ghost cell `keep` is one the caller follows: if it is not
     * NOTHING, not on the corridor and outside the room, it keeps its tile.
     */
    method DrawPassage(c: CorridorResult, next: Room, ghost keep: Point)
      requires forall k :: 0 <= k < |c.floorPath| ==> InArray(world, c.floorPath[k])
      requires InWorld(next, world.Length0, world.Length1)
      modifies this`floorOccupied, world
      ensures floorOccupied == old(floorOccupied) + PathSet(c.floorPath)
      ensures Cells(world) == Drawn(CorridorDrawn(old(Cells(world)), c.floorPath), next)
      ensures (InArray(world, keep) && old(world[keep.x, keep.y]) != NOTHING &&
        keep !in c.floorPath && !next.InBox(keep.x, keep.y)) ==> world[keep.x, keep.y] == old(world[keep.x, keep.y])
    {
      ghost var g := Cells(world);
      DrawCorridor(c);
      DrawRoom(next);
      if InArray(world, keep) && g[keep.x][keep.y] != NOTHING && keep !in c.floorPath && !next.InBox(keep.x, keep.y) {
        DrawnCellKept(world, g, c.floorPath, next, keep);
      }
    }

    /** The success branch of `growFromRoom`'s attempt loop: join, then grow from the new room one level deeper. */
    method Attach(doorWorld: Point, c: CorridorResult, next: Room, depth: int)
      requires Valid()
      requires depth < MAX_EXPANSION_DEPTH
      requires forall k :: 0 <= k < |c.floorPath| ==> InArray(world, c.floorPath[k])
      requires Unblocked(world, c.floorPath)
      requires Attachable(next, c.end)
      modifies this`rooms, this`floorOccupied, this`connectedDoors, world, rand
      ensures Valid()
      ensures |rooms| > |old(rooms)| && rooms[..|old(rooms)|] == old(rooms) && rooms[|old(rooms)|] == next
      ensures old(floorOccupied) <= floorOccupied
      ensures old(connectedDoors) + {doorWorld, c.end} <= connectedDoors
      ensures old(AvatarPlaced()) ==> AvatarPlaced()
      decreases MAX_EXPANSION_DEPTH - depth, 0
    {
      Join(doorWorld, c, next);
      ghost var grown := rooms;
      GrowFromRoom(next, depth + 1);
      GrownPrefix(old(rooms), next, grown, rooms);
    }

    /**
     * One pass of `growFromRoom`'s attempt loop: a random corridor from the
     * door, the templates with a door facing back along its last direction,
     * and a room placed at its end if any fits.
     */
    method TryOnce(doorWorld: Point, dir: Direction, depth: int) returns (connected: bool)
      requires Valid()
      requires depth < MAX_EXPANSION_DEPTH
      modifies this`rooms, this`floorOccupied, this`connectedDoors, world, rand
      ensures Valid()
      ensures |old(rooms)| <= |rooms| && rooms[..|old(rooms)|] == old(rooms)
      ensures old(floorOccupied) <= floorOccupied && old(connectedDoors) <= connectedDoors
      ensures connected ==> JoinedAt(|old(rooms)|, doorWorld)
      ensures !connected ==> rooms == old(rooms) && connectedDoors == old(connectedDoors)
      ensures !connected ==> unchanged(world) && floorOccupied == old(floorOccupied)
      ensures old(AvatarPlaced()) ==> AvatarPlaced()
      decreases MAX_EXPANSION_DEPTH - depth, 1
    {
      var corridor := BuildRandomCorridorFrom(doorWorld, dir);
      if corridor.None? {
        return false;
      }
      var c := corridor.value;
      assert forall k :: 0 <= k < |c.floorPath| ==> InArray(world, c.floorPath[k]) by {
        forall k | 0 <= k < |c.floorPath| ensures InArray(world, c.floorPath[k]) {
          assert CorridorTileOk(c.floorPath[k]);
        }
      }
      assert Unblocked(world, c.floorPath) by {
        forall k | 0 <= k < |c.floorPath| ensures InArray(world, c.floorPath[k]) &&
          !IsBlockingTile(world[c.floorPath[k].x, c.floorPath[k].y]) {
          assert CorridorTileOk(c.floorPath[k]);
        }
      }
      var neededDoorDir := c.lastDir.Opposite();
      if neededDoorDir !in byDirection || |byDirection[neededDoorDir]| == 0 {
        return false;
      }
      var candidates := byDirection[neededDoorDir];
      var nextRoom := TryPlaceRandomRoomAtCorridorEnd(c, candidates, neededDoorDir);
      if nextRoom.None? {
        return false;
      }
      var next := nextRoom.value;
      ghost var k :| 0 <= k < |next.template.doorPositions| &&
        next.ToWorld(next.template.doorPositions[k]) == c.end;
      assert RoomDoors(next)[k] == c.end;
      Attach(doorWorld, c, next, depth);
      return true;
    }

    /** The attempt loop of `growFromRoom` for one door: at most five tries, stopping at the first success. */
    method ConnectDoor(doorWorld: Point, dir: Direction, depth: int) returns (connected: bool, ghost attempts: nat)
      requires Valid()
      requires depth < MAX_EXPANSION_DEPTH
      modifies this`rooms, this`floorOccupied, this`connectedDoors, world, rand
      ensures Valid()
      ensures |old(rooms)| <= |rooms| && rooms[..|old(rooms)|] == old(rooms)
      ensures old(floorOccupied) <= floorOccupied && old(connectedDoors) <= connectedDoors
      ensures 1 <= attempts <= MAX_TRIES_PER_DOOR
      ensures connected ==> JoinedAt(|old(rooms)|, doorWorld)
      ensures !connected ==> rooms == old(rooms) && connectedDoors == old(connectedDoors)
      ensures !connected ==> unchanged(world) && floorOccupied == old(floorOccupied)
      ensures old(AvatarPlaced()) ==> AvatarPlaced()
      decreases MAX_EXPANSION_DEPTH - depth, 2
    {
      var attempt := 0;
      connected := false;
      while attempt < MAX_TRIES_PER_DOOR && !connected
        invariant 0 <= attempt <= MAX_TRIES_PER_DOOR
        invariant Valid()
        invariant |old(rooms)| <= |rooms| && rooms[..|old(rooms)|] == old(rooms)
        invariant old(floorOccupied) <= floorOccupied && old(connectedDoors) <= connectedDoors
        invariant connected ==> JoinedAt(|old(rooms)|, doorWorld)
        invariant !connected ==> rooms == old(rooms) && connectedDoors == old(connectedDoors)
        invariant !connected ==> unchanged(world) && floorOccupied == old(floorOccupied)
        invariant attempt == 0 ==> !connected
        invariant old(AvatarPlaced()) ==> AvatarPlaced()
      {
        connected := TryOnce(doorWorld, dir, depth);
        attempt := attempt + 1;
      }
      attempts := attempt;
    }

    /** `growFromRoom(room, depth)`: stops at depth 99, otherwise tries every door of the room in order. */
    method GrowFromRoom(room: Room, depth: int)
      requires Valid()
      requires InWorld(room, width, height)
      modifies this`rooms, this`floorOccupied, this`connectedDoors, world, rand
      ensures Valid()
      ensures |old(rooms)| <= |rooms| && rooms[..|old(rooms)|] == old(rooms)
      ensures old(floorOccupied) <= floorOccupied && old(connectedDoors) <= connectedDoors
      ensures depth >= MAX_EXPANSION_DEPTH ==>
        rooms == old(rooms) && floorOccupied == old(floorOccupied) &&
        connectedDoors == old(connectedDoors) && unchanged(world) && rand.drawn == old(rand.drawn)
      ensures old(AvatarPlaced()) ==> AvatarPlaced()
      decreases MAX_EXPANSION_DEPTH - depth, 3
    {
      if depth >= MAX_EXPANSION_DEPTH {
        return;
      }
      var doorWorlds := GetWorldDoorPositions(room);
      var i := 0;
      while i < |doorWorlds|
        invariant 0 <= i <= |doorWorlds|
        invariant Valid()
        invariant |old(rooms)| <= |rooms| && rooms[..|old(rooms)|] == old(rooms)
        invariant old(floorOccupied) <= floorOccupied && old(connectedDoors) <= connectedDoors
        invariant old(AvatarPlaced()) ==> AvatarPlaced()
      {
        var doorWorld := doorWorlds[i];
        assert doorWorlds[i] == RoomDoors(room)[i];
        DirectionForWorldDoor(room, i);
        var dir := DirectionForDoor(room, doorWorld);
        ghost var before := rooms;
        var connected, attempts := ConnectDoor(doorWorld, dir.value, depth);
        assert rooms[..|old(rooms)|] == before[..|before|][..|old(rooms)|];
        i := i + 1;
      }
    }

    /**
     * The first half of `generate()`: the starting room is placed, recorded
     * and drawn, and the avatar is put at its centre.
     */
    method PlaceStart() returns (start: Room)
      requires Valid()
      requires rooms == []
      requires InWorld(StartPlacement(templates[0], width, height), width, height)
      modifies this`rooms, this`floorOccupied, world
      ensures Valid()
      ensures start == StartPlacement(templates[0], width, height) && rooms == [start]
      ensures InWorld(start, width, height)
      ensures forall p :: p in floorOccupied <==> p in old(floorOccupied) || FloorCell(start, p)
      ensures Cells(world) == SetCell(Drawn(old(Cells(world)), start), Centre(start).x, Centre(start).y, AVATAR)
      ensures AvatarPlaced()
    {
      start := PlaceStartingRoom();
      RoomsOkAppend(rooms, start, width, height);
      rooms := rooms + [start];
      DrawStart(start);
    }

    /** The drawing in `generate()`: the starting room, then the avatar at its centre. */
    method DrawStart(start: Room)
      requires InWorld(start, world.Length0, world.Length1)
      modifies world
      ensures Cells(world) == SetCell(Drawn(old(Cells(world)), start), Centre(start).x, Centre(start).y, AVATAR)
      ensures InArray(world, Centre(start)) && world[Centre(start).x, Centre(start).y] == AVATAR
    {
      DrawRoom(start);
      var avatarX := start.worldX + start.template.width / 2;
      var avatarY := start.worldY + start.template.height / 2;
      CentreInBox(start);
      PutAvatar(Point(avatarX, avatarY));
    }

    /** The avatar's single write in `generate()`. */
    method PutAvatar(p: Point)
      requires InArray(world, p)
      modifies world
      ensures Cells(world) == SetCell(old(Cells(world)), p.x, p.y, AVATAR)
      ensures world[p.x, p.y] == AVATAR
    {
      ghost var g := Cells(world);
      world[p.x, p.y] := AVATAR;
      GridExt(Cells(world), SetCell(g, p.x, p.y, AVATAR));
    }

    /**
     * `generate()`: place the starting room, put the avatar at its centre,
     * grow the dungeon from it and settle every door. Runs on a freshly
     * constructed generator.
     */
    method Generate() returns (result: array2<Tile>)
      requires Valid()
      requires rooms == [] && floorOccupied == {} && connectedDoors == {}
      requires InWorld(StartPlacement(templates[0], width, height), width, height)
      modifies this`rooms, this`floorOccupied, this`connectedDoors, world, rand
      ensures result == world
      ensures Valid()
      ensures |rooms| >= 1 && rooms[0] == StartPlacement(templates[0], width, height)
      ensures forall x, y :: 0 <= x < width && 0 <= y < height && Point(x, y) in DoorsOf(rooms) ==>
        world[x, y] == DoorState(Point(x, y), connectedDoors)
      ensures CentreFree(templates[0]) ==>
        var a := Centre(StartPlacement(templates[0], width, height));
        InArray(result, a) && result[a.x, a.y] == AVATAR
    {
      var start := PlaceStart();
      GrowAndSettle(start);
      result := world;
    }

    /**
     * The rest of `generate()`: grow the dungeon from the starting room, then
     * settle every door. The avatar survives when the room's centre is not a door.
     */
    method GrowAndSettle(start: Room)
      requires Valid() && rooms == [start] && InWorld(start, width, height) && AvatarPlaced()
      modifies this`rooms, this`floorOccupied, this`connectedDoors, world, rand
      ensures Valid()
      ensures |rooms| >= 1 && rooms[0] == start
      ensures forall x, y :: 0 <= x < width && 0 <= y < height && Point(x, y) in DoorsOf(rooms) ==>
        world[x, y] == DoorState(Point(x, y), connectedDoors)
      ensures CentreFree(start.template) ==>
        InArray(world, Centre(start)) && world[Centre(start).x, Centre(start).y] == AVATAR
    {
      GrowFromRoom(start, 0);
      assert rooms[0] == start by { assert rooms[..1] == [start]; }
      if CentreFree(start.template) {
        CentreNotADoor(rooms, width, height);
      }
      UpdateDoorTiles();
    }
  }
}
