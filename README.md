# Chaser dungeon: the generator and the chase, in Dafny

The game builds a tile dungeon from a seed. It places a starting room at the
centre of a `W × H` grid. From each door it digs random corridors and attaches
rooms from a catalog of twenty templates whose doors face the corridor. When
growth stops, every door becomes an unlocked or a locked door. The player then
walks the grid, opening chests and doors. A chaser follows the player along
shortest paths, found by breadth-first search, and the player can push it away
while charges last. The state can be written to a text file and read back.

The model covers these parts:

- **Tiles, points and grids** (`tiles.dfy`, `directions.dfy`): one datatype
  constructor per tile kind, `java.awt.Point` as a value, and the four
  directions. A Java `TETile[][]` becomes an `array2<Tile>` read as a
  column-major value `Cells(a)`.
- **Templates** (`blueprints.dfy`, `painting.dfy`, `catalog.dfy`): the
  blueprint record and the painting helpers. Each painting helper is an
  in-place loop proved equal to a function on the grid value. Each of the
  twenty template constructors is written as data: its size, its paint steps,
  its doors and its tags. `BY_DIRECTION` is an index built from the catalog.
- **Rooms** (`rooms.dfy`): the box geometry and `drawInto`, which composites a
  template onto the world.
- **The generator** (`generation.dfy`, `random_source.dfy`): the
  `WorldGenerator` class, with its grid, room list, floor set and
  connected-door set. Randomness is a stream of draws, so a generated world is
  a function of that stream.
- **Path search** (`pathfinding.dfy`): the breadth-first search, proved
  against an independent definition of reachability in `k` steps.
- **Pursuit** (`entities.dfy`, `pursuit.dfy`): the player and chaser records,
  the moves, the push ability, interaction and the catch test.
- **Saving** (`text.dfy`, `save_load.dfy`): the text format, the pieces of
  `String.split`, `Integer.toString` and `Integer.parseInt` it relies on,
  `decode`, and the save-then-load round trip.

Glyphs of the tile kinds are defined in `Tileset`, which is not part of this
model. Every member that needs them takes a glyph table `glyph: Tile -> char`
as a parameter.

## Model

| member | source | states |
|---|---|---|
| Directions.Direction.Opposite | proj5/src/core/Direction.java:21-34 | the opposite direction has negated deltas and differs from the direction |
| Directions.OppositeInvolution | proj5/src/core/Direction.java:21-34 | the opposite of the opposite is the direction itself |
| Directions.UnitStep | proj5/src/core/Direction.java:3-15 | every direction moves exactly one cell: `Abs(dx) + Abs(dy) == 1` |
| Directions.Classification | proj5/src/core/Direction.java:36-42 | exactly one of vertical and horizontal holds; vertical iff `dx == 0`, horizontal iff `dy == 0` |
| Directions.OppositeKeepsAxis | proj5/src/core/Direction.java:21-42 | the opposite direction lies on the same axis |
| Directions.DeltasDetermine | proj5/src/core/Direction.java:3-15 | two directions with the same deltas are equal |
| Directions.Step | proj5/src/core/WorldGenerator.java:247-249 | one step lands on a 4-neighbour of the cell |
| Directions.StepBack | proj5/src/core/WorldGenerator.java:247-249 | a step followed by a step the opposite way returns to the start |
| Directions.AdjacentIsStep | proj5/src/core/Pathfinder.java:48-50 | the 4-neighbours of a cell are exactly its four single steps |
| Blueprints.RoomTemplate.TileAt | proj5/src/core/RoomTemplate.java:47-49 | an in-range read returns the layout cell at column `x`, row `y`; the generator's room-cell reads (`LayoutAt`, `FloorCell`, `SolidCell`) go through it |
| Blueprints.RoomTemplate.DoorSide | proj5/src/core/WorldGenerator.java:403-421 | a door gets a side iff it lies on the template's outer rectangle; UP iff in the top row; DOWN iff in the bottom row but not the top; the side points out of the box |
| Painting.Blank | proj5/src/core/WorldGenerator.java:58-65 | the fresh grid is `w × h` and every cell is NOTHING |
| Painting.FillLayout | proj5/src/core/RoomTemplates.java:913-921 | `fill` leaves the array equal to `FillAll` of its old contents |
| Painting.FillRectangle | proj5/src/core/RoomTemplates.java:933-943 | `fillRect` writes exactly the cells of the rectangle clipped to the array, and no others |
| Painting.FillRectIdempotent | proj5/src/core/RoomTemplates.java:933-943 | filling the same rectangle twice is the same as once |
| Painting.FillRingShape | proj5/src/core/RoomTemplates.java:956-971 | `fillRing` writes exactly the cells whose Chebyshev distance from the centre is in `(inner, outer]` |
| Painting.EmptyRing | proj5/src/core/RoomTemplates.java:956-971 | a ring with `outer <= inner` changes nothing |
| Painting.FillCircleShape | proj5/src/core/RoomTemplates.java:973-990 | `fillCircle` writes exactly the cells with `dx² + dy² <= r²` |
| Painting.NegativeCircle | proj5/src/core/RoomTemplates.java:973-990 | a negative radius changes nothing |
| Painting.AddWallsAroundFloor | proj5/src/core/RoomTemplates.java:999-1018 | the array equals `WallsAroundFloor` of its old contents: a NOTHING cell next to a floor cell becomes WALL, every other cell is unchanged |
| Painting.WallsEnclose | proj5/src/core/RoomTemplates.java:999-1018 | after walling, a floor cell keeps its tile and none of its in-range neighbours is NOTHING |
| Painting.WallOffNeighbours | proj5/src/core/RoomTemplates.java:1006-1014 | the NOTHING cells among the four neighbours of `(x, y)` become WALL; all other cells are unchanged |
| Painting.ScanComplete | proj5/src/core/RoomTemplates.java:999-1018 | a finished scan has walled exactly the NOTHING neighbours of the floor cells of the old grid |
| Painting.AddBoundaryWalls | proj5/src/core/RoomTemplates.java:1020-1035 | border cells become WALL and the interior is unchanged |
| Painting.DrawLockedDoors | proj5/src/core/RoomTemplates.java:1037-1041 | exactly the listed cells become LOCKED_DOOR |
| Painting.DoorsLocked | proj5/src/core/RoomTemplates.java:1037-1041 | every listed in-range door cell holds LOCKED_DOOR afterwards |
| Painting.Paint | proj5/src/core/RoomTemplates.java:913-1041 | one paint step on the array equals the step applied to its old contents |
| Painting.PaintAll | proj5/src/core/RoomTemplates.java:120-140 | a constructor's paint steps, run in order, equal the steps applied to the old contents |
| Painting.ApplyAllShape | proj5/src/core/RoomTemplates.java:913-1041 | painting keeps the layout's `w × h` shape |
| Painting.ApplyAllAbsent | proj5/src/core/RoomTemplates.java:913-1041 | a tile no step writes (other than WALL and LOCKED_DOOR) stays absent from the layout |
| Catalog.StartingRoom | proj5/src/core/RoomTemplates.java:120-140 | positive size, every door on the boundary, every paint step in range and free of entity tiles |
| Catalog.SmallSquareRoom | proj5/src/core/RoomTemplates.java:149-175 | as for the starting room |
| Catalog.BigSquareRoom | proj5/src/core/RoomTemplates.java:183-215 | as for the starting room |
| Catalog.SmallHorizontalRoom | proj5/src/core/RoomTemplates.java:222-247 | as for the starting room |
| Catalog.BigHorizontalRoom | proj5/src/core/RoomTemplates.java:255-285 | as for the starting room |
| Catalog.SmallVerticalRoom | proj5/src/core/RoomTemplates.java:292-318 | as for the starting room |
| Catalog.BigVerticalRoom | proj5/src/core/RoomTemplates.java:325-356 | as for the starting room |
| Catalog.SmallLRoom | proj5/src/core/RoomTemplates.java:369-400 | as for the starting room |
| Catalog.BigLRoom | proj5/src/core/RoomTemplates.java:419-456 | as for the starting room |
| Catalog.SmallLRoomMirroredH | proj5/src/core/RoomTemplates.java:464-494 | as for the starting room |
| Catalog.SmallLRoomMirroredV | proj5/src/core/RoomTemplates.java:502-533 | as for the starting room |
| Catalog.SmallLRoomRotated180 | proj5/src/core/RoomTemplates.java:541-572 | as for the starting room |
| Catalog.BigLRoomMirroredH | proj5/src/core/RoomTemplates.java:580-613 | as for the starting room |
| Catalog.BigLRoomMirroredV | proj5/src/core/RoomTemplates.java:621-653 | as for the starting room |
| Catalog.BigLRoomRotated180 | proj5/src/core/RoomTemplates.java:661-697 | as for the starting room |
| Catalog.SmallSquareRingRoom | proj5/src/core/RoomTemplates.java:706-734 | as for the starting room |
| Catalog.BigSquareRingRoom | proj5/src/core/RoomTemplates.java:740-773 | as for the starting room |
| Catalog.SmallTRoom | proj5/src/core/RoomTemplates.java:783-817 | as for the starting room |
| Catalog.MediumRoundTreasureRoom | proj5/src/core/RoomTemplates.java:824-858 | as for the starting room |
| Catalog.LargeRoundTreasureRoom | proj5/src/core/RoomTemplates.java:866-902 | as for the starting room |
| Catalog.AllTemplates | proj5/src/core/RoomTemplates.java:27-78 | the catalog holds twenty templates, the `i`-th being the `i`-th constructor's result |
| Catalog.MakeTemplate | proj5/src/core/RoomTemplates.java:120-140 | running a constructor's steps on a fresh NOTHING array and then locking its doors gives exactly the template `Realize` describes |
| Catalog.BuildTemplates | proj5/src/core/RoomTemplates.java:27-78 | building the list calls each constructor in order |
| Catalog.InitTemplates | proj5/src/core/RoomTemplates.java:27-78 | the list the static block builds is `AllTemplates()` |
| Catalog.SpecsOk | proj5/src/core/RoomTemplates.java:27-78 | every constructor in the catalog meets the constructor invariant |
| Catalog.RealizeWellFormed | proj5/src/core/RoomTemplates.java:913-1041 | a template built from valid steps has a layout of its declared size, doors on the boundary, and no AVATAR or CHASER cell |
| Catalog.CatalogWellFormed | proj5/src/core/RoomTemplates.java:27-78 | every catalog template is well formed and free of entity tiles |
| Catalog.RealizeKeepsFields | proj5/src/core/RoomTemplate.java:32-45 | the constructor stores size, doors in the given order, directions and types exactly as passed |
| Catalog.StartingRoomFirst | proj5/src/core/RoomTemplates.java:120-140 | template 0 is typed STARTING and no other template is |
| Catalog.ByDirectionMembers | proj5/src/core/RoomTemplates.java:80-98 | a template is listed under `d` iff it is in the catalog, is not STARTING and declares `d` |
| Catalog.ByDirectionAppend | proj5/src/core/RoomTemplates.java:80-98 | the per-direction lists keep catalog order |
| Catalog.AddToIndex | proj5/src/core/RoomTemplates.java:90-97 | adding a template appends it to exactly the lists of the directions it declares |
| Catalog.BuildIndex | proj5/src/core/RoomTemplates.java:80-98 | the built index has a list for each direction, equal to `ByDirection` of the templates |
| Catalog.MirroredBigLNotUnderUp | proj5/src/core/RoomTemplates.java:621-653 | template 13 has a door at `(3, 11)` on its top row, yet it is not listed under UP |
| Rooms.FitsIffCellsInside | proj5/src/core/Room.java:88-93 | a room fits iff every one of its cells lies in `[1, W-1) × [1, H-1)`; `maxX`/`maxY` are exclusive |
| Rooms.OverlapsIffSharedCell | proj5/src/core/Room.java:101-106 | two rooms overlap iff they share a cell; overlap is symmetric; boxes that only touch do not overlap |
| Rooms.OverlapsAny | proj5/src/core/Room.java:114-121 | true iff some listed room overlaps |
| Rooms.GetWorldDoorPositions | proj5/src/core/Room.java:66-77 | the template's doors, same count and order, each moved by the room's origin |
| Rooms.WorldDoorsOnRoomBorder | proj5/src/core/Room.java:66-77 | each world door of a well-formed room lies on the room's border, and inside the world's margin when the room fits |
| Rooms.CompositePrecedence | proj5/src/core/Room.java:141-165 | a non-NOTHING template cell replaces NOTHING or WALL, a door replaces FLOOR, and otherwise the world cell is kept |
| Rooms.Drawn | proj5/src/core/Room.java:133-155 | cells outside the room's box are unchanged; each cell inside is the composite of world and template cells |
| Rooms.DrawnChanges | proj5/src/core/Room.java:133-165 | a cell that changes lies in the box and takes a non-NOTHING template tile over NOTHING, WALL, or FLOOR (for a door) |
| Rooms.DrawInto | proj5/src/core/Room.java:133-155 | the array afterwards equals `Drawn` of its old contents |
| Randomness.RandomSource.Uniform | proj5/src/core/WorldGenerator.java:193 | a draw is in `[0, n)` and is the next stream value modulo `n` |
| Randomness.RandomSource.UniformRange | proj5/src/core/WorldGenerator.java:280-287 | a draw is in `[a, b)` and consumes one stream value |
| Randomness.RandomSource.Shuffle | proj5/src/core/WorldGenerator.java:334-341 | the shuffled array is a permutation of the old one, one draw per element |
| Generation.JavaDiv | proj5/src/core/WorldGenerator.java:104-106 | Java's `/` truncates toward zero: the remainder `a - b*q` lies in `[0, b)` for a non-negative dividend and in `(-b, 0]` for a negative one, and the quotient has the dividend's sign |
| Generation.WalkableVersusBlocking | proj5/src/core/WorldGenerator.java:481-505 | the generator's walkable and blocking tests both hold only for UNLOCKED_DOOR and both fail only for NOTHING |
| Generation.TurnCandidates | proj5/src/core/WorldGenerator.java:263-278 | two distinct candidates, exactly the directions on the other axis |
| Generation.RemoveFirst | proj5/src/core/WorldGenerator.java:229-231 | removing a direction takes out one occurrence and leaves a list without it unchanged |
| Generation.Line | proj5/src/core/WorldGenerator.java:204-223 | `n` tiles, the `i`-th being `i + 1` steps from the start |
| Generation.WalkConnected | proj5/src/core/WorldGenerator.java:201-237 | a corridor starts next to its door and each tile is next to the one before |
| Generation.WalkLength | proj5/src/core/WorldGenerator.java:201-237 | `n` segments of 3 to 5 tiles make between `3n` and `5n` tiles |
| Generation.SegmentStep | proj5/src/core/WorldGenerator.java:201-236 | one more segment of 3 to 5 tiles followed by a perpendicular turn keeps the corridor's shape invariant |
| Generation.ProgressDone | proj5/src/core/WorldGenerator.java:237-244 | after the last segment the corridor has the full shape and at least 3 tiles |
| Generation.CorridorTile | proj5/src/core/WorldGenerator.java:303-317 | the path cell becomes FLOOR, its NOTHING neighbours become WALL, every other cell is unchanged |
| Generation.CorridorDrawnCells | proj5/src/core/WorldGenerator.java:302-319 | after drawing a corridor, path cells are FLOOR, NOTHING cells next to the path are WALL, others are unchanged |
| Generation.RoomDoors | proj5/src/core/Room.java:66-77 | a room's world doors, in template order |
| Generation.DoorsOfInWorld | proj5/src/core/WorldGenerator.java:529-540 | every door of a room inside the array is a cell of the array |
| Generation.StartPlacementCentred | proj5/src/core/WorldGenerator.java:101-110 | the starting room is centred, to within one cell, in the area below the HUD band |
| Generation.RoomsOkAppend | proj5/src/core/WorldGenerator.java:374-381 | adding a room that fits and overlaps none keeps the rooms pairwise disjoint |
| Generation.DirectionForWorldDoor | proj5/src/core/WorldGenerator.java:161-179 | `directionForDoor` on a world door agrees with `directionForLocalDoor` on its local position, and never throws for a well-formed room |
| Generation.CatalogIsOk | proj5/src/core/RoomTemplates.java:80-98 | the shipped catalog and its index meet what the generator assumes |
| Generation.FacingMembers | proj5/src/core/WorldGenerator.java:351-357 | a door is in the filtered list iff it is one of the template's doors and faces the needed direction, and the list is no longer than the doors |
| Generation.CentreInBox | proj5/src/core/WorldGenerator.java:86-87 | the avatar cell, at half width and half height, lies inside the room's box |
| Generation.StartingRoomCentreFree | proj5/src/core/RoomTemplates.java:120-140 | the starting template's centre `(2, 2)` is not one of its doors |
| Generation.CentreNotADoor | proj5/src/core/WorldGenerator.java:85-93 | when the first room's centre is not a local door, it is no world door of any placed room, so `updateDoorTiles` leaves the avatar alone |
| Generation.PassageKeeps | proj5/src/core/WorldGenerator.java:147-149 | drawing a corridor and then a room keeps a non-NOTHING cell that is off the path and outside the room's box |
| Generation.PassageAvoidsCentre | proj5/src/core/WorldGenerator.java:127-149 | a corridor through non-blocking cells misses the avatar's cell, and a room that overlaps no placed room does not cover the first room's centre |
| Generation.DrawnCellKept | proj5/src/core/WorldGenerator.java:147-149 | the array form of `PassageKeeps`: the kept cell is in the array and holds its old tile |
| Generation.WorldGenerator.constructor | proj5/src/core/WorldGenerator.java:50-65 | the generator starts valid, with no rooms, empty sets and an all-NOTHING world |
| Generation.WorldGenerator.RegisterRoomFloors | proj5/src/core/WorldGenerator.java:507-516 | `floorOccupied` gains exactly the room's walkable cells |
| Generation.WorldGenerator.RoomFloorsDisjoint | proj5/src/core/WorldGenerator.java:423-436 | true iff none of the room's walkable cells is already floor |
| Generation.WorldGenerator.SolidInPlacedRoom | proj5/src/core/WorldGenerator.java:456-467 | true iff some placed room has a non-NOTHING cell there |
| Generation.WorldGenerator.RoomTilesDisjoint | proj5/src/core/WorldGenerator.java:443-479 | true iff no non-NOTHING cell of the room meets a placed room's non-NOTHING cell or a non-NOTHING world cell |
| Generation.WorldGenerator.PlaceStartingRoom | proj5/src/core/WorldGenerator.java:101-110 | the room is template 0 at the centred origin, and its floor is registered |
| Generation.WorldGenerator.DrawCorridorTile | proj5/src/core/WorldGenerator.java:303-317 | one path tile is drawn as `CorridorTile` says and added to `floorOccupied` |
| Generation.WorldGenerator.DrawCorridor | proj5/src/core/WorldGenerator.java:302-319 | the world becomes `CorridorDrawn` of the old world and every path tile joins `floorOccupied` |
| Generation.WorldGenerator.DrawRoom | proj5/src/core/WorldGenerator.java:518-522 | the world becomes `Drawn` of the old world |
| Generation.WorldGenerator.UpdateRoomDoors | proj5/src/core/WorldGenerator.java:531-538 | each door of the room becomes UNLOCKED_DOOR if connected and LOCKED_DOOR otherwise; other cells are unchanged |
| Generation.WorldGenerator.UpdateDoorTiles | proj5/src/core/WorldGenerator.java:529-540 | every door of every placed room becomes UNLOCKED_DOOR if connected and LOCKED_DOOR otherwise; other cells are unchanged |
| Generation.WorldGenerator.RandomInRange | proj5/src/core/WorldGenerator.java:280-287 | the draw is in `[lo, hiInclusive]` |
| Generation.WorldGenerator.RandomChoice | proj5/src/core/WorldGenerator.java:289-295 | the choice is an element of the list |
| Generation.WorldGenerator.WalkSegment | proj5/src/core/WorldGenerator.java:204-223 | a segment that succeeds is the straight line of `len` tiles, each inside the floor bounds, not yet floor and not blocking |
| Generation.WorldGenerator.ChooseTurn | proj5/src/core/WorldGenerator.java:226-235 | a turn is perpendicular, and before the last segment never the opposite of the initial direction |
| Generation.WorldGenerator.CorridorSegment | proj5/src/core/WorldGenerator.java:201-236 | one iteration of the segment loop keeps the corridor's shape and tile invariants |
| Generation.WorldGenerator.BuildRandomCorridorFrom | proj5/src/core/WorldGenerator.java:192-245 | a returned corridor is 1 to 4 perpendicular segments of 3 to 5 tiles, the last direction is not opposite the first, `end` is the last tile, and every tile is usable |
| Generation.WorldGenerator.MatchingDoors | proj5/src/core/WorldGenerator.java:351-357 | the template's doors that face the needed direction, in their declared order (`Facing`); a door is in the list iff it faces that way |
| Generation.WorldGenerator.TryTemplate | proj5/src/core/WorldGenerator.java:346-392 | a placement returned for one template passes every placement test |
| Generation.WorldGenerator.TryPlaceRandomRoomAtCorridorEnd | proj5/src/core/WorldGenerator.java:330-398 | a returned room is a candidate with a door facing the needed side on the corridor end, fits, overlaps no room and no occupied cell; `floorOccupied` grows only on success |
| Generation.WorldGenerator.Join | proj5/src/core/WorldGenerator.java:143-149 | the room is appended, the path joins the floor set, both doors become connected, the world is the old one with the corridor and then the room drawn, and an avatar at the first room's centre stays |
| Generation.WorldGenerator.DrawPassage | proj5/src/core/WorldGenerator.java:147-149 | the world gets the corridor and then the room drawn onto it; a drawn cell off the path and outside the room's box keeps its tile |
| Generation.WorldGenerator.Attach | proj5/src/core/WorldGenerator.java:143-151 | the new room follows the old rooms, both doors are connected, and an avatar at the first room's centre stays |
| Generation.WorldGenerator.TryOnce | proj5/src/core/WorldGenerator.java:127-151 | a successful attempt joins the door to a new room; a failed one adds no room, connects no door, leaves the world and `floorOccupied` unchanged and only draws from the random source; either way an avatar at the first room's centre stays |
| Generation.WorldGenerator.ConnectDoor | proj5/src/core/WorldGenerator.java:126-152 | at most five attempts; on success the door is joined to a new room, otherwise rooms, connections, the world and `floorOccupied` are unchanged; an avatar at the first room's centre stays |
| Generation.WorldGenerator.GrowFromRoom | proj5/src/core/WorldGenerator.java:117-154 | growth only adds rooms and connections, and an avatar at the first room's centre stays; at depth 99 or more nothing changes |
| Generation.WorldGenerator.PlaceStart | proj5/src/core/WorldGenerator.java:81-88 | the starting room is the only room, its floor joins the floor set, and the world is the old one with the room drawn and AVATAR written at the room's centre |
| Generation.WorldGenerator.DrawStart | proj5/src/core/WorldGenerator.java:83-88 | the world is the old one with the room drawn and then AVATAR at the room's centre |
| Generation.WorldGenerator.PutAvatar | proj5/src/core/WorldGenerator.java:86-88 | exactly one cell changes, to AVATAR |
| Generation.WorldGenerator.Generate | proj5/src/core/WorldGenerator.java:80-96 | the first room is the centred starting room, the rooms are pairwise disjoint and fit, every door cell is UNLOCKED_DOOR if connected and LOCKED_DOOR otherwise, and when the start template's centre is not a door the returned world holds AVATAR at the start room's centre |
| Generation.WorldGenerator.GrowAndSettle | proj5/src/core/WorldGenerator.java:90-93 | after growing from the starting room and settling the doors, the starting room is still first, the rooms stay disjoint, every door cell shows its state, and the avatar survives when the room's centre is not a door |
| Generation.WorldGenerator.Record | proj5/src/core/WorldGenerator.java:143-148 | the room is appended and both doors become connected, keeping the rooms pairwise disjoint |
| Pathfinding.TraversableKinds | proj5/src/core/Pathfinder.java:110-129 | the search refuses exactly fourteen terrain kinds; both entity markers are traversable |
| Pathfinding.WalkReach | proj5/src/core/Pathfinder.java:44-83 | the end of a walk of length `k` is reachable in `k` steps |
| Pathfinding.ReachWalk | proj5/src/core/Pathfinder.java:44-83 | a cell reachable in `k` steps is the end of a walk of at most `k` cells |
| Pathfinding.WalkStaysIn | proj5/src/core/Pathfinder.java:44-83 | a walk from a closed visited set never leaves it |
| Pathfinding.NoWalk | proj5/src/core/Pathfinder.java:85-86 | no walk from the start reaches a target outside a visited set closed under passable neighbours |
| Pathfinding.Shortest | proj5/src/core/Pathfinder.java:44-83 | every walk to a target not reachable within `level` steps is longer than `level` |
| Pathfinding.LevelUp | proj5/src/core/Pathfinder.java:44-83 | when the queue moves to the next level, every cell reachable in that many steps is already visited |
| Pathfinding.Visit | proj5/src/core/Pathfinder.java:49-81 | checking one neighbour keeps the search invariant and leaves that neighbour visited unless it is out of bounds or not traversable; discovering the target is reported |
| Pathfinding.VisitAll | proj5/src/core/Pathfinder.java:48-82 | expanding a cell over the four directions keeps the search invariant |
| Pathfinding.Expand | proj5/src/core/Pathfinder.java:44-83 | one iteration of the main loop keeps the search invariant, or reports that the target was discovered; the unvisited cells shrink or nothing changes |
| Pathfinding.ReconstructPath | proj5/src/core/Pathfinder.java:92-103 | following parents gives a walk of `dist[target]` cells from start that ends at the target and leaves out the start |
| Pathfinding.Answer | proj5/src/core/Pathfinder.java:79-81 | a discovered target gives a non-empty shortest walk from the start that leaves out the start |
| Pathfinding.Exhausted | proj5/src/core/Pathfinder.java:85-86 | when the queue runs out under the search invariant, the target is unreachable |
| Pathfinding.Initial | proj5/src/core/Pathfinder.java:34-42 | the first queue, visited set and parent map meet the search invariant |
| Pathfinding.FindPath | proj5/src/core/Pathfinder.java:19-87 | an out-of-bounds endpoint or `start == target` gives an empty path; a non-empty path is a shortest walk to the target without the start; an empty path for distinct in-bounds endpoints means the target is unreachable |
| Pathfinding.WalkEndPassable | proj5/src/core/Pathfinder.java:53-71 | every cell of a walk is in bounds and traversable, its end included |
| Pathfinding.BlockedTarget | proj5/src/core/Pathfinder.java:66-71 | no walk ends on a target the search cannot stand on |
| Entities.Player.constructor | proj5/src/core/Player.java:9-12 | a new player is at `(x, y)`, faces UP, was last at `(x, y)`, covers FLOOR and has one charge |
| Entities.Player.FrontTile | proj5/src/core/Player.java:14-16 | the front cell is next to the player, and stepping back from it the opposite way returns to the player |
| Entities.Chaser.constructor | proj5/src/core/Chaser.java:16-23 | a new chaser is at `(x, y)`, was last there, has no path and covers FLOOR |
| Pursuit.WalkableKinds | proj5/src/core/World.java:780-799 | the player's walkable test refuses exactly fifteen kinds, accepts CHASER, and agrees with the search's test |
| Pursuit.Put | proj5/src/core/World.java:657 | a grid with one cell replaced and all others kept |
| Pursuit.SetCell | proj5/src/core/World.java:657 | writing one array cell is `Put` on its contents |
| Pursuit.MovePlayer | proj5/src/core/World.java:625-665 | the player always turns; it moves iff the target is in bounds and walkable; a move restores the old cell, records the covered tile and writes AVATAR; a refused move changes nothing else |
| Pursuit.MoveThereAndBack | proj5/src/core/World.java:625-665 | moving one way and back restores the grid exactly |
| Pursuit.Relocate | proj5/src/core/World.java:700-717 | the chaser moves to the target, restores its old cell, records the new cell's tile and writes CHASER there unless the player is on it |
| Pursuit.MoveChaser | proj5/src/core/World.java:677-727 | the chaser steps to the first cell of a shortest walk to the player's previous position, with the cell updates of `Relocate`; if there is none it stays, and then the target is unreachable or trivial |
| Pursuit.Marked | proj5/src/core/World.java:713-717 | CHASER is written unless the chaser lands on the player |
| Pursuit.StepCloser | proj5/src/core/World.java:677-727 | the rest of a shortest walk is a shortest walk from its first cell |
| Pursuit.PushDirection | proj5/src/core/World.java:862-879 | horizontal iff `Abs(dx) >= Abs(dy)`, and always pointing away from the player |
| Pursuit.PushDistance | proj5/src/core/World.java:881-905 | the largest `i <= 3` such that the steps `1..i` are in bounds and traversable |
| Pursuit.MaxClearUnique | proj5/src/core/World.java:881-905 | that largest distance is unique |
| Pursuit.PushAway | proj5/src/core/World.java:862-879 | pushing never lands the chaser on the player |
| Pursuit.PushChaser | proj5/src/core/World.java:846-943 | out of range, no charge, or the same cell: nothing happens; otherwise a distance of 0 changes nothing, and a positive one spends one charge and moves the chaser that far, restoring its old cell |
| Pursuit.Interact | proj5/src/core/World.java:805-838 | a TREASURE in front becomes OPENED_CHEST and adds a charge; a LOCKED_DOOR becomes UNLOCKED_DOOR; anything else, or an out-of-bounds front, changes nothing |
| Pursuit.ChaseRound | proj5/src/core/World.java:479-516 | caught iff the two share a cell before or after the chaser moves, or swapped cells; the display path is always set; when the player did not move, or already stands on the chaser, nothing else changes; otherwise the chaser takes `MoveChaser`'s step along a shortest walk to the player's previous cell, with the grid updated as `Relocate` does, or stays put with the grid unchanged when no walk exists |
| SaveLoad.IndexTried | proj5/src/core/SaveLoad.java:113-154 | every kind but OPENED_CHEST has a place in `decode`'s test order |
| SaveLoad.Decode | proj5/src/core/SaveLoad.java:113-154 | `decode` returns a kind with that glyph, or NOTHING; never OPENED_CHEST |
| SaveLoad.DecodeGlyph | proj5/src/core/SaveLoad.java:113-154 | with distinct glyphs, decoding a kind's glyph gives the kind back iff the kind is not OPENED_CHEST, which decodes to NOTHING |
| SaveLoad.DecodeUnknown | proj5/src/core/SaveLoad.java:152-153 | an unknown glyph decodes to NOTHING |
| SaveLoad.CellShadowed | proj5/src/core/SaveLoad.java:136-139 | when CELL and LOCKED_DOOR share a glyph, no character decodes to CELL |
| SaveLoad.ParseDirectionName | proj5/src/core/SaveLoad.java:63 | `Direction.valueOf(s)` succeeds with `d` iff `s` is `d`'s name |
| SaveLoad.HeaderFields | proj5/src/core/SaveLoad.java:22-35 | five header fields, or eight with a chaser |
| SaveLoad.Row | proj5/src/core/SaveLoad.java:40-45 | body line `y` holds the glyphs of `world[0][y] .. world[W-1][y]` |
| SaveLoad.Rows | proj5/src/core/SaveLoad.java:37-46 | `height` body lines, in ascending `y` |
| SaveLoad.DecodeGrid | proj5/src/core/SaveLoad.java:67-76 | the world read back is as wide as line 1 and has one column cell per body line, cell `(x, y)` decoding character `x` of line `y + 1` |
| SaveLoad.FindChaser | proj5/src/core/SaveLoad.java:94-103 | the first CHASER cell in the column-by-column scan, or none when no cell holds CHASER |
| SaveLoad.FirstChaserAt | proj5/src/core/SaveLoad.java:94-103 | a CHASER cell with none before it in the scan is the one found |
| SaveLoad.HeaderSplits | proj5/src/core/SaveLoad.java:58-60 | splitting the written header on commas gives its fields back, and it holds no newline |
| SaveLoad.PlayerParses | proj5/src/core/SaveLoad.java:60-81 | the written header parses to the player's position, facing, decoded tile and count |
| SaveLoad.ChaserParses | proj5/src/core/SaveLoad.java:84-104 | the chaser part of the header parses back, or is found in the grid |
| SaveLoad.SavedLines | proj5/src/core/SaveLoad.java:21-58 | splitting the saved text on newlines gives the header line and the body lines |
| SaveLoad.SaveThenLoad | proj5/src/core/SaveLoad.java:21-107 | loading the saved text succeeds and gives the state with every tile decoded from its glyph |
| SaveLoad.DecodeAllRestores | proj5/src/core/SaveLoad.java:113-154 | with distinct glyphs, a grid without OPENED_CHEST decodes to itself |
| SaveLoad.ReloadedRestores | proj5/src/core/SaveLoad.java:55-107 | a state with no OPENED_CHEST and, without a chaser, no CHASER cell reloads to itself |
| SaveLoad.SaveLoadRestores | proj5/src/core/SaveLoad.java:21-154 | with distinct separator-free glyphs, save then load restores such a state exactly |
| SaveLoad.OpenedChestLost | proj5/src/core/SaveLoad.java:113-154 | an OPENED_CHEST cell comes back as NOTHING |
| SaveLoad.RowText | proj5/src/core/SaveLoad.java:41-44 | the inner loop builds exactly body line `y` |
| SaveLoad.AppendRows | proj5/src/core/SaveLoad.java:40-45 | the body loop appends every line, each newline-terminated |
| SaveLoad.Save | proj5/src/core/SaveLoad.java:21-48 | the text written is `Serialize` of the captured state |
| SaveLoad.ScanForChaser | proj5/src/core/SaveLoad.java:93-103 | a chaser is created iff the scan finds a CHASER cell, at the first one, with FLOOR under it |
| SaveLoad.ReadWorld | proj5/src/core/SaveLoad.java:67-76 | the world is read iff every body line is as long as line 1, and then equals `DecodeGrid` |
| SaveLoad.ReadChaser | proj5/src/core/SaveLoad.java:84-104 | the chaser is read iff `ParseChaser` succeeds, and then agrees with it |
| SaveLoad.NewPlayer | proj5/src/core/SaveLoad.java:78-81 | a fresh player with exactly the parsed fields |
| SaveLoad.Load | proj5/src/core/SaveLoad.java:55-107 | no file gives an error; otherwise load succeeds iff `Parse` does, and returns fresh objects holding the parsed state |
| SaveLoad.LoadLines | proj5/src/core/SaveLoad.java:58-106 | loading the lines succeeds iff `ParseLines` does, with fresh objects holding its result |
| Text.SplitJoin | proj5/src/core/SaveLoad.java:58-60 | `split` undoes joining two or more separator-free parts whose last part is non-empty |
| Text.PiecesJoin | proj5/src/core/SaveLoad.java:58-60 | the pieces of a join are its parts |
| Text.NatToString | proj5/src/core/SaveLoad.java:25-28 | `Integer.toString` of a natural number is digits with no leading zero |
| Text.DigitsOfNat | proj5/src/core/SaveLoad.java:61-62 | reading back the digits of `n` gives `n` |
| Text.ParseIntToString | proj5/src/core/SaveLoad.java:61-65 | `parseInt(toString(n)) == n` for every 32-bit `n` |
| Text.IntToStringChars | proj5/src/core/SaveLoad.java:25-33 | a number's text holds neither comma nor newline and is not empty |

## Left out

- Rendering, menus, the HUD, keyboard polling, the pause, `System.exit` and the
  drawing calls inside the movement methods are not modelled. The game-over
  screen is a `caught` result, and the PORTAL branch of `interact` (the clear
  screen) is left out.
- File access is not modelled: `save` returns the text it would write, and
  `load` takes the file's text, or `None` when the file does not exist.
- `java.util.Random` and `RandomUtils` are not part of this model. Draws come
  from a fixed stream of naturals, and `Shuffle` is the usual swap-with-a-later-
  position shuffle.
- Glyph values of `Tileset` are not part of this model; they come in as a
  parameter. The round-trip lemmas assume distinct glyphs that are neither
  `,` nor a newline.
- `null` tiles are not modelled: every cell of a generated or loaded grid is
  written before it is read. Exceptions become `Err` results or `None`, with a
  short reason string.
- `Integer.parseInt` accepts only ASCII digits here. Java also accepts
  digits of other scripts.
- `pushAbilityCount` is an unbounded integer, so its 32-bit overflow after
  two billion chests is not modelled.
- The catalog and the direction index are constructor parameters of the
  generator, and the shipped ones are proved to meet what it assumes
  (`CatalogIsOk`).
- Generation.WorldGenerator.RandomInRange: states the range of the draw, not
  which stream value it takes (`UniformRange` states that).
- Generation.WorldGenerator.RandomChoice: states that the choice is in the
  list, not which draw picked it (`Uniform` states that).
- Generation.WorldGenerator.ConnectDoor: the number of attempts is a ghost
  result, counted rather than observed.
- Generation.WorldGenerator.Generate: requires a fresh generator (no rooms,
  empty sets) and a world large enough for the starting room. The Java entry
  point is called once per generator.
- Generation.WorldGenerator.Generate: promises AVATAR at the start room's
  centre only when that centre is not a door of template 0, since
  `updateDoorTiles` would overwrite it; the shipped starting room meets this
  (`StartingRoomCentreFree`).
- Pursuit.MoveChaser: requires a grid at least one column wide, as `findPath`
  does. The bounds and walkability checks on the first path cell always pass,
  because the path is a walk.
- Pursuit.MovePlayer: requires the player to stand inside the grid, where
  the game always keeps it.
- Pursuit.PushChaser: requires the chaser to stand inside the grid, where
  the game always keeps it.
- Pursuit.MoveChaser: states that the display path is set after a step, not
  which path; `ChaseRound` sets it from `FindPath`.
- Pursuit.ChaseRound: assumes a chaser exists; the `chaser != null` guards
  are left out.
- Pathfinding.FindPath: requires a grid at least one column wide, because
  Java reads `world[0].length`.
- Pathfinding.FindPath: states that a non-empty result is a shortest walk,
  not which one. When several shortest walks tie, Java's neighbour order UP,
  DOWN, LEFT, RIGHT and first-parent-wins pick one of them; the contract
  allows any of them.
- Pursuit.MoveChaser: the chaser steps to the first cell of some shortest
  walk, not necessarily the one `findPath`'s fixed neighbour order picks;
  the same holds for `ChaseRound`, which moves the chaser through it.
- SaveLoad.Save: requires a world at least one column wide, because Java
  reads `world[0].length`. The round trip also needs at least one row.
- Painting.AddWallsAroundFloor: requires the floor tile to be neither NOTHING
  nor WALL, which every call in the catalog meets.
- A corridor may cross its own earlier tiles, because only `floorOccupied` is
  checked. No lemma claims corridors are simple paths.

### Where the code and its comments disagree

The model follows the code in each case.

- `WorldGenerator.java` contains an unresolved merge conflict in
  `fillWithNothing` (lines 63-76). The model takes the HEAD side's braces;
  `getRooms`, which only the other side has, is the public `rooms` field.
- `World.java` (lines 395-399) calls `gen.getChaserPosition()` and
  `gen.getChaserTileUnder()`, which `WorldGenerator.java` does not define;
  only the conflict markers at lines 63, 67 and 76 hint at a lost side. The
  generator's placement of the chaser is therefore not modelled.
- `Direction.opoosite` is called as `opposite`. It is modelled once, as
  `Direction.Opposite`.
- `Player.java` lacks `previousPos`, `tileUnderPlayer` and
  `pushAbilityCount`, which `World.java` and `SaveLoad.java` use. The model's
  `Player` has them, initialised to the position, FLOOR and 1.
- The comment on corridors promises 3 to 10 tiles per segment and 0 to 2
  turns. The code draws 3 to 5 tiles and 0 to 3 turns.
- The comment on `updateDoorTiles` says unconnected doors become WALL. The
  code makes them LOCKED_DOOR.
- `fitsWithinWorld` keeps only a one-cell margin and ignores the two-row HUD
  band, which corridors respect. Rooms may therefore reach into the band.
- Template 13 (`makeBigLRoomMirroredV`) declares the directions DOWN and
  RIGHT but has a door at `(3, 11)` on its top row. It is never offered
  under UP (`MirroredBigLNotUnderUp`), and the generator skips templates
  whose doors do not match.
- `decode` has no case for OPENED_CHEST, so an opened chest is saved and
  comes back as NOTHING (`OpenedChestLost`). If CELL and LOCKED_DOOR share a
  glyph, CELL is never read back (`CellShadowed`).
