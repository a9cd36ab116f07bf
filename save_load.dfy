/**
 * `SaveLoad.java`: the plain-text save file.
 *
 * The first line is a comma-separated header
 * `px,py,FACING,under,pushes[,cx,cy,chaserUnder]`, where `under` and
 * `chaserUnder` are tile glyphs; then one line per row `y = 0, 1, ...`,
 * holding the glyph of every cell `x = 0 .. width - 1`, each line ended by
 * a newline. Glyphs come from `Tileset`, which is not part of this model:
 * every member takes the glyph table as the parameter `glyph`. Reading and
 * writing the file itself is left to the caller: `Save` returns the text and
 * `Load` takes the file contents, `None` when there is no save file.
 */
module SaveLoad {
  import opened Wrappers
  import opened Tiles
  import opened Directions
  import opened Entities
  import opened Text

  /* ----------------------------------------------------------------------
   * Decoding glyphs
   * ---------------------------------------------------------------------- */

  /** How many kinds `decode` tries. */
  const TRIES := 24

  /**
   * The `i`-th kind `decode` compares the glyph with: entities, walkable
   * ground, blocking kinds, doors (LOCKED_DOOR before CELL), interactable
   * and damaging kinds, then NOTHING. OPENED_CHEST is not among them.
   */
  function Tried(i: nat): Tile
    requires i < TRIES
  {
    if i == 0 then AVATAR
    else if i == 1 then CHASER
    else if i == 2 then FLOOR
    else if i == 3 then GRASS
    else if i == 4 then FLOWER
    else if i == 5 then SAND
    else if i == 6 then SNOW
    else if i == 7 then WALL
    else if i == 8 then WATER
    else if i == 9 then MOUNTAIN
    else if i == 10 then TREE
    else if i == 11 then BUSH
    else if i == 12 then STATUE
    else if i == 13 then CRATE
    else if i == 14 then BOOKSHELF
    else if i == 15 then SNOWMAN
    else if i == 16 then LOCKED_DOOR
    else if i == 17 then UNLOCKED_DOOR
    else if i == 18 then CELL
    else if i == 19 then TREASURE
    else if i == 20 then PORTAL
    else if i == 21 then LAVA
    else if i == 22 then SPIKE
    else NOTHING
  }

  /** Where `t` comes in that order; TRIES for OPENED_CHEST, which is never tried. */
  function Index(t: Tile): nat
  {
    match t
    case AVATAR => 0
    case CHASER => 1
    case FLOOR => 2
    case GRASS => 3
    case FLOWER => 4
    case SAND => 5
    case SNOW => 6
    case WALL => 7
    case WATER => 8
    case MOUNTAIN => 9
    case TREE => 10
    case BUSH => 11
    case STATUE => 12
    case CRATE => 13
    case BOOKSHELF => 14
    case SNOWMAN => 15
    case LOCKED_DOOR => 16
    case UNLOCKED_DOOR => 17
    case CELL => 18
    case TREASURE => 19
    case PORTAL => 20
    case LAVA => 21
    case SPIKE => 22
    case NOTHING => 23
    case OPENED_CHEST => TRIES
  }

  /** `Index` locates every tried kind, and only those. */
  lemma IndexTried(t: Tile)
    ensures Index(t) <= TRIES
    ensures Index(t) < TRIES <==> t != OPENED_CHEST
    ensures Index(t) < TRIES ==> Tried(Index(t)) == t
  {
  }

  /** The comparisons from the `i`-th on: the first tried kind drawn as `c`, else NOTHING. */
  function DecodeFrom(c: char, glyph: Tile -> char, i: nat): (t: Tile)
    requires i <= TRIES
    ensures t == NOTHING || glyph(t) == c
    ensures t == NOTHING || i <= Index(t) < TRIES
    decreases TRIES - i
  {
    if i == TRIES then NOTHING
    else if c == glyph(Tried(i)) then (IndexTried(Tried(i)); Tried(i))
    else DecodeFrom(c, glyph, i + 1)
  }

  /**
   * `decode(c)`: the first kind, in the order of `Tried`, drawn as `c`;
   * LOCKED_DOOR is tried before CELL, OPENED_CHEST is not tried at all, and
   * an unknown glyph gives NOTHING.
   */
  function Decode(c: char, glyph: Tile -> char): (t: Tile)
    ensures t == NOTHING || glyph(t) == c
    ensures t != OPENED_CHEST
  {
    IndexTried(OPENED_CHEST);
    DecodeFrom(c, glyph, 0)
  }

  /** No two kinds share a glyph. */
  predicate Distinct(glyph: Tile -> char)
  {
    forall a: Tile, b: Tile :: a != b ==> glyph(a) != glyph(b)
  }

  /** With distinct glyphs, the comparisons from the `i`-th on find `t` when it comes at or after `i`. */
  lemma {:induction false} FindsTried(t: Tile, glyph: Tile -> char, i: nat)
    requires Distinct(glyph)
    requires i <= Index(t) < TRIES
    ensures DecodeFrom(glyph(t), glyph, i) == t
    decreases TRIES - i
  {
    IndexTried(t);
    if Tried(i) != t {
      FindsTried(t, glyph, i + 1);
    }
  }

  /**
   * With distinct glyphs, decoding a kind's glyph gives the kind back,
   * except OPENED_CHEST, which comes back as NOTHING.
   */
  lemma DecodeGlyph(t: Tile, glyph: Tile -> char)
    requires Distinct(glyph)
    ensures Decode(glyph(t), glyph) == t <==> t != OPENED_CHEST
    ensures t == OPENED_CHEST ==> Decode(glyph(t), glyph) == NOTHING
  {
    IndexTried(t);
    if t != OPENED_CHEST {
      FindsTried(t, glyph, 0);
    }
  }

  /** A glyph no kind is drawn with decodes to NOTHING. */
  lemma DecodeUnknown(c: char, glyph: Tile -> char)
    requires forall t: Tile :: glyph(t) != c
    ensures Decode(c, glyph) == NOTHING
  {
  }

  /** From any comparison up to LOCKED_DOOR's, CELL is not found while it shares LOCKED_DOOR's glyph. */
  lemma {:induction false} CellShadowedFrom(c: char, glyph: Tile -> char, i: nat)
    requires glyph(CELL) == glyph(LOCKED_DOOR)
    requires i <= Index(LOCKED_DOOR)
    ensures DecodeFrom(c, glyph, i) != CELL
    decreases TRIES - i
  {
    if c != glyph(Tried(i)) && i < Index(LOCKED_DOOR) {
      CellShadowedFrom(c, glyph, i + 1);
    }
  }

  /** CELL is never decoded while it shares LOCKED_DOOR's glyph: LOCKED_DOOR is tried first. */
  lemma CellShadowed(c: char, glyph: Tile -> char)
    requires glyph(CELL) == glyph(LOCKED_DOOR)
    ensures Decode(c, glyph) != CELL
  {
    CellShadowedFrom(c, glyph, 0);
  }

  /* ----------------------------------------------------------------------
   * Facing names
   * ---------------------------------------------------------------------- */

  /** `Direction.name()`. */
  function Name(d: Direction): string
  {
    match d
    case UP => "UP"
    case DOWN => "DOWN"
    case LEFT => "LEFT"
    case RIGHT => "RIGHT"
  }

  /** `Direction.valueOf(s)`, `None` where Java throws. */
  function ParseDirection(s: string): Option<Direction>
  {
    if s == "UP" then Some(UP)
    else if s == "DOWN" then Some(DOWN)
    else if s == "LEFT" then Some(LEFT)
    else if s == "RIGHT" then Some(RIGHT)
    else None
  }

  /** `valueOf` accepts exactly the names. */
  lemma ParseDirectionName(s: string, d: Direction)
    ensures ParseDirection(s) == Some(d) <==> s == Name(d)
  {
  }

  /** A name holds no separator. */
  lemma NameChars(d: Direction)
    ensures ',' !in Name(d) && '\n' !in Name(d) && Name(d) != ""
  {
  }

  /* ----------------------------------------------------------------------
   * What a save file holds
   * ---------------------------------------------------------------------- */

  datatype PlayerState = PlayerState(pos: Point, facing: Direction, under: Tile, pushes: int)
  datatype ChaserState = ChaserState(pos: Point, under: Tile)

  /** A world of `|grid|` columns and `height` rows with the two entities. */
  datatype Snapshot = Snapshot(grid: Grid, height: nat, player: PlayerState, chaser: Option<ChaserState>)

  /** `SaveState`: the loaded world and entities. */
  datatype SaveState = SaveState(world: array2<Tile>, player: Player, chaser: Option<Chaser>)

  /** The objects a save reads or a load creates. */
  function Objects(world: array2<Tile>, p: Player, chaser: Option<Chaser>): set<object>
  {
    {world, p} + if chaser.Some? then {chaser.value} else {}
  }

  /** What a save file records of a chaser, if there is one. */
  function ChaserMark(chaser: Option<Chaser>): Option<ChaserState>
    reads if chaser.Some? then {chaser.value} else {}
  {
    if chaser.Some? then Some(ChaserState(chaser.value.pos, chaser.value.tileUnderChaser)) else None
  }

  /** The fields a save file does not record are as `new Chaser` leaves them. */
  predicate NewChaser(c: Chaser)
    reads c
  {
    c.previousPos == c.pos && c.path == None && c.previousPath == None && !c.showPath
  }

  /** What `save` records of the live objects. */
  ghost function Capture(world: array2<Tile>, p: Player, chaser: Option<Chaser>): (s: Snapshot)
    reads Objects(world, p, chaser)
    ensures IsGrid(s.grid, world.Length0, s.height)
  {
    Snapshot(Cells(world), world.Length1,
      PlayerState(p.pos, p.facing, p.tileUnderPlayer, p.pushAbilityCount),
      ChaserMark(chaser))
  }

  /* ----------------------------------------------------------------------
   * The saved text
   * ---------------------------------------------------------------------- */

  /** The header fields: the player's, then the chaser's when there is one. */
  function HeaderFields(p: PlayerState, c: Option<ChaserState>, glyph: Tile -> char): (fields: seq<string>)
    ensures |fields| == if c.Some? then 8 else 5
  {
    [IntToString(p.pos.x), IntToString(p.pos.y), Name(p.facing), [glyph(p.under)], IntToString(p.pushes)]
    + if c.Some? then [IntToString(c.value.pos.x), IntToString(c.value.pos.y), [glyph(c.value.under)]] else []
  }

  /** The glyphs of row `y`, cells `x = 0 .. n - 1`. */
  function Row(g: Grid, y: nat, n: nat, glyph: Tile -> char): (r: string)
    requires n <= |g| && forall x :: 0 <= x < |g| ==> y < |g[x]|
    ensures |r| == n && forall x :: 0 <= x < n ==> r[x] == glyph(g[x][y])
  {
    if n == 0 then "" else Row(g, y, n - 1, glyph) + [glyph(g[n - 1][y])]
  }

  /** The first `n` rows, each holding every column. */
  function Rows(g: Grid, n: nat, glyph: Tile -> char): (rs: seq<string>)
    requires forall x :: 0 <= x < |g| ==> n <= |g[x]|
    ensures |rs| == n && forall y :: 0 <= y < n ==> rs[y] == Row(g, y, |g|, glyph)
  {
    if n == 0 then [] else Rows(g, n - 1, glyph) + [Row(g, n - 1, |g|, glyph)]
  }

  /** The text `save` writes for a snapshot: header, then every row, each line newline-ended. */
  function Serialize(s: Snapshot, glyph: Tile -> char): string
    requires forall x :: 0 <= x < |s.grid| ==> s.height <= |s.grid[x]|
  {
    Join([Join(HeaderFields(s.player, s.chaser, glyph), ',')] + Rows(s.grid, s.height, glyph), '\n') + "\n"
  }

  /* ----------------------------------------------------------------------
   * Reading the text back
   * ---------------------------------------------------------------------- */

  /** The player fields of a header; the glyph under the player defaults to FLOOR's and the count to 1. */
  function ParseHeader(header: seq<string>, glyph: Tile -> char, decode: char -> Tile): Result<PlayerState>
  {
    if |header| < 3 then Err("header too short")
    else
      match (ParseInt(header[0]), ParseInt(header[1]), ParseDirection(header[2]))
      case (Some(x), Some(y), Some(facing)) =>
        if |header| > 3 && header[3] == "" then Err("empty tile field")
        else if |header| > 4 && ParseInt(header[4]).None? then Err("bad push count")
        else
          var under := if |header| > 3 then header[3][0] else glyph(FLOOR);
          var pushes := if |header| > 4 then ParseInt(header[4]).value else 1;
          Ok(PlayerState(Point(x, y), facing, decode(under), pushes))
      case _ => Err("bad player field")
  }

  /** Every body line (lines 1 ..) is at least `width` long. */
  predicate RowsCover(lines: seq<string>, width: nat)
  {
    forall y :: 1 <= y < |lines| ==> width <= |lines[y]|
  }

  /** `decode` with the glyph table fixed, as a function of the character alone. */
  function Decoder(glyph: Tile -> char): char -> Tile
  {
    c => Decode(c, glyph)
  }

  /** The world read from the body lines: cell `(x, y)` decodes character `x` of line `y + 1`. */
  function DecodeGrid(lines: seq<string>, width: nat, decode: char -> Tile): (g: Grid)
    requires |lines| > 0 && RowsCover(lines, width)
    ensures |g| == width && forall x :: 0 <= x < width ==> |g[x]| == |lines| - 1
    ensures forall x, y :: 0 <= x < width && 0 <= y < |lines| - 1 ==> g[x][y] == decode(lines[y + 1][x])
  {
    seq(width, x requires 0 <= x < width => seq(|lines| - 1, y requires 0 <= y < |lines| - 1 => decode(lines[y + 1][x])))
  }

  /** The first CHASER cell at or after `(x, y)` in the column-by-column scan of a `|g|` by `h` grid. */
  function FindChaser(g: Grid, h: nat, x: nat, y: nat): (r: Option<Point>)
    requires forall i :: 0 <= i < |g| ==> |g[i]| == h
    ensures r.None? ==> forall i, j :: 0 <= i < |g| && 0 <= j < h && !Before(Point(i, j), Point(x, y)) ==> g[i][j] != CHASER
    ensures r.Some? ==> var p := r.value;
      0 <= p.x < |g| && 0 <= p.y < h && g[p.x][p.y] == CHASER && !Before(p, Point(x, y)) &&
      forall i, j :: 0 <= i < |g| && 0 <= j < h && !Before(Point(i, j), Point(x, y)) && Before(Point(i, j), p) ==> g[i][j] != CHASER
    decreases |g| - x, h - y
  {
    if x >= |g| then None
    else if y >= h then FindChaser(g, h, x + 1, 0)
    else if g[x][y] == CHASER then Some(Point(x, y))
    else FindChaser(g, h, x, y + 1)
  }

  /** The chaser: from header fields 5 to 7 when the header has eight fields, else the first CHASER cell with FLOOR under it. */
  function ParseChaser(header: seq<string>, g: Grid, h: nat, decode: char -> Tile): Result<Option<ChaserState>>
    requires forall i :: 0 <= i < |g| ==> |g[i]| == h
  {
    if |header| >= 8 then
      match (ParseInt(header[5]), ParseInt(header[6]))
      case (Some(x), Some(y)) =>
        if header[7] == "" then Err("empty tile field")
        else Ok(Some(ChaserState(Point(x, y), decode(header[7][0]))))
      case _ => Err("bad chaser field")
    else
      match FindChaser(g, h, 0, 0)
      case None => Ok(None)
      case Some(p) => Ok(Some(ChaserState(p, FLOOR)))
  }

  /** What `load` makes of a text; `Err` wherever Java throws. */
  function Parse(text: string, glyph: Tile -> char): Result<Snapshot>
  {
    var lines := Split(text, '\n');
    if |lines| == 0 then Err("no header line") else ParseLines(lines, glyph)
  }

  /** What `load` makes of the lines of a text, the first being the header. */
  function ParseLines(lines: seq<string>, glyph: Tile -> char): Result<Snapshot>
    requires |lines| > 0
  {
    var header := Split(lines[0], ',');
    match ParseHeader(header, glyph, Decoder(glyph))
    case Err(e) => Err(e)
    case Ok(player) =>
      if |lines| < 2 then Err("no world rows")
      else if !RowsCover(lines, |lines[1]|) then Err("short world row")
      else
        var grid := DecodeGrid(lines, |lines[1]|, Decoder(glyph));
        match ParseChaser(header, grid, |lines| - 1, Decoder(glyph))
        case Err(e) => Err(e)
        case Ok(chaser) => Ok(Snapshot(grid, |lines| - 1, player, chaser))
  }

  /* ----------------------------------------------------------------------
   * Save then load
   * ---------------------------------------------------------------------- */

  /** No glyph is a separator of the save format. */
  predicate Separable(glyph: Tile -> char)
  {
    forall t: Tile :: glyph(t) != ',' && glyph(t) != '\n'
  }

  /**
   * A snapshot `save` can write and `load` read back: a rectangular world at
   * least one cell wide and high, and coordinates and count that are Java `int`s.
   */
  ghost predicate Storable(s: Snapshot)
  {
    IsGrid(s.grid, |s.grid|, s.height) && |s.grid| > 0 && s.height > 0 &&
    IsInt32(s.player.pos.x) && IsInt32(s.player.pos.y) && IsInt32(s.player.pushes) &&
    (s.chaser.Some? ==> IsInt32(s.chaser.value.pos.x) && IsInt32(s.chaser.value.pos.y))
  }

  /** Every cell passed through its glyph and `decode`. */
  function DecodeAll(g: Grid, glyph: Tile -> char, decode: char -> Tile): (r: Grid)
    ensures |r| == |g| && forall x :: 0 <= x < |g| ==> |r[x]| == |g[x]|
    ensures forall x, y :: 0 <= x < |g| && 0 <= y < |g[x]| ==> r[x][y] == decode(glyph(g[x][y]))
  {
    seq(|g|, x requires 0 <= x < |g| => seq(|g[x]|, y requires 0 <= y < |g[x]| => decode(glyph(g[x][y]))))
  }

  /**
   * What loading a saved snapshot yields: every tile passed through its
   * glyph and `decode`, and, without a chaser in the header, the first
   * CHASER cell of the world with FLOOR under it.
   */
  function Reloaded(s: Snapshot, glyph: Tile -> char): Snapshot
    requires forall x :: 0 <= x < |s.grid| ==> |s.grid[x]| == s.height
  {
    var decode := Decoder(glyph);
    var g := DecodeAll(s.grid, glyph, decode);
    var chaser :=
      match s.chaser
      case Some(c) => Some(ChaserState(c.pos, decode(glyph(c.under))))
      case None =>
        match FindChaser(g, s.height, 0, 0)
        case None => None
        case Some(p) => Some(ChaserState(p, FLOOR));
    Snapshot(g, s.height, PlayerState(s.player.pos, s.player.facing, decode(glyph(s.player.under)), s.player.pushes), chaser)
  }

  /** The header line splits back into its fields. */
  lemma HeaderSplits(p: PlayerState, c: Option<ChaserState>, glyph: Tile -> char)
    requires Separable(glyph)
    ensures var fields := HeaderFields(p, c, glyph);
      Split(Join(fields, ','), ',') == fields && '\n' !in Join(fields, ',')
  {
    var fields := HeaderFields(p, c, glyph);
    IntToStringChars(p.pos.x, ',');
    IntToStringChars(p.pos.y, ',');
    IntToStringChars(p.pushes, ',');
    IntToStringChars(p.pos.x, '\n');
    IntToStringChars(p.pos.y, '\n');
    IntToStringChars(p.pushes, '\n');
    NameChars(p.facing);
    if c.Some? {
      IntToStringChars(c.value.pos.x, ',');
      IntToStringChars(c.value.pos.y, ',');
      IntToStringChars(c.value.pos.x, '\n');
      IntToStringChars(c.value.pos.y, '\n');
    }
    assert forall i :: 0 <= i < |fields| ==> ',' !in fields[i] && '\n' !in fields[i];
    SplitJoin(fields, ',');
    NoSepInJoin(fields, ',', '\n');
  }

  /** Joining parts free of `c` with a separator other than `c` gives a text free of `c`. */
  lemma {:induction false} NoSepInJoin(parts: seq<string>, sep: char, c: char)
    requires |parts| > 0 && sep != c
    requires forall i :: 0 <= i < |parts| ==> c !in parts[i]
    ensures c !in Join(parts, sep)
    decreases |parts|
  {
    if |parts| > 1 {
      NoSepInJoin(parts[1..], sep, c);
    }
  }

  /** The header fields parse back to the player they were written from. */
  lemma PlayerParses(s: Snapshot, glyph: Tile -> char)
    requires Storable(s)
    ensures ParseHeader(HeaderFields(s.player, s.chaser, glyph), glyph, Decoder(glyph)) == Ok(Reloaded(s, glyph).player)
  {
    var fields := HeaderFields(s.player, s.chaser, glyph);
    var p := PlayerState(s.player.pos, s.player.facing, Decoder(glyph)(glyph(s.player.under)), s.player.pushes);
    assert ParseHeader(fields, glyph, Decoder(glyph)) == Ok(p) by {
      assert fields[0] == IntToString(s.player.pos.x) && fields[1] == IntToString(s.player.pos.y);
      assert fields[2] == Name(s.player.facing) && fields[3] == [glyph(s.player.under)];
      assert fields[4] == IntToString(s.player.pushes);
      ParseIntToString(s.player.pos.x);
      ParseIntToString(s.player.pos.y);
      ParseIntToString(s.player.pushes);
      ParseDirectionName(Name(s.player.facing), s.player.facing);
    }
    assert Reloaded(s, glyph).player == p;
  }

  /** The header fields parse back to the chaser they were written from, or the scan finds it. */
  lemma ChaserParses(s: Snapshot, glyph: Tile -> char)
    requires Storable(s)
    ensures ParseChaser(HeaderFields(s.player, s.chaser, glyph), DecodeAll(s.grid, glyph, Decoder(glyph)), s.height, Decoder(glyph))
      == Ok(Reloaded(s, glyph).chaser)
  {
    var fields := HeaderFields(s.player, s.chaser, glyph);
    if s.chaser.Some? {
      ParseIntToString(s.chaser.value.pos.x);
      ParseIntToString(s.chaser.value.pos.y);
      assert fields[7] == [glyph(s.chaser.value.under)];
    }
  }

  /** The saved text splits into the header line and one line per row. */
  lemma SavedLines(s: Snapshot, glyph: Tile -> char)
    requires Storable(s) && Separable(glyph)
    ensures Split(Serialize(s, glyph), '\n') == [Join(HeaderFields(s.player, s.chaser, glyph), ',')] + Rows(s.grid, s.height, glyph)
  {
    var header := Join(HeaderFields(s.player, s.chaser, glyph), ',');
    var rows := Rows(s.grid, s.height, glyph);
    var parts := [header] + rows;
    HeaderSplits(s.player, s.chaser, glyph);
    JoinSnoc(parts, "", '\n');
    assert Join(parts + [""], '\n') == Serialize(s, glyph);
    JoinHasSep(parts + [""], '\n');
    assert forall i :: 0 <= i < |parts + [""]| ==> '\n' !in (parts + [""])[i];
    PiecesJoin(parts + [""], '\n');
    assert |parts[|parts| - 1]| == |s.grid|;
    DropOneEmpty(parts);
  }

  /** The lines after the header are the saved rows, one per `y`. */
  lemma SavedRows(s: Snapshot, glyph: Tile -> char, lines: seq<string>)
    requires Storable(s)
    requires lines == [Join(HeaderFields(s.player, s.chaser, glyph), ',')] + Rows(s.grid, s.height, glyph)
    ensures |lines| == s.height + 1
    ensures forall y :: 1 <= y < |lines| ==> lines[y] == Row(s.grid, y - 1, |s.grid|, glyph)
  {
    var rows := Rows(s.grid, s.height, glyph);
    forall y | 1 <= y < |lines|
      ensures lines[y] == Row(s.grid, y - 1, |s.grid|, glyph)
    {
      assert lines[y] == rows[y - 1];
    }
  }

  /** Lines holding the rows of `g` after a first line decode to `g`'s cells, decoded. */
  lemma RowsDecode(g: Grid, height: nat, glyph: Tile -> char, lines: seq<string>, decode: char -> Tile)
    requires IsGrid(g, |g|, height) && |lines| == height + 1
    requires forall y :: 1 <= y < |lines| ==> lines[y] == Row(g, y - 1, |g|, glyph)
    ensures RowsCover(lines, |g|) && DecodeGrid(lines, |g|, decode) == DecodeAll(g, glyph, decode)
  {
    RowsWide(g, height, glyph, lines);
    CellsDecode(g, height, glyph, lines, decode);
    GridExt(DecodeGrid(lines, |g|, decode), DecodeAll(g, glyph, decode));
  }

  /** Every row line is as long as the grid is wide. */
  lemma RowsWide(g: Grid, height: nat, glyph: Tile -> char, lines: seq<string>)
    requires IsGrid(g, |g|, height) && |lines| == height + 1
    requires forall y :: 1 <= y < |lines| ==> lines[y] == Row(g, y - 1, |g|, glyph)
    ensures RowsCover(lines, |g|)
  {
    forall y | 1 <= y < |lines|
      ensures |g| <= |lines[y]|
    {
      var r := Row(g, y - 1, |g|, glyph);
      assert lines[y] == r;
    }
  }

  /** Cell by cell, reading the row lines back decodes the glyphs of the grid. */
  lemma CellsDecode(g: Grid, height: nat, glyph: Tile -> char, lines: seq<string>, decode: char -> Tile)
    requires IsGrid(g, |g|, height) && |lines| == height + 1
    requires forall y :: 1 <= y < |lines| ==> lines[y] == Row(g, y - 1, |g|, glyph)
    requires RowsCover(lines, |g|)
    ensures forall x, y :: 0 <= x < |g| && 0 <= y < height ==>
      DecodeGrid(lines, |g|, decode)[x][y] == DecodeAll(g, glyph, decode)[x][y]
  {
    forall x, y | 0 <= x < |g| && 0 <= y < height
      ensures DecodeGrid(lines, |g|, decode)[x][y] == DecodeAll(g, glyph, decode)[x][y]
    {
      RowCell(g, y, glyph, lines[y + 1], x);
    }
  }

  /** Character `x` of row `y`'s line is the glyph of cell `(x, y)`. */
  lemma RowCell(g: Grid, y: nat, glyph: Tile -> char, line: string, x: int)
    requires forall i :: 0 <= i < |g| ==> y < |g[i]|
    requires line == Row(g, y, |g|, glyph)
    ensures |line| == |g| && (0 <= x < |g| ==> line[x] == glyph(g[x][y]))
  {
  }

  /** The world read back from the saved lines is the saved world, decoded. */
  lemma SavedGrid(s: Snapshot, glyph: Tile -> char, lines: seq<string>, decode: char -> Tile)
    requires Storable(s)
    requires lines == [Join(HeaderFields(s.player, s.chaser, glyph), ',')] + Rows(s.grid, s.height, glyph)
    ensures |lines| >= 2 && |lines[1]| == |s.grid| && |lines| - 1 == s.height
    ensures RowsCover(lines, |s.grid|) && DecodeGrid(lines, |s.grid|, decode) == DecodeAll(s.grid, glyph, decode)
  {
    SavedRows(s, glyph, lines);
    RowsDecode(s.grid, s.height, glyph, lines, decode);
  }

  /**
   * Save then load: the text written for a snapshot reads back as the
   * snapshot with every tile passed through its glyph and `decode`.
   */
  lemma SaveThenLoad(s: Snapshot, glyph: Tile -> char)
    requires Storable(s) && Separable(glyph)
    ensures Parse(Serialize(s, glyph), glyph) == Ok(Reloaded(s, glyph))
  {
    var fields := HeaderFields(s.player, s.chaser, glyph);
    var lines := Split(Serialize(s, glyph), '\n');
    SavedLines(s, glyph);
    HeaderSplits(s.player, s.chaser, glyph);
    assert Split(lines[0], ',') == fields;
    PlayerParses(s, glyph);
    ChaserParses(s, glyph);
    SavedGrid(s, glyph, lines, Decoder(glyph));
  }

  /** No kind OPENED_CHEST anywhere in the snapshot. */
  ghost predicate Decodable(s: Snapshot)
  {
    (forall x, y :: 0 <= x < |s.grid| && 0 <= y < |s.grid[x]| ==> s.grid[x][y] != OPENED_CHEST) &&
    s.player.under != OPENED_CHEST &&
    (s.chaser.Some? ==> s.chaser.value.under != OPENED_CHEST)
  }

  /** With distinct glyphs, decoding every glyph of a world without OPENED_CHEST gives the world back. */
  lemma DecodeAllRestores(g: Grid, glyph: Tile -> char)
    requires Distinct(glyph)
    requires forall x, y :: 0 <= x < |g| && 0 <= y < |g[x]| ==> g[x][y] != OPENED_CHEST
    ensures DecodeAll(g, glyph, Decoder(glyph)) == g
  {
    var r := DecodeAll(g, glyph, Decoder(glyph));
    forall x, y | 0 <= x < |g| && 0 <= y < |g[x]|
      ensures r[x][y] == g[x][y]
    {
      DecoderGlyph(g[x][y], glyph);
    }
    GridExt(r, g);
  }

  /**
   * With distinct glyphs, a snapshot without OPENED_CHEST whose chaser is
   * in the header, or which has no chaser and no CHASER cell, is its own
   * reloaded form.
   */
  lemma ReloadedRestores(s: Snapshot, glyph: Tile -> char)
    requires Storable(s) && Distinct(glyph) && Decodable(s)
    requires s.chaser.None? ==> forall x, y :: 0 <= x < |s.grid| && 0 <= y < s.height ==> s.grid[x][y] != CHASER
    ensures Reloaded(s, glyph) == s
  {
    DecodeAllRestores(s.grid, glyph);
    DecoderGlyph(s.player.under, glyph);
    if s.chaser.Some? {
      DecoderGlyph(s.chaser.value.under, glyph);
    }
  }

  /** Such a snapshot loads back exactly as it was saved. */
  lemma SaveLoadRestores(s: Snapshot, glyph: Tile -> char)
    requires Storable(s) && Separable(glyph) && Distinct(glyph) && Decodable(s)
    requires s.chaser.None? ==> forall x, y :: 0 <= x < |s.grid| && 0 <= y < s.height ==> s.grid[x][y] != CHASER
    ensures Parse(Serialize(s, glyph), glyph) == Ok(s)
  {
    SaveThenLoad(s, glyph);
    ReloadedRestores(s, glyph);
  }



  /** `DecodeGlyph` for the decoding function `load` uses. */
  lemma DecoderGlyph(t: Tile, glyph: Tile -> char)
    requires Distinct(glyph) && t != OPENED_CHEST
    ensures Decoder(glyph)(glyph(t)) == t
  {
    DecodeGlyph(t, glyph);
  }

  /** With distinct glyphs, a saved OPENED_CHEST comes back as NOTHING. */
  lemma OpenedChestLost(s: Snapshot, glyph: Tile -> char, x: nat, y: nat)
    requires Storable(s) && Separable(glyph) && Distinct(glyph)
    requires x < |s.grid| && y < s.height && s.grid[x][y] == OPENED_CHEST
    ensures var r := Parse(Serialize(s, glyph), glyph);
      r.Ok? && x < |r.value.grid| && y < |r.value.grid[x]| && r.value.grid[x][y] == NOTHING
  {
    SaveThenLoad(s, glyph);
    DecodeGlyph(OPENED_CHEST, glyph);
    assert Decoder(glyph)(glyph(OPENED_CHEST)) == NOTHING;
  }

  /* ----------------------------------------------------------------------
   * The two operations
   * ---------------------------------------------------------------------- */

  /** Appending row `y` and a newline to the text of the rows before it gives the text of rows up to `y`. */
  lemma OneMoreRow(header: string, g: Grid, y: nat, glyph: Tile -> char)
    requires forall x :: 0 <= x < |g| ==> y < |g[x]|
    ensures Join([header] + Rows(g, y + 1, glyph), '\n') + "\n" ==
      Join([header] + Rows(g, y, glyph), '\n') + "\n" + Row(g, y, |g|, glyph) + "\n"
  {
    JoinSnoc([header] + Rows(g, y, glyph), Row(g, y, |g|, glyph), '\n');
    assert [header] + Rows(g, y + 1, glyph) == [header] + Rows(g, y, glyph) + [Row(g, y, |g|, glyph)];
  }

  /** The glyphs of row `y`, left to right. */
  method RowText(world: array2<Tile>, y: nat, glyph: Tile -> char) returns (row: string)
    requires y < world.Length1
    ensures row == Row(Cells(world), y, world.Length0, glyph)
  {
    ghost var g := Cells(world);
    row := "";
    var x := 0;
    while x < world.Length0
      invariant 0 <= x <= world.Length0
      invariant row == Row(g, y, x, glyph)
    {
      row := row + [glyph(world[x, y])];
      x := x + 1;
    }
  }

  /** `save`: the text of the header and of the world, row by row. */
  method Save(world: array2<Tile>, p: Player, chaser: Option<Chaser>, glyph: Tile -> char) returns (text: string)
    requires world.Length0 > 0
    ensures text == Serialize(Capture(world, p, chaser), glyph)
  {
    ghost var s := Capture(world, p, chaser);
    assert s.grid == Cells(world) && s.height == world.Length1;
    var header := Join(HeaderFields(PlayerState(p.pos, p.facing, p.tileUnderPlayer, p.pushAbilityCount), ChaserMark(chaser), glyph), ',');
    assert header == Join(HeaderFields(s.player, s.chaser, glyph), ',');
    text := AppendRows(header, world, glyph);
  }

  /** The loop of `save`: after the header line, each row's glyphs and a newline. */
  method AppendRows(header: string, world: array2<Tile>, glyph: Tile -> char) returns (text: string)
    ensures text == Join([header] + Rows(Cells(world), world.Length1, glyph), '\n') + "\n"
  {
    ghost var g := Cells(world);
    var height := world.Length1;
    text := header + "\n";
    for y := 0 to height
      invariant text == Join([header] + Rows(g, y, glyph), '\n') + "\n"
    {
      var row := RowText(world, y, glyph);
      OneMoreRow(header, g, y, glyph);
      text := text + row + "\n";
    }
  }



  /** The cell `p` holds the first CHASER of the scan when it is a CHASER and no cell before it is. */
  lemma FirstChaserAt(g: Grid, h: nat, p: Point)
    requires forall i :: 0 <= i < |g| ==> |g[i]| == h
    requires 0 <= p.x < |g| && 0 <= p.y < h && g[p.x][p.y] == CHASER
    requires forall i, j :: 0 <= i < |g| && 0 <= j < h && Before(Point(i, j), p) ==> g[i][j] != CHASER
    ensures FindChaser(g, h, 0, 0) == Some(p)
  {
    var r := FindChaser(g, h, 0, 0);
    if r.Some? {
      assert !Before(r.value, p) && !Before(p, r.value);
    }
  }

  /**
   * The old-format search of `load`: the first CHASER cell, column by
   * column, becomes a new chaser standing on FLOOR.
   */
  method ScanForChaser(world: array2<Tile>) returns (chaser: Option<Chaser>)
    ensures chaser.None? <==> FindChaser(Cells(world), world.Length1, 0, 0).None?
    ensures chaser.Some? ==>
      var c := chaser.value;
      fresh(c) && c.pos == FindChaser(Cells(world), world.Length1, 0, 0).value &&
      c.tileUnderChaser == FLOOR && NewChaser(c)
  {
    ghost var g := Cells(world);
    chaser := None;
    var x := 0;
    while x < world.Length0
      invariant 0 <= x <= world.Length0
      invariant chaser.None?
      invariant forall i, j :: 0 <= i < x && 0 <= j < world.Length1 ==> g[i][j] != CHASER
    {
      var y := 0;
      while y < world.Length1
        invariant 0 <= y <= world.Length1
        invariant chaser.None?
        invariant forall j :: 0 <= j < y ==> g[x][j] != CHASER
      {
        if world[x, y] == CHASER {
          var c := new Chaser(x, y);
          c.tileUnderChaser := FLOOR;
          chaser := Some(c);
          FirstChaserAt(g, world.Length1, Point(x, y));
          break;
        }
        y := y + 1;
      }
      if chaser.Some? {
        break;
      }
      x := x + 1;
    }
  }

  /**
   * The world part of `load`: as wide as line 1, one row per line after
   * the header, each cell decoded from its character by `decode`; `None`
   * where a row is too short for `charAt`.
   */
  method ReadWorld(lines: seq<string>, decode: char -> Tile) returns (world: Option<array2<Tile>>)
    requires |lines| >= 2
    ensures world.None? <==> !RowsCover(lines, |lines[1]|)
    ensures world.Some? ==>
      fresh(world.value) && world.value.Length1 == |lines| - 1 &&
      Cells(world.value) == DecodeGrid(lines, |lines[1]|, decode)
  {
    var width := |lines[1]|;
    var height := |lines| - 1;
    var a := new Tile[width, height];
    var y := 0;
    while y < height
      invariant 0 <= y <= height
      invariant forall j :: 1 <= j <= y ==> width <= |lines[j]|
      invariant forall i, j :: 0 <= i < width && 0 <= j < y ==> a[i, j] == decode(lines[j + 1][i])
    {
      var row := lines[y + 1];
      if |row| < width {
        return None;
      }
      var x := 0;
      while x < width
        invariant 0 <= x <= width
        invariant forall i, j :: 0 <= i < width && 0 <= j < y ==> a[i, j] == decode(lines[j + 1][i])
        invariant forall i :: 0 <= i < x ==> a[i, y] == decode(row[i])
      {
        a[x, y] := decode(row[x]);
        x := x + 1;
      }
      y := y + 1;
    }
    GridExt(Cells(a), DecodeGrid(lines, width, decode));
    world := Some(a);
  }

  /**
   * The chaser part of `load`: from header fields 5 to 7 when the header
   * has eight fields, else found by `ScanForChaser`.
   */
  method ReadChaser(header: seq<string>, world: array2<Tile>, decode: char -> Tile) returns (r: Result<Option<Chaser>>)
    ensures r.Ok? <==> ParseChaser(header, Cells(world), world.Length1, decode).Ok?
    ensures r.Ok? ==>
      ChaserMark(r.value) == ParseChaser(header, Cells(world), world.Length1, decode).value &&
      (r.value.Some? ==> fresh(r.value.value) && NewChaser(r.value.value))
  {
    if |header| >= 8 {
      var x := ParseInt(header[5]);
      var y := ParseInt(header[6]);
      if x.None? || y.None? || header[7] == "" {
        return Err("bad chaser field");
      }
      var c := new Chaser(x.value, y.value);
      c.tileUnderChaser := decode(header[7][0]);
      r := Ok(Some(c));
    } else {
      var c := ScanForChaser(world);
      r := Ok(c);
    }
  }

  /** The player part of `load`: a new player with the header's fields. */
  method NewPlayer(state: PlayerState) returns (p: Player)
    ensures fresh(p) && PlayerState(p.pos, p.facing, p.tileUnderPlayer, p.pushAbilityCount) == state
    ensures p.previousPos == p.pos
  {
    p := new Player(state.pos.x, state.pos.y);
    p.facing := state.facing;
    p.tileUnderPlayer := state.under;
    p.pushAbilityCount := state.pushes;
  }

  /** The loaded objects hold the snapshot, and the entities' other fields are as their constructors leave them. */
  ghost predicate Holds(st: SaveState, s: Snapshot)
    reads Objects(st.world, st.player, st.chaser)
  {
    Capture(st.world, st.player, st.chaser) == s &&
    st.player.previousPos == st.player.pos &&
    (st.chaser.Some? ==> NewChaser(st.chaser.value))
  }

  /**
   * `load`: `Err` when there is no save file or where Java throws on a
   * malformed one; otherwise new objects holding what `Parse` reads.
   */
  method Load(file: Option<string>, glyph: Tile -> char) returns (r: Result<SaveState>)
    ensures file.None? ==> r.Err?
    ensures file.Some? ==> (r.Ok? <==> Parse(file.value, glyph).Ok?)
    ensures r.Ok? ==> file.Some? && fresh(Objects(r.value.world, r.value.player, r.value.chaser)) && Holds(r.value, Parse(file.value, glyph).value)
  {
    if file.None? {
      return Err("no save file");
    }
    var lines := Split(file.value, '\n');
    if |lines| == 0 {
      return Err("no header line");
    }
    r := LoadLines(lines, glyph);
  }

  /** `load` from the split lines on: header, world, player, chaser. */
  method LoadLines(lines: seq<string>, glyph: Tile -> char) returns (r: Result<SaveState>)
    requires |lines| > 0
    ensures r.Ok? <==> ParseLines(lines, glyph).Ok?
    ensures r.Ok? ==> fresh(Objects(r.value.world, r.value.player, r.value.chaser)) && Holds(r.value, ParseLines(lines, glyph).value)
  {
    var header := Split(lines[0], ',');
    var player := ParseHeader(header, glyph, Decoder(glyph));
    if player.Err? {
      return Err(player.reason);
    }
    if |lines| < 2 {
      return Err("no world rows");
    }
    var world := ReadWorld(lines, Decoder(glyph));
    if world.None? {
      return Err("short world row");
    }
    var p := NewPlayer(player.value);
    var chaser := ReadChaser(header, world.value, Decoder(glyph));
    if chaser.Err? {
      return Err(chaser.reason);
    }
    r := Ok(SaveState(world.value, p, chaser.value));
  }

}
