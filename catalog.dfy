/**
 * `RoomTemplates.java`: the twenty predefined templates and the per-direction
 * index built in its static initialiser.
 *
 * Each `makeX()` constructor is written as data — its size, the paint steps it
 * performs in order, its door list and its tags — and `MakeTemplate` carries the
 * steps out on a fresh array exactly as the constructors do.
 */
module Catalog {
  import opened Wrappers
  import opened Tiles
  import opened Directions
  import opened Blueprints
  import opened Painting

  /** A template constructor: the paint steps before `drawLockedDoors`, and the fields it passes on. */
  datatype TemplateSpec = TemplateSpec(
    w: int, h: int,
    ops: seq<PaintOp>,
    doors: seq<Point>,
    dirs: set<Direction>,
    types: set<RoomType>)

  const AllDirs: set<Direction> := {UP, DOWN, LEFT, RIGHT}

  /** The template a constructor returns: its ops, then the locked doors. */
  function Realize(s: TemplateSpec): RoomTemplate
  {
    var layout := ApplyAll(Blank(if s.w < 0 then 0 else s.w, if s.h < 0 then 0 else s.h), s.ops + [Doors(s.doors)]);
    RoomTemplate(s.w, s.h, layout, s.doors, s.dirs, s.types)
  }

  /** What every constructor satisfies: positive size, steps that cannot throw, doors on the boundary, no entity tiles painted. */
  predicate OpOk(op: PaintOp, w: int, h: int) { OpAllowed(op, w, h) && !Writes(op, AVATAR) && !Writes(op, CHASER) }
  predicate SpecOk(s: TemplateSpec)
  {
    s.w > 0 && s.h > 0 &&
    (forall i :: 0 <= i < |s.ops| ==> OpOk(s.ops[i], s.w, s.h)) &&
    (forall i :: 0 <= i < |s.doors| ==> OnEdge(s.w, s.h, s.doors[i]))
  }

  /* ----------------------------------------------------------------------
   * The constructors, in catalog order
   * ---------------------------------------------------------------------- */

  /** 0: `makeStartingRoom`. */
  function StartingRoom(): (s: TemplateSpec)
    ensures s.w > 0 && s.h > 0 && forall i :: 0 <= i < |s.doors| ==> OnEdge(s.w, s.h, s.doors[i])
    ensures forall i :: 0 <= i < |s.ops| ==> OpOk(s.ops[i], s.w, s.h)
  {
    TemplateSpec(5, 5, [Fill(FLOOR), Boundary],
      [Point(2, 4), Point(2, 0), Point(0, 2), Point(4, 2)], AllDirs, {STARTING})
  }

  /** 1: `makeSmallSquareRoom`. */
  function SmallSquareRoom(): (s: TemplateSpec)
    ensures s.w > 0 && s.h > 0 && forall i :: 0 <= i < |s.doors| ==> OnEdge(s.w, s.h, s.doors[i])
    ensures forall i :: 0 <= i < |s.ops| ==> OpOk(s.ops[i], s.w, s.h)
  {
    TemplateSpec(7, 7,
      [Fill(SAND), Boundary, Set(3, 3, STATUE), Set(1, 5, FLOWER), Set(5, 1, FLOWER)],
      [Point(0, 3), Point(6, 3), Point(3, 0), Point(3, 6)], AllDirs, {SQUARE, SMALL})
  }

  /** 2: `makeBigSquareRoom`. */
  function BigSquareRoom(): (s: TemplateSpec)
    ensures s.w > 0 && s.h > 0 && forall i :: 0 <= i < |s.doors| ==> OnEdge(s.w, s.h, s.doors[i])
    ensures forall i :: 0 <= i < |s.ops| ==> OpOk(s.ops[i], s.w, s.h)
  {
    TemplateSpec(11, 11,
      [Fill(GRASS), Boundary,
       Set(2, 2, BOOKSHELF), Set(8, 2, BOOKSHELF), Set(2, 8, BOOKSHELF), Set(8, 8, BOOKSHELF),
       Set(5, 5, STATUE), Set(3, 5, FLOWER), Set(7, 5, FLOWER), Set(5, 3, FLOWER), Set(5, 7, FLOWER)],
      [Point(0, 5), Point(10, 5), Point(5, 0), Point(5, 10)], AllDirs, {SQUARE, BIG})
  }

  /** 3: `makeSmallHorizontalRoom`. */
  function SmallHorizontalRoom(): (s: TemplateSpec)
    ensures s.w > 0 && s.h > 0 && forall i :: 0 <= i < |s.doors| ==> OnEdge(s.w, s.h, s.doors[i])
    ensures forall i :: 0 <= i < |s.ops| ==> OpOk(s.ops[i], s.w, s.h)
  {
    TemplateSpec(9, 5,
      [Fill(SAND), Boundary, Set(2, 2, CRATE), Set(6, 2, CRATE), Set(4, 1, FLOWER), Set(4, 3, FLOWER)],
      [Point(0, 2), Point(8, 2), Point(4, 4)], {LEFT, RIGHT, UP}, {HORIZONTAL, SMALL})
  }

  /** 4: `makeBigHorizontalRoom`. */
  function BigHorizontalRoom(): (s: TemplateSpec)
    ensures s.w > 0 && s.h > 0 && forall i :: 0 <= i < |s.doors| ==> OnEdge(s.w, s.h, s.doors[i])
    ensures forall i :: 0 <= i < |s.ops| ==> OpOk(s.ops[i], s.w, s.h)
  {
    TemplateSpec(13, 7,
      [Fill(GRASS), Boundary,
       Set(2, 3, TREE), Set(4, 3, FLOWER), Set(6, 3, TREE), Set(8, 3, FLOWER), Set(10, 3, TREE),
       Set(3, 2, BUSH), Set(9, 2, BUSH), Set(3, 4, BUSH), Set(9, 4, BUSH)],
      [Point(0, 3), Point(12, 3), Point(6, 0)], {LEFT, RIGHT, DOWN}, {HORIZONTAL, BIG})
  }

  /** 5: `makeSmallVerticalRoom`. */
  function SmallVerticalRoom(): (s: TemplateSpec)
    ensures s.w > 0 && s.h > 0 && forall i :: 0 <= i < |s.doors| ==> OnEdge(s.w, s.h, s.doors[i])
    ensures forall i :: 0 <= i < |s.ops| ==> OpOk(s.ops[i], s.w, s.h)
  {
    TemplateSpec(5, 9,
      [Fill(SNOW), Boundary, Set(2, 2, STATUE), Set(2, 6, STATUE), Set(1, 4, FLOWER), Set(3, 4, FLOWER)],
      [Point(2, 0), Point(2, 8), Point(0, 4), Point(4, 4)], AllDirs, {VERTICAL, SMALL})
  }

  /** 6: `makeBigVerticalRoom`. */
  function BigVerticalRoom(): (s: TemplateSpec)
    ensures s.w > 0 && s.h > 0 && forall i :: 0 <= i < |s.doors| ==> OnEdge(s.w, s.h, s.doors[i])
    ensures forall i :: 0 <= i < |s.ops| ==> OpOk(s.ops[i], s.w, s.h)
  {
    TemplateSpec(7, 13,
      [Fill(FLOOR), Boundary,
       Set(3, 2, STATUE), Set(3, 6, STATUE), Set(3, 10, STATUE),
       Set(1, 4, TREE), Set(5, 4, TREE), Set(1, 8, TREE), Set(5, 8, TREE),
       Set(2, 6, FLOWER), Set(4, 6, FLOWER)],
      [Point(3, 0), Point(3, 12), Point(0, 6), Point(6, 6)], AllDirs, {VERTICAL, BIG})
  }

  /** 7: `makeSmallLRoom`. */
  function SmallLRoom(): (s: TemplateSpec)
    ensures s.w > 0 && s.h > 0 && forall i :: 0 <= i < |s.doors| ==> OnEdge(s.w, s.h, s.doors[i])
    ensures forall i :: 0 <= i < |s.ops| ==> OpOk(s.ops[i], s.w, s.h)
  {
    TemplateSpec(8, 8,
      [Fill(NOTHING), Rect(1, 1, 3, 6, SAND), Rect(1, 1, 6, 3, SAND),
       Set(2, 3, CRATE), Set(4, 2, FLOWER), WallsAround(SAND)],
      [Point(2, 7), Point(7, 2), Point(0, 2)], {UP, RIGHT, LEFT}, {L, SMALL})
  }

  /** 8: `makeSmallLRoomMirroredH`. */
  function SmallLRoomMirroredH(): (s: TemplateSpec)
    ensures s.w > 0 && s.h > 0 && forall i :: 0 <= i < |s.doors| ==> OnEdge(s.w, s.h, s.doors[i])
    ensures forall i :: 0 <= i < |s.ops| ==> OpOk(s.ops[i], s.w, s.h)
  {
    TemplateSpec(8, 8,
      [Fill(NOTHING), Rect(4, 1, 3, 6, SNOW), Rect(1, 1, 6, 3, SNOW),
       Set(5, 3, STATUE), Set(3, 2, FLOWER), WallsAround(SNOW)],
      [Point(5, 7), Point(0, 2), Point(5, 0)], {UP, LEFT, DOWN}, {L, SMALL})
  }

  /** 9: `makeSmallLRoomMirroredV`. */
  function SmallLRoomMirroredV(): (s: TemplateSpec)
    ensures s.w > 0 && s.h > 0 && forall i :: 0 <= i < |s.doors| ==> OnEdge(s.w, s.h, s.doors[i])
    ensures forall i :: 0 <= i < |s.ops| ==> OpOk(s.ops[i], s.w, s.h)
  {
    TemplateSpec(8, 8,
      [Fill(NOTHING), Rect(1, 1, 3, 6, SAND), Rect(1, 4, 6, 3, SAND),
       Set(2, 5, CRATE), Set(4, 5, FLOWER), Set(2, 3, FLOWER), WallsAround(SAND)],
      [Point(2, 0), Point(7, 5), Point(0, 5)], {DOWN, RIGHT, LEFT}, {L, SMALL})
  }

  /** 10: `makeSmallLRoomRotated180`. */
  function SmallLRoomRotated180(): (s: TemplateSpec)
    ensures s.w > 0 && s.h > 0 && forall i :: 0 <= i < |s.doors| ==> OnEdge(s.w, s.h, s.doors[i])
    ensures forall i :: 0 <= i < |s.ops| ==> OpOk(s.ops[i], s.w, s.h)
  {
    TemplateSpec(8, 8,
      [Fill(NOTHING), Rect(4, 1, 3, 6, GRASS), Rect(1, 4, 6, 3, GRASS),
       Set(5, 5, TREE), Set(3, 5, FLOWER), Set(5, 3, BUSH), WallsAround(GRASS)],
      [Point(5, 0), Point(0, 5), Point(5, 7)], {DOWN, LEFT, UP}, {L, SMALL})
  }

  /** 11: `makeBigLRoom` (tagged SMALL by its constructor). */
  function BigLRoom(): (s: TemplateSpec)
    ensures s.w > 0 && s.h > 0 && forall i :: 0 <= i < |s.doors| ==> OnEdge(s.w, s.h, s.doors[i])
    ensures forall i :: 0 <= i < |s.ops| ==> OpOk(s.ops[i], s.w, s.h)
  {
    TemplateSpec(12, 12,
      [Fill(NOTHING), Rect(1, 1, 5, 10, GRASS), Rect(1, 1, 10, 5, GRASS),
       Set(3, 3, TREE), Set(3, 7, TREE), Set(7, 3, TREE),
       Set(2, 2, FLOWER), Set(4, 2, FLOWER), Set(6, 2, FLOWER), Set(8, 2, FLOWER), WallsAround(GRASS)],
      [Point(3, 11), Point(11, 3), Point(3, 0), Point(0, 3)], AllDirs, {L, SMALL})
  }

  /** 12: `makeBigLRoomMirroredH`. */
  function BigLRoomMirroredH(): (s: TemplateSpec)
    ensures s.w > 0 && s.h > 0 && forall i :: 0 <= i < |s.doors| ==> OnEdge(s.w, s.h, s.doors[i])
    ensures forall i :: 0 <= i < |s.ops| ==> OpOk(s.ops[i], s.w, s.h)
  {
    TemplateSpec(12, 12,
      [Fill(NOTHING), Rect(6, 1, 5, 10, FLOOR), Rect(1, 1, 10, 5, FLOOR),
       Set(8, 3, STATUE), Set(8, 7, STATUE), Set(4, 3, TREE), Set(7, 3, FLOWER), Set(3, 3, FLOWER),
       WallsAround(FLOOR)],
      [Point(8, 11), Point(0, 3), Point(8, 0)], {UP, LEFT, DOWN}, {L, BIG})
  }

  /** 13: `makeBigLRoomMirroredV`; its door (3, 11) is on the top row, yet UP is not declared. */
  function BigLRoomMirroredV(): (s: TemplateSpec)
    ensures s.w > 0 && s.h > 0 && forall i :: 0 <= i < |s.doors| ==> OnEdge(s.w, s.h, s.doors[i])
    ensures forall i :: 0 <= i < |s.ops| ==> OpOk(s.ops[i], s.w, s.h)
  {
    TemplateSpec(12, 12,
      [Fill(NOTHING), Rect(1, 1, 5, 10, SNOW), Rect(1, 6, 10, 5, SNOW),
       Set(3, 3, STATUE), Set(3, 7, STATUE), Set(6, 8, FLOWER), Set(8, 8, FLOWER), WallsAround(SNOW)],
      [Point(3, 0), Point(11, 8), Point(3, 11)], {DOWN, RIGHT}, {L, BIG})
  }

  /** 14: `makeBigLRoomRotated180`. */
  function BigLRoomRotated180(): (s: TemplateSpec)
    ensures s.w > 0 && s.h > 0 && forall i :: 0 <= i < |s.doors| ==> OnEdge(s.w, s.h, s.doors[i])
    ensures forall i :: 0 <= i < |s.ops| ==> OpOk(s.ops[i], s.w, s.h)
  {
    TemplateSpec(12, 12,
      [Fill(NOTHING), Rect(6, 1, 5, 10, GRASS), Rect(1, 6, 10, 5, GRASS),
       Set(8, 3, TREE), Set(8, 7, TREE), Set(4, 8, TREE), Set(7, 8, TREE),
       Set(3, 8, FLOWER), Set(6, 8, FLOWER), Set(9, 8, FLOWER), WallsAround(GRASS)],
      [Point(8, 0), Point(0, 8), Point(11, 3)], {DOWN, LEFT, RIGHT}, {L, BIG})
  }

  /** 15: `makeSmallSquareRingRoom`; centre (w/2, h/2) = (3, 3). */
  function SmallSquareRingRoom(): (s: TemplateSpec)
    ensures s.w > 0 && s.h > 0 && forall i :: 0 <= i < |s.doors| ==> OnEdge(s.w, s.h, s.doors[i])
    ensures forall i :: 0 <= i < |s.ops| ==> OpOk(s.ops[i], s.w, s.h)
  {
    TemplateSpec(7, 7,
      [Fill(NOTHING), Ring(3, 3, 1, 2, SAND), Ring(3, 3, 2, 3, WALL), Ring(3, 3, 0, 1, WALL),
       Set(3, 1, FLOWER), Set(3, 5, FLOWER)],
      [Point(0, 3), Point(6, 3), Point(3, 6), Point(3, 0)], AllDirs, {RING, SMALL})
  }

  /** 16: `makeBigSquareRingRoom`; centre (6, 6). */
  function BigSquareRingRoom(): (s: TemplateSpec)
    ensures s.w > 0 && s.h > 0 && forall i :: 0 <= i < |s.doors| ==> OnEdge(s.w, s.h, s.doors[i])
    ensures forall i :: 0 <= i < |s.ops| ==> OpOk(s.ops[i], s.w, s.h)
  {
    TemplateSpec(13, 13,
      [Fill(NOTHING), Ring(6, 6, 2, 5, GRASS), Ring(6, 6, 5, 6, WALL), Ring(6, 6, 1, 2, WALL),
       Set(2, 6, TREE), Set(10, 6, TREE), Set(6, 2, TREE), Set(6, 10, TREE),
       Set(4, 6, STATUE), Set(8, 6, STATUE), Set(6, 4, FLOWER), Set(6, 8, FLOWER)],
      [Point(0, 6), Point(12, 6), Point(6, 0), Point(6, 12)], AllDirs, {RING, BIG})
  }

  /** 17: `makeSmallTRoom`. */
  function SmallTRoom(): (s: TemplateSpec)
    ensures s.w > 0 && s.h > 0 && forall i :: 0 <= i < |s.doors| ==> OnEdge(s.w, s.h, s.doors[i])
    ensures forall i :: 0 <= i < |s.ops| ==> OpOk(s.ops[i], s.w, s.h)
  {
    TemplateSpec(11, 8,
      [Fill(NOTHING), Rect(1, 4, 9, 3, FLOOR), Rect(4, 1, 3, 3, FLOOR),
       Set(3, 5, STATUE), Set(7, 5, STATUE), Set(5, 2, FLOWER), Set(2, 5, TREE), Set(8, 5, TREE),
       WallsAround(FLOOR)],
      [Point(5, 0), Point(0, 5), Point(10, 5)], {DOWN, LEFT, RIGHT}, {T, SMALL})
  }

  /**
   * 18: `makeMediumRoundTreasureRoom`: radius 5, w = h = 2 * 5 - 1 = 9, centre
   * (4, 4); the pillar loop visits (3, 3), (3, 5), (5, 3), (5, 5) in that order.
   */
  function MediumRoundTreasureRoom(): (s: TemplateSpec)
    ensures s.w > 0 && s.h > 0 && forall i :: 0 <= i < |s.doors| ==> OnEdge(s.w, s.h, s.doors[i])
    ensures forall i :: 0 <= i < |s.ops| ==> OpOk(s.ops[i], s.w, s.h)
  {
    TemplateSpec(9, 9,
      [Fill(NOTHING), Circle(4, 4, 5, WALL), Circle(4, 4, 4, SNOW), Set(4, 4, Tile.TREASURE),
       Set(3, 3, WALL), Set(3, 5, WALL), Set(5, 3, WALL), Set(5, 5, WALL)],
      [Point(4, 8), Point(4, 0), Point(0, 4), Point(8, 4)], AllDirs, {ROUND, RoomType.TREASURE})
  }

  /** 19: `makeLargeRoundTreasureRoom`: radius 7, w = h = 13, centre (6, 6). */
  function LargeRoundTreasureRoom(): (s: TemplateSpec)
    ensures s.w > 0 && s.h > 0 && forall i :: 0 <= i < |s.doors| ==> OnEdge(s.w, s.h, s.doors[i])
    ensures forall i :: 0 <= i < |s.ops| ==> OpOk(s.ops[i], s.w, s.h)
  {
    TemplateSpec(13, 13,
      [Fill(NOTHING), Circle(6, 6, 7, WALL), Circle(6, 6, 6, FLOOR), Circle(6, 6, 4, WALL), Circle(6, 6, 3, GRASS),
       Set(2, 6, FLOOR), Set(6, 2, FLOOR), Set(6, 10, FLOOR), Set(10, 6, FLOOR), Set(6, 6, Tile.TREASURE)],
      [Point(6, 12), Point(6, 0), Point(0, 6), Point(12, 6)], AllDirs, {BIG, ROUND, RoomType.TREASURE})
  }

  /** The constructors in the order the static block adds them. */
  function Specs(): seq<TemplateSpec>
  {
    [StartingRoom(), SmallSquareRoom(), BigSquareRoom(), SmallHorizontalRoom(), BigHorizontalRoom(),
     SmallVerticalRoom(), BigVerticalRoom(), SmallLRoom(), SmallLRoomMirroredH(), SmallLRoomMirroredV(),
     SmallLRoomRotated180(), BigLRoom(), BigLRoomMirroredH(), BigLRoomMirroredV(), BigLRoomRotated180(),
     SmallSquareRingRoom(), BigSquareRingRoom(), SmallTRoom(), MediumRoundTreasureRoom(), LargeRoundTreasureRoom()]
  }

  /** `ALL_TEMPLATES`. */
  function AllTemplates(): (all: seq<RoomTemplate>)
    ensures |all| == |Specs()| == 20
    ensures forall i :: 0 <= i < |all| ==> all[i] == Realize(Specs()[i])
  {
    seq(|Specs()|, i requires 0 <= i < |Specs()| => Realize(Specs()[i]))
  }

  /* ----------------------------------------------------------------------
   * Building the catalog
   * ---------------------------------------------------------------------- */

  /** One `makeX()`: allocate, paint, lock the doors, wrap. */
  method MakeTemplate(s: TemplateSpec) returns (t: RoomTemplate)
    requires SpecOk(s)
    ensures t == Realize(s)
  {
    var a := new Tile[s.w, s.h]((x, y) => NOTHING);
    GridExt(Cells(a), Blank(s.w, s.h));
    var ops := s.ops + [Doors(s.doors)];
    forall i | 0 <= i < |ops|
      ensures OpAllowed(ops[i], s.w, s.h)
    {
      if i < |s.ops| {
        assert ops[i] in s.ops;
      } else {
        forall k | 0 <= k < |s.doors| ensures 0 <= s.doors[k].x < s.w && 0 <= s.doors[k].y < s.h {
          assert s.doors[k] in s.doors;
        }
      }
    }
    PaintAll(a, ops);
    var layout := seq(s.w, x requires 0 <= x < s.w reads a => seq(s.h, y requires 0 <= y < s.h reads a => a[x, y]));
    GridExt(layout, Cells(a));
    t := RoomTemplate(s.w, s.h, layout, s.doors, s.dirs, s.types);
  }

  lemma SpecOkIntro(s: TemplateSpec)
    requires s.w > 0 && s.h > 0
    requires forall i :: 0 <= i < |s.ops| ==> OpOk(s.ops[i], s.w, s.h)
    requires forall i :: 0 <= i < |s.doors| ==> OnEdge(s.w, s.h, s.doors[i])
    ensures SpecOk(s)
  {
  }

  lemma SpecsOk()
    ensures forall i :: 0 <= i < |Specs()| ==> SpecOk(Specs()[i])
  {
    var specs := Specs();
    forall i | 0 <= i < |specs|
      ensures SpecOk(specs[i])
    {
      SpecOkIntro(specs[i]);
    }
  }

  /** The static block's first half: run the constructors in order. */
  method BuildTemplates(specs: seq<TemplateSpec>) returns (all: seq<RoomTemplate>)
    requires forall s :: s in specs ==> SpecOk(s)
    ensures |all| == |specs| && forall j :: 0 <= j < |specs| ==> all[j] == Realize(specs[j])
  {
    all := [];
    var i := 0;
    while i < |specs|
      invariant 0 <= i <= |specs|
      invariant |all| == i && forall j :: 0 <= j < i ==> all[j] == Realize(specs[j])
    {
      var t := MakeTemplate(specs[i]);
      all := all + [t];
      i := i + 1;
    }
  }

  /** `ALL_TEMPLATES`, as the static block builds it. */
  method InitTemplates() returns (all: seq<RoomTemplate>)
    ensures all == AllTemplates()
  {
    SpecsOk();
    var specs := Specs();
    forall s | s in specs ensures SpecOk(s) {
      var i :| 0 <= i < |specs| && specs[i] == s;
    }
    all := BuildTemplates(specs);
  }

  /* ----------------------------------------------------------------------
   * What the catalog guarantees
   * ---------------------------------------------------------------------- */

  /** A constructor's template has the declared size, doors on its boundary and no entity tile. */
  lemma RealizeWellFormed(s: TemplateSpec)
    requires SpecOk(s)
    ensures Realize(s).WellFormed()
    ensures Absent(Realize(s).layout, AVATAR) && Absent(Realize(s).layout, CHASER)
  {
    var ops := s.ops + [Doors(s.doors)];
    ApplyAllShape(Blank(s.w, s.h), ops, s.w, s.h);
    forall i | 0 <= i < |ops|
      ensures !Writes(ops[i], AVATAR) && !Writes(ops[i], CHASER)
    {
      if i < |s.ops| {
        assert ops[i] in s.ops;
      }
    }
    ApplyAllAbsent(Blank(s.w, s.h), ops, AVATAR);
    ApplyAllAbsent(Blank(s.w, s.h), ops, CHASER);
    forall i | 0 <= i < |s.doors|
      ensures Realize(s).OnBoundary(s.doors[i])
    {
      assert s.doors[i] in s.doors;
    }
  }

  /** Every template of `ALL_TEMPLATES` is well formed and holds neither AVATAR nor CHASER. */
  lemma CatalogWellFormed()
    ensures forall t :: t in AllTemplates() ==>
      t.WellFormed() && Absent(t.layout, AVATAR) && Absent(t.layout, CHASER)
  {
    SpecsOk();
    forall t | t in AllTemplates()
      ensures t.WellFormed() && Absent(t.layout, AVATAR) && Absent(t.layout, CHASER)
    {
      var i :| 0 <= i < |AllTemplates()| && AllTemplates()[i] == t;
      assert Specs()[i] in Specs();
      RealizeWellFormed(Specs()[i]);
    }
  }

  /** The `RoomTemplate` constructor stores its arguments as passed. */
  lemma RealizeKeepsFields(s: TemplateSpec)
    ensures Realize(s).width == s.w && Realize(s).height == s.h
    ensures Realize(s).doorPositions == s.doors && Realize(s).doorDirections == s.dirs
    ensures Realize(s).roomTypes == s.types
  {
  }

  /** `ALL_TEMPLATES[0]` is the starting room and no other template is typed STARTING. */
  lemma StartingRoomFirst()
    ensures STARTING in AllTemplates()[0].roomTypes
    ensures forall i :: 1 <= i < |AllTemplates()| ==> STARTING !in AllTemplates()[i].roomTypes
  {
    var specs := Specs();
    assert STARTING in specs[0].types;
    assert forall i :: 1 <= i < |specs| ==> STARTING !in specs[i].types;
    forall i | 0 <= i < |specs|
      ensures AllTemplates()[i].roomTypes == specs[i].types
    {
      RealizeKeepsFields(specs[i]);
    }
  }


  /* ----------------------------------------------------------------------
   * BY_DIRECTION
   * ---------------------------------------------------------------------- */

  /** `BY_DIRECTION.get(d)`: the non-STARTING templates declaring d, in catalog order. */
  function ByDirection(ts: seq<RoomTemplate>, d: Direction): seq<RoomTemplate>
    decreases |ts|
  {
    if ts == [] then []
    else if STARTING !in ts[0].roomTypes && d in ts[0].doorDirections then [ts[0]] + ByDirection(ts[1..], d)
    else ByDirection(ts[1..], d)
  }

  /** A template is listed under d exactly when it is in the catalog, not STARTING, and declares d. */
  lemma {:induction false} ByDirectionMembers(ts: seq<RoomTemplate>, d: Direction, t: RoomTemplate)
    ensures t in ByDirection(ts, d) <==> t in ts && STARTING !in t.roomTypes && d in t.doorDirections
    decreases |ts|
  {
    if ts != [] {
      ByDirectionMembers(ts[1..], d, t);
      assert ts == [ts[0]] + ts[1..];
    }
  }

  /** The index keeps catalog order: listing a concatenation lists each part in turn. */
  lemma {:induction false} ByDirectionAppend(xs: seq<RoomTemplate>, ys: seq<RoomTemplate>, d: Direction)
    ensures ByDirection(xs + ys, d) == ByDirection(xs, d) + ByDirection(ys, d)
    decreases |xs|
  {
    if xs == [] {
      assert xs + ys == ys;
    } else {
      assert (xs + ys)[1..] == xs[1..] + ys;
      ByDirectionAppend(xs[1..], ys, d);
    }
  }

  /** The inner loop of the index build: append t to the list of every direction it declares. */
  method AddToIndex(index: map<Direction, seq<RoomTemplate>>, t: RoomTemplate)
    returns (index': map<Direction, seq<RoomTemplate>>)
    requires index.Keys == AllDirs
    ensures index'.Keys == AllDirs
    ensures forall d :: d in index' ==> index'[d] == index[d] + (if d in t.doorDirections then [t] else [])
  {
    index' := index;
    var todo := t.doorDirections;
    while todo != {}
      invariant todo <= t.doorDirections
      invariant index'.Keys == AllDirs
      invariant forall d :: d in index' ==>
        index'[d] == index[d] + (if d in t.doorDirections && d !in todo then [t] else [])
      decreases todo
    {
      var d :| d in todo;
      assert d in AllDirs by { assert d.UP? || d.DOWN? || d.LEFT? || d.RIGHT?; }
      index' := index'[d := index'[d] + [t]];
      todo := todo - {d};
    }
  }

  /** The static block's second half: one list per direction, filled in catalog order. */
  method BuildIndex(ts: seq<RoomTemplate>) returns (index: map<Direction, seq<RoomTemplate>>)
    ensures index.Keys == AllDirs
    ensures forall d :: d in index ==> index[d] == ByDirection(ts, d)
  {
    index := map[UP := [], DOWN := [], LEFT := [], RIGHT := []];
    var i := 0;
    while i < |ts|
      invariant 0 <= i <= |ts|
      invariant index.Keys == AllDirs
      invariant forall d :: d in index ==> index[d] == ByDirection(ts[..i], d)
    {
      var t := ts[i];
      ghost var before := index;
      if STARTING !in t.roomTypes {
        index := AddToIndex(index, t);
      }
      assert ts[..i + 1] == ts[..i] + [t];
      forall d | d in index
        ensures index[d] == ByDirection(ts[..i + 1], d)
      {
        ByDirectionAppend(ts[..i], [t], d);
      }
      i := i + 1;
    }
    assert ts[..i] == ts;
  }

  /**
   * Template 13's door (3, 11) is on the top row, so it faces UP, but the
   * template declares only DOWN and RIGHT and is never offered under UP.
   */
  lemma MirroredBigLNotUnderUp()
    ensures Point(3, 11) in AllTemplates()[13].doorPositions
    ensures AllTemplates()[13].DoorSide(Point(3, 11)) == Some(UP)
    ensures AllTemplates()[13] !in ByDirection(AllTemplates(), UP)
  {
    var s := Specs()[13];
    assert s == BigLRoomMirroredV();
    RealizeKeepsFields(s);
    var t := AllTemplates()[13];
    assert t.doorPositions == s.doors && t.doorDirections == {DOWN, RIGHT};
    assert t.doorPositions[2] == Point(3, 11);
    ByDirectionMembers(AllTemplates(), UP, t);
  }

}
