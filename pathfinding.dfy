/**
 * `Pathfinder.java`: breadth-first search over the finished grid, returning
 * the cells after `start` up to and including `target`.
 *
 * The search is proved against `Reach`, the cells reachable from `start` in
 * at most `k` steps: a returned path is a walk to the target of the least
 * possible length, and an empty result for distinct in-bounds endpoints means
 * no walk reaches the target.
 */
module Pathfinding {
  import opened Wrappers
  import opened Tiles
  import opened Directions

  /** `Pathfinder.isWalkableTile`: every kind except fifteen obstacles, the avatar among them. */
  predicate IsWalkableTile(t: Tile)
  {
    t != AVATAR && t != WALL && t != NOTHING && t != WATER && t != LOCKED_DOOR &&
    t != MOUNTAIN && t != BUSH && t != TREE && t != PORTAL && t != TREASURE &&
    t != OPENED_CHEST && t != STATUE && t != CRATE && t != BOOKSHELF && t != SNOWMAN
  }

  /** The search may enter a cell holding `t`: a walkable kind, or one of the two entity markers. */
  predicate Traversable(t: Tile)
  {
    IsWalkableTile(t) || t == CHASER || t == AVATAR
  }

  /**
   * The entity markers never block the search: the cells it refuses are
   * exactly the fourteen terrain obstacles.
   */
  lemma TraversableKinds(t: Tile)
    ensures Traversable(t) <==>
      t !in {WALL, NOTHING, WATER, LOCKED_DOOR, MOUNTAIN, BUSH, TREE, PORTAL,
             TREASURE, OPENED_CHEST, STATUE, CRATE, BOOKSHELF, SNOWMAN}
    ensures Traversable(CHASER) && Traversable(AVATAR) && !IsWalkableTile(AVATAR)
  {
  }

  /** The search can stand on `p`: inside the grid and traversable. */
  ghost predicate Passable(world: array2<Tile>, p: Point)
    reads world
  {
    InArray(world, p) && Traversable(world[p.x, p.y])
  }

  /** `w` is a walk from `from` (which it does not list): each cell passable and next to the one before. */
  ghost predicate IsWalk(world: array2<Tile>, from: Point, w: seq<Point>)
    reads world
    decreases |w|
  {
    |w| == 0 ||
    (Passable(world, w[0]) && Adjacent(w[0].x, w[0].y, from.x, from.y) && IsWalk(world, w[0], w[1..]))
  }

  /** Where a walk from `from` ends. */
  function Last(from: Point, w: seq<Point>): Point
  {
    if |w| == 0 then from else w[|w| - 1]
  }

  /** `v` can be reached from `start` in at most `k` steps through passable cells. */
  ghost predicate Reach(world: array2<Tile>, start: Point, k: nat, v: Point)
    reads world
    decreases k
  {
    if k == 0 then v == start
    else
      Reach(world, start, k - 1, v) ||
      (Passable(world, v) && exists d: Direction :: Reach(world, start, k - 1, Step(v, d)))
  }

  /* ----------------------------------------------------------------------
   * Reachability
   * ---------------------------------------------------------------------- */

  /** One more step from a reachable cell onto a passable neighbour. */
  lemma ReachStep(world: array2<Tile>, start: Point, k: nat, u: Point, d: Direction)
    requires Reach(world, start, k, u) && Passable(world, Step(u, d))
    ensures Reach(world, start, k + 1, Step(u, d))
  {
    StepBack(u, d);
    assert Reach(world, start, k, Step(Step(u, d), d.Opposite()));
  }

  /** A cell first reached at `k` steps is passable and next to a cell reached in `k - 1`. */
  lemma ReachPred(world: array2<Tile>, start: Point, k: nat, v: Point) returns (d: Direction)
    requires k > 0 && Reach(world, start, k, v) && !Reach(world, start, k - 1, v)
    ensures Passable(world, v) && Reach(world, start, k - 1, Step(v, d))
  {
    d :| Reach(world, start, k - 1, Step(v, d));
  }

  /** More steps reach at least the same cells. */
  lemma {:induction false} ReachMono(world: array2<Tile>, start: Point, k: nat, m: nat, v: Point)
    requires k <= m && Reach(world, start, k, v)
    ensures Reach(world, start, m, v)
    decreases m - k
  {
    if k < m {
      ReachMono(world, start, k, m - 1, v);
    }
  }

  /** A walk of `n - k` cells from a cell reached in `k` steps ends at a cell reached in `n`. */
  lemma {:induction false} WalkExtends(world: array2<Tile>, start: Point, k: nat, u: Point, w: seq<Point>, n: nat)
    requires Reach(world, start, k, u) && IsWalk(world, u, w) && n == k + |w|
    ensures Reach(world, start, n, Last(u, w))
    decreases |w|
  {
    if |w| > 0 {
      WalkFirst(world, start, k, u, w);
      WalkExtends(world, start, k + 1, w[0], w[1..], n);
      assert Last(w[0], w[1..]) == Last(u, w);
    }
  }

  /** The first cell of a walk from a cell reached in `k` steps is reached in `k + 1`. */
  lemma WalkFirst(world: array2<Tile>, start: Point, k: nat, u: Point, w: seq<Point>)
    requires Reach(world, start, k, u) && IsWalk(world, u, w) && |w| > 0
    ensures Reach(world, start, k + 1, w[0]) && IsWalk(world, w[0], w[1..])
  {
    AdjacentIsStep(u, w[0]);
    var d :| w[0] == Step(u, d);
    ReachStep(world, start, k, u, d);
  }

  /** A walk of `n` cells from `start` reaches its end within `n` steps. */
  lemma WalkReach(world: array2<Tile>, start: Point, w: seq<Point>)
    requires IsWalk(world, start, w)
    ensures Reach(world, start, |w|, Last(start, w))
  {
    WalkExtends(world, start, 0, start, w, |w|);
  }

  /** A walk extended by a passable neighbour of its end is a walk. */
  lemma {:induction false} WalkSnoc(world: array2<Tile>, from: Point, w: seq<Point>, v: Point)
    requires IsWalk(world, from, w)
    requires Passable(world, v) && Adjacent(v.x, v.y, Last(from, w).x, Last(from, w).y)
    ensures IsWalk(world, from, w + [v]) && Last(from, w + [v]) == v
    decreases |w|
  {
    if |w| > 0 {
      WalkSnoc(world, w[0], w[1..], v);
      assert (w + [v])[1..] == w[1..] + [v];
      assert Last(w[0], w[1..]) == Last(from, w);
    }
  }

  /** Conversely, a cell reached within `k` steps ends a walk from `start` of at most `k` cells. */
  lemma {:induction false} ReachWalk(world: array2<Tile>, start: Point, k: nat, v: Point)
    returns (w: seq<Point>)
    requires Reach(world, start, k, v)
    ensures IsWalk(world, start, w) && |w| <= k && Last(start, w) == v
    decreases k
  {
    if k == 0 {
      w := [];
    } else {
      var p := ReachPrev(world, start, k, v);
      var u := ReachWalk(world, start, k - 1, p);
      w := EnterWalk(world, start, u, p, v);
    }
  }

  /** A cell reached in `k > 0` steps was reached in `k - 1`, or is a passable neighbour of such a cell. */
  lemma ReachPrev(world: array2<Tile>, start: Point, k: nat, v: Point) returns (p: Point)
    requires k > 0 && Reach(world, start, k, v)
    ensures Reach(world, start, k - 1, p)
    ensures p == v || (Passable(world, v) && Adjacent(v.x, v.y, p.x, p.y))
  {
    if Reach(world, start, k - 1, v) {
      p := v;
    } else {
      var d := ReachPred(world, start, k, v);
      p := Step(v, d);
    }
  }

  /** A walk ending at `p` stays, or extends to a walk ending at `v` when `v` is a passable neighbour of `p`. */
  lemma EnterWalk(world: array2<Tile>, start: Point, u: seq<Point>, p: Point, v: Point) returns (w: seq<Point>)
    requires IsWalk(world, start, u) && Last(start, u) == p
    requires p == v || (Passable(world, v) && Adjacent(v.x, v.y, p.x, p.y))
    ensures IsWalk(world, start, w) && Last(start, w) == v && |w| <= |u| + 1
  {
    if p == v {
      w := u;
    } else {
      WalkSnoc(world, start, u, v);
      w := u + [v];
    }
  }

  /** The neighbour of `u` in direction `d` is in `visited` if the search could enter it. */
  ghost predicate Covered(world: array2<Tile>, u: Point, visited: set<Point>, d: Direction)
    reads world
  {
    Passable(world, Step(u, d)) ==> Step(u, d) in visited
  }

  /** Every neighbour the search could enter from `u` is in `visited`. */
  ghost predicate Closed(world: array2<Tile>, u: Point, visited: set<Point>)
    reads world
  {
    forall d: Direction :: Passable(world, Step(u, d)) ==> Step(u, d) in visited
  }

  /** A walk from a cell of a set closed under passable neighbours never leaves the set. */
  lemma {:induction false} WalkStaysIn(world: array2<Tile>, from: Point, visited: set<Point>, w: seq<Point>)
    requires from in visited
    requires forall u :: u in visited ==> Closed(world, u, visited)
    requires IsWalk(world, from, w)
    ensures Last(from, w) in visited
    decreases |w|
  {
    if |w| > 0 {
      AdjacentIsStep(from, w[0]);
      var d :| w[0] == Step(from, d);
      assert Closed(world, from, visited);
      WalkStaysIn(world, w[0], visited, w[1..]);
      assert Last(w[0], w[1..]) == Last(from, w);
    }
  }

  /** A walk longer than `level` is needed to reach a cell not reachable within `level` steps. */
  lemma Shortest(world: array2<Tile>, start: Point, target: Point, level: nat, w: seq<Point>)
    requires !Reach(world, start, level, target)
    requires IsWalk(world, start, w) && Last(start, w) == target
    ensures |w| > level
  {
    WalkReach(world, start, w);
    if |w| <= level {
      ReachMono(world, start, |w|, level, target);
    }
  }

  /** No walk from `start` leaves a set that holds `start` and is closed under passable neighbours. */
  lemma NoWalk(world: array2<Tile>, start: Point, target: Point, visited: set<Point>, w: seq<Point>)
    requires start in visited && target !in visited
    requires forall u :: u in visited ==> Closed(world, u, visited)
    requires IsWalk(world, start, w)
    ensures Last(start, w) != target
  {
    WalkStaysIn(world, start, visited, w);
  }

  /** `w` is a walk from `s` to `t` no longer than any other such walk. */
  ghost predicate ShortestWalk(world: array2<Tile>, s: Point, t: Point, w: seq<Point>)
    reads world
  {
    IsWalk(world, s, w) && Last(s, w) == t &&
    forall v :: IsWalk(world, s, v) && Last(s, v) == t ==> |w| <= |v|
  }

  /** No walk from `s` ends at `t`. */
  ghost predicate Unreachable(world: array2<Tile>, s: Point, t: Point)
    reads world
  {
    forall w :: IsWalk(world, s, w) ==> Last(s, w) != t
  }

  /* ----------------------------------------------------------------------
   * The search state and what it keeps
   * ---------------------------------------------------------------------- */

  /** The three collections of `findPath`: the FIFO queue, the visited set and the parent map. */
  datatype Search = Search(queue: seq<Point>, visited: set<Point>, parent: map<Point, Option<Point>>)

  /**
   * The parent map: `start` maps to nothing, every other visited cell to a
   * visited neighbour one step nearer, and every visited cell is passable
   * except possibly `start`.
   */
  ghost predicate ParentsOk(world: array2<Tile>, start: Point, visited: set<Point>,
                            parent: map<Point, Option<Point>>, dist: map<Point, nat>)
    reads world
  {
    start in visited && visited == dist.Keys && dist[start] == 0 &&
    start in parent && parent[start] == None &&
    forall v :: v in visited && v != start ==> ParentOk(world, parent, dist, v)
  }

  ghost predicate ParentOk(world: array2<Tile>, parent: map<Point, Option<Point>>, dist: map<Point, nat>, v: Point)
    reads world
  {
    v in dist && v in parent && parent[v].Some? && parent[v].value in dist &&
    dist[v] == dist[parent[v].value] + 1 &&
    Adjacent(v.x, v.y, parent[v].value.x, parent[v].value.y) && Passable(world, v)
  }

  /** No visited cell is reachable in fewer steps than its recorded distance. */
  ghost predicate Optimal(world: array2<Tile>, start: Point, visited: set<Point>, dist: map<Point, nat>)
    reads world
  {
    forall v :: v in visited && v != start ==> v in dist && dist[v] >= 1 && !Reach(world, start, dist[v] - 1, v)
  }

  /** Everything reachable within `level` steps has been visited. */
  ghost predicate Complete(world: array2<Tile>, start: Point, visited: set<Point>, level: nat)
    reads world
  {
    forall v :: Reach(world, start, level, v) ==> v in visited
  }

  /** Every visited cell no longer queued (other than the one being expanded) is closed. */
  ghost predicate Settled(world: array2<Tile>, s: Search, current: Option<Point>)
    reads world
  {
    forall u :: u in s.visited && u !in s.queue && Some(u) != current ==> Closed(world, u, s.visited)
  }

  /** The queue holds visited cells in order of distance, all at `level` or `level + 1`. */
  ghost predicate Layered(s: Search, dist: map<Point, nat>, level: nat)
  {
    (forall i :: 0 <= i < |s.queue| ==> s.queue[i] in dist && level <= dist[s.queue[i]] <= level + 1) &&
    (forall i, j :: 0 <= i < j < |s.queue| && s.queue[i] in dist && s.queue[j] in dist ==>
      dist[s.queue[i]] <= dist[s.queue[j]]) &&
    (forall v :: v in dist ==> dist[v] <= level + 1)
  }

  /** The grid's cells, which bound the visited set. */
  function AllCells(width: int, height: int): set<Point>
  {
    set x, y | 0 <= x < width && 0 <= y < height :: Point(x, y)
  }

  /** What holds at the head of each round of the search. */
  ghost predicate Inv(world: array2<Tile>, start: Point, target: Point, s: Search,
                      dist: map<Point, nat>, level: nat, current: Option<Point>)
    reads world
  {
    ParentsOk(world, start, s.visited, s.parent, dist) &&
    Optimal(world, start, s.visited, dist) &&
    Complete(world, start, s.visited, level) &&
    Settled(world, s, current) &&
    Layered(s, dist, level) &&
    s.visited <= AllCells(world.Length0, world.Length1) &&
    target !in s.visited
  }

  /** What holds when the target has just been visited. */
  ghost predicate Found(world: array2<Tile>, start: Point, target: Point, s: Search,
                        dist: map<Point, nat>, level: nat)
    reads world
  {
    ParentsOk(world, start, s.visited, s.parent, dist) &&
    target in s.visited && target != start && dist[target] == level + 1 &&
    !Reach(world, start, level, target)
  }

  /** Visiting a new cell leaves fewer unvisited cells. */
  lemma Shrinks(all: set<Point>, visited: set<Point>, n: Point)
    requires n in all && n !in visited
    ensures |all - (visited + {n})| < |all - visited|
  {
    assert all - (visited + {n}) == (all - visited) - {n};
  }

  /**
   * Once the queue holds only cells at `level + 1`, every cell at `level` or
   * nearer has been expanded, so everything within `level + 1` steps has
   * been visited.
   */
  lemma LevelUp(world: array2<Tile>, start: Point, s: Search, dist: map<Point, nat>, level: nat)
    requires start in dist && dist[start] == 0
    requires Optimal(world, start, s.visited, dist)
    requires Complete(world, start, s.visited, level)
    requires Settled(world, s, None)
    requires forall i :: 0 <= i < |s.queue| ==> s.queue[i] in dist && dist[s.queue[i]] == level + 1
    ensures Complete(world, start, s.visited, level + 1)
  {
    forall v | Reach(world, start, level + 1, v)
      ensures v in s.visited
    {
      ReachedCell(world, start, s, dist, level, v);
    }
  }

  /** One cell of `LevelUp`: a cell reached within `level + 1` steps has been visited. */
  lemma ReachedCell(world: array2<Tile>, start: Point, s: Search, dist: map<Point, nat>, level: nat, v: Point)
    requires start in dist && dist[start] == 0
    requires Optimal(world, start, s.visited, dist)
    requires Complete(world, start, s.visited, level)
    requires Settled(world, s, None)
    requires forall i :: 0 <= i < |s.queue| ==> s.queue[i] in dist && dist[s.queue[i]] == level + 1
    requires Reach(world, start, level + 1, v)
    ensures v in s.visited
  {
    if !Reach(world, start, level, v) {
      var d := ReachPred(world, start, level + 1, v);
      assert Step(v, d) in s.visited;
      NotQueued(world, start, s, dist, level, Step(v, d));
      EnteredFromSettled(world, s, v, d);
    }
  }

  /** A passable neighbour of a settled cell has been visited. */
  lemma EnteredFromSettled(world: array2<Tile>, s: Search, v: Point, d: Direction)
    requires Settled(world, s, None) && Passable(world, v)
    requires Step(v, d) in s.visited && Step(v, d) !in s.queue
    ensures v in s.visited
  {
    var u := Step(v, d);
    StepBack(v, d);
    assert Closed(world, u, s.visited);
  }

  /** A visited cell reachable within `level` steps is not among the queued cells at `level + 1`. */
  lemma NotQueued(world: array2<Tile>, start: Point, s: Search, dist: map<Point, nat>, level: nat, u: Point)
    requires start in dist && dist[start] == 0
    requires Optimal(world, start, s.visited, dist)
    requires forall i :: 0 <= i < |s.queue| ==> s.queue[i] in dist && dist[s.queue[i]] == level + 1
    requires u in s.visited && Reach(world, start, level, u)
    ensures u !in s.queue
  {
    forall i | 0 <= i < |s.queue|
      ensures s.queue[i] != u
    {
    }
  }

  /** Moving to the next level when the front of the queue is one step further out. */
  lemma Advance(world: array2<Tile>, start: Point, target: Point, s: Search, dist: map<Point, nat>, level: nat)
    requires Inv(world, start, target, s, dist, level, None)
    requires |s.queue| > 0 && dist[s.queue[0]] == level + 1
    ensures Inv(world, start, target, s, dist, level + 1, None)
  {
    forall i | 0 <= i < |s.queue|
      ensures s.queue[i] in dist && dist[s.queue[i]] == level + 1
    {
      if i > 0 {
        assert dist[s.queue[0]] <= dist[s.queue[i]];
      }
    }
    LevelUp(world, start, s, dist, level);
  }

  /** Taking the front cell off the queue to expand it. */
  lemma Dequeue(world: array2<Tile>, start: Point, target: Point, s: Search, dist: map<Point, nat>, level: nat)
    requires Inv(world, start, target, s, dist, level, None)
    requires |s.queue| > 0 && dist[s.queue[0]] == level
    ensures Inv(world, start, target, s.(queue := s.queue[1..]), dist, level, Some(s.queue[0]))
  {
    var s' := s.(queue := s.queue[1..]);
    assert s.queue == [s.queue[0]] + s'.queue;
    forall u | u in s'.visited && u !in s'.queue && Some(u) != Some(s.queue[0])
      ensures Closed(world, u, s'.visited)
    {
      assert u !in s.queue;
    }
    assert Layered(s', dist, level) by {
      forall i, j | 0 <= i < j < |s'.queue| && s'.queue[i] in dist && s'.queue[j] in dist
        ensures dist[s'.queue[i]] <= dist[s'.queue[j]]
      {
        assert s'.queue[i] == s.queue[i + 1] && s'.queue[j] == s.queue[j + 1];
      }
    }
  }

  /** The expanded cell is closed, so the search state holds again with nothing in expansion. */
  lemma Expanded(world: array2<Tile>, start: Point, target: Point, s: Search, dist: map<Point, nat>, level: nat,
                 current: Point)
    requires Inv(world, start, target, s, dist, level, Some(current))
    requires Closed(world, current, s.visited)
    ensures Inv(world, start, target, s, dist, level, None)
  {
  }

  /* ----------------------------------------------------------------------
   * Visiting one neighbour
   * ---------------------------------------------------------------------- */

  /** Recording a new neighbour `next` of `current` keeps the parent map consistent. */
  lemma DiscoveredParents(world: array2<Tile>, start: Point, current: Point, next: Point,
                          visited: set<Point>, parent: map<Point, Option<Point>>, dist: map<Point, nat>)
    requires ParentsOk(world, start, visited, parent, dist)
    requires current in visited && next !in visited
    requires Passable(world, next) && Adjacent(next.x, next.y, current.x, current.y)
    ensures ParentsOk(world, start, visited + {next}, parent[next := Some(current)],
                      dist[next := dist[current] + 1])
  {
    var parent' := parent[next := Some(current)];
    var dist' := dist[next := dist[current] + 1];
    forall v | v in visited + {next} && v != start
      ensures ParentOk(world, parent', dist', v)
    {
      if v != next {
        assert ParentOk(world, parent, dist, v);
      }
    }
  }

  /** Queueing a new neighbour keeps the queue ordered by distance. */
  lemma DiscoveredLayered(s: Search, dist: map<Point, nat>, level: nat, next: Point)
    requires Layered(s, dist, level) && next !in dist
    ensures Layered(s.(queue := s.queue + [next]), dist[next := level + 1], level)
  {
    var q := s.queue + [next];
    var dist' := dist[next := level + 1];
    forall i | 0 <= i < |q|
      ensures q[i] in dist' && level <= dist'[q[i]] <= level + 1
    {
      if i < |s.queue| {
        assert q[i] == s.queue[i];
      }
    }
    forall i, j | 0 <= i < j < |q| && q[i] in dist' && q[j] in dist'
      ensures dist'[q[i]] <= dist'[q[j]]
    {
      assert q[i] == s.queue[i] && q[i] in dist && q[i] != next;
      if j < |s.queue| {
        assert q[j] == s.queue[j] && q[j] in dist && q[j] != next;
      }
    }
  }

  /** A new cell at distance `level + 1` that is not reachable within `level` keeps the distances optimal. */
  lemma DiscoveredOptimal(world: array2<Tile>, start: Point, visited: set<Point>, dist: map<Point, nat>,
                          level: nat, next: Point)
    requires Optimal(world, start, visited, dist) && !Reach(world, start, level, next)
    ensures Optimal(world, start, visited + {next}, dist[next := level + 1])
  {
  }

  /** Visiting a new cell keeps every settled cell closed. */
  lemma DiscoveredSettled(world: array2<Tile>, s: Search, current: Point, next: Point)
    requires Settled(world, s, Some(current))
    ensures Settled(world, Search(s.queue + [next], s.visited + {next}, s.parent[next := Some(current)]), Some(current))
  {
    var s' := Search(s.queue + [next], s.visited + {next}, s.parent[next := Some(current)]);
    forall u | u in s'.visited && u !in s'.queue && Some(u) != Some(current)
      ensures Closed(world, u, s'.visited)
    {
      assert u in s.visited && u !in s.queue;
      assert Closed(world, u, s.visited);
    }
  }

  /** What visiting a new passable neighbour of the cell being expanded keeps. */
  lemma Discovered(world: array2<Tile>, start: Point, target: Point, current: Point, next: Point,
                   s: Search, dist: map<Point, nat>, level: nat)
    requires Inv(world, start, target, s, dist, level, Some(current))
    requires current in dist && dist[current] == level
    requires Passable(world, next) && next !in s.visited
    requires Adjacent(next.x, next.y, current.x, current.y)
    ensures next in AllCells(world.Length0, world.Length1)
    ensures var s' := Search(s.queue + [next], s.visited + {next}, s.parent[next := Some(current)]);
      var dist' := dist[next := level + 1];
      (next != target ==> Inv(world, start, target, s', dist', level, Some(current))) &&
      (next == target ==> Found(world, start, target, s', dist', level))
  {
    assert next == Point(next.x, next.y);
    DiscoveredParents(world, start, current, next, s.visited, s.parent, dist);
    DiscoveredLayered(s, dist, level, next);
    DiscoveredOptimal(world, start, s.visited, dist, level, next);
    DiscoveredSettled(world, s, current, next);
  }

  /**
   * One pass of the direction loop of `findPath`: the neighbour of `current`
   * in direction `dir` is visited, recorded and queued if it is inside the
   * grid, new and traversable.
   */
  method Visit(world: array2<Tile>, start: Point, target: Point, current: Point, dir: Direction,
               s: Search, ghost dist: map<Point, nat>, ghost level: nat)
    returns (s': Search, ghost dist': map<Point, nat>, found: bool)
    requires Inv(world, start, target, s, dist, level, Some(current))
    requires current in dist && dist[current] == level
    ensures !found ==> Inv(world, start, target, s', dist', level, Some(current))
    ensures !found ==> Covered(world, current, s'.visited, dir)
    ensures found ==> Found(world, start, target, s', dist', level)
    ensures s.visited <= s'.visited && current in dist' && dist'[current] == level
    ensures (s' == s && dist' == dist) ||
      |AllCells(world.Length0, world.Length1) - s'.visited| < |AllCells(world.Length0, world.Length1) - s.visited|
  {
    s', dist', found := s, dist, false;
    var next := Step(current, dir);
    if next.x < 0 || next.x >= world.Length0 || next.y < 0 || next.y >= world.Length1 {
      return;
    }
    if next in s.visited {
      return;
    }
    var tile := world[next.x, next.y];
    if !IsWalkableTile(tile) && tile != CHASER && tile != AVATAR {
      return;
    }
    s' := Search(s.queue + [next], s.visited + {next}, s.parent[next := Some(current)]);
    dist' := dist[next := level + 1];
    found := next == target;
    Discovered(world, start, target, current, next, s, dist, level);
    Shrinks(AllCells(world.Length0, world.Length1), s.visited, next);
  }

  /** Directions already covered stay covered as the visited set grows. */
  lemma CoveredGrows(world: array2<Tile>, current: Point, dirs: seq<Direction>, i: nat,
                     visited: set<Point>, visited': set<Point>)
    requires i < |dirs| && visited <= visited'
    requires forall j :: 0 <= j < i ==> Covered(world, current, visited, dirs[j])
    requires Covered(world, current, visited', dirs[i])
    ensures forall j :: 0 <= j < i + 1 ==> Covered(world, current, visited', dirs[j])
  {
  }

  /**
   * The direction loop of `findPath` over `dirs`: each neighbour of `current`
   * in turn, stopping as soon as the target is visited.
   */
  method VisitAll(world: array2<Tile>, start: Point, target: Point, current: Point, dirs: seq<Direction>,
                  s: Search, ghost dist: map<Point, nat>, ghost level: nat)
    returns (s': Search, ghost dist': map<Point, nat>, found: bool)
    requires Inv(world, start, target, s, dist, level, Some(current))
    requires current in dist && dist[current] == level
    ensures !found ==> Inv(world, start, target, s', dist', level, Some(current))
    ensures !found ==> forall j :: 0 <= j < |dirs| ==> Covered(world, current, s'.visited, dirs[j])
    ensures found ==> Found(world, start, target, s', dist', level)
    ensures (s'.visited == s.visited && s'.queue == s.queue) ||
      |AllCells(world.Length0, world.Length1) - s'.visited| < |AllCells(world.Length0, world.Length1) - s.visited|
  {
    s', dist', found := s, dist, false;
    var i := 0;
    while i < |dirs|
      invariant 0 <= i <= |dirs|
      invariant Inv(world, start, target, s', dist', level, Some(current))
      invariant current in dist' && dist'[current] == level
      invariant forall j :: 0 <= j < i ==> Covered(world, current, s'.visited, dirs[j])
      invariant (s'.visited == s.visited && s'.queue == s.queue) ||
        |AllCells(world.Length0, world.Length1) - s'.visited| < |AllCells(world.Length0, world.Length1) - s.visited|
    {
      var found';
      ghost var before := s'.visited;
      s', dist', found' := Visit(world, start, target, current, dirs[i], s', dist', level);
      if found' {
        return s', dist', true;
      }
      CoveredGrows(world, current, dirs, i, before, s'.visited);
      i := i + 1;
    }
  }

  /** The direction loop of `findPath` for one dequeued cell, in the order of `Direction.values()`. */
  method Expand(world: array2<Tile>, start: Point, target: Point, current: Point,
                s: Search, ghost dist: map<Point, nat>, ghost level: nat)
    returns (s': Search, ghost dist': map<Point, nat>, found: bool)
    requires Inv(world, start, target, s, dist, level, Some(current))
    requires current in dist && dist[current] == level
    ensures !found ==> Inv(world, start, target, s', dist', level, None)
    ensures found ==> Found(world, start, target, s', dist', level)
    ensures (s'.visited == s.visited && s'.queue == s.queue) ||
      |AllCells(world.Length0, world.Length1) - s'.visited| < |AllCells(world.Length0, world.Length1) - s.visited|
  {
    s', dist', found := VisitAll(world, start, target, current, Values, s, dist, level);
    if !found {
      forall d: Direction
        ensures Passable(world, Step(current, d)) ==> Step(current, d) in s'.visited
      {
        ValuesComplete(d);
        var j :| 0 <= j < |Values| && Values[j] == d;
        assert Covered(world, current, s'.visited, Values[j]);
      }
      Expanded(world, start, target, s', dist', level, current);
    }
  }

  /**
   * `reconstructPath(parent, start, target)`: follows parents back from the
   * target, prepending each cell, until it reaches `start`.
   */
  method ReconstructPath(parent: map<Point, Option<Point>>, start: Point, target: Point,
                         ghost world: array2<Tile>, ghost visited: set<Point>, ghost dist: map<Point, nat>)
    returns (path: seq<Point>)
    requires ParentsOk(world, start, visited, parent, dist)
    requires target in visited
    ensures IsWalk(world, start, path) && |path| == dist[target] && Last(start, path) == target
    ensures start !in path
  {
    path := [];
    var current: Option<Point> := Some(target);
    while current.Some? && current.value != start
      invariant current.Some? && current.value in visited
      invariant |path| + dist[current.value] == dist[target]
      invariant IsWalk(world, current.value, path) && Last(current.value, path) == target
      invariant forall i :: 0 <= i < |path| ==> path[i] in dist && dist[path[i]] > 0
      decreases dist[current.value]
    {
      var c := current.value;
      assert ParentOk(world, parent, dist, c);
      ghost var rest := path;
      path := [c] + path;
      assert path[1..] == rest;
      current := if c in parent then parent[c] else None;
    }
  }

  /** The search ends with the target visited: the parents give a shortest walk to it. */
  method Answer(world: array2<Tile>, start: Point, target: Point, s: Search,
                ghost dist: map<Point, nat>, ghost level: nat)
    returns (path: seq<Point>)
    requires Found(world, start, target, s, dist, level)
    ensures path != [] && ShortestWalk(world, start, target, path) && start !in path
  {
    path := ReconstructPath(s.parent, start, target, world, s.visited, dist);
    forall w | IsWalk(world, start, w) && Last(start, w) == target
      ensures |path| <= |w|
    {
      Shortest(world, start, target, level, w);
    }
  }

  /** The queue ran dry without visiting the target: no walk from `start` ends there. */
  lemma Exhausted(world: array2<Tile>, start: Point, target: Point, s: Search, dist: map<Point, nat>, level: nat)
    requires Inv(world, start, target, s, dist, level, None) && |s.queue| == 0
    ensures Unreachable(world, start, target)
  {
    forall w | IsWalk(world, start, w)
      ensures Last(start, w) != target
    {
      NoWalk(world, start, target, s.visited, w);
    }
  }

  /** The first state of the search: only `start`, queued and visited, at distance 0. */
  lemma Initial(world: array2<Tile>, start: Point, target: Point)
    requires InArray(world, start) && start != target
    ensures Inv(world, start, target, Search([start], {start}, map[start := None]), map[start := 0], 0, None)
  {
    assert start == Point(start.x, start.y);
  }

  /**
   * `findPath(start, target, world)`: the cells after `start` up to the
   * target along a shortest walk, or empty when either end is outside the
   * grid, the ends coincide, or no walk reaches the target. The grid is only
   * read.
   */
  method FindPath(start: Point, target: Point, world: array2<Tile>) returns (path: seq<Point>)
    requires world.Length0 > 0
    ensures !InArray(world, start) || !InArray(world, target) || start == target ==> path == []
    ensures path != [] ==> ShortestWalk(world, start, target, path) && start !in path
    ensures (path == [] && InArray(world, start) && InArray(world, target) && start != target) ==>
      Unreachable(world, start, target)
  {
    var width := world.Length0;
    var height := world.Length1;
    if start.x < 0 || start.x >= width || start.y < 0 || start.y >= height ||
       target.x < 0 || target.x >= width || target.y < 0 || target.y >= height {
      return [];
    }
    if start == target {
      return [];
    }
    var s := Search([start], {start}, map[start := None]);
    ghost var dist: map<Point, nat> := map[start := 0];
    ghost var level: nat := 0;
    assert InArray(world, start) && InArray(world, target);
    Initial(world, start, target);
    while |s.queue| > 0
      invariant Inv(world, start, target, s, dist, level, None)
      decreases |AllCells(width, height) - s.visited|, |s.queue|
    {
      var current := s.queue[0];
      if dist[current] == level + 1 {
        Advance(world, start, target, s, dist, level);
        level := level + 1;
      }
      Dequeue(world, start, target, s, dist, level);
      s := s.(queue := s.queue[1..]);
      var found;
      s, dist, found := Expand(world, start, target, current, s, dist, level);
      if found {
        path := Answer(world, start, target, s, dist, level);
        return;
      }
    }
    Exhausted(world, start, target, s, dist, level);
    return [];
  }

  /** Every cell of a walk is passable, its end included. */
  lemma {:induction false} WalkEndPassable(world: array2<Tile>, from: Point, w: seq<Point>)
    requires IsWalk(world, from, w) && |w| > 0
    ensures Passable(world, Last(from, w))
    decreases |w|
  {
    if |w| > 1 {
      WalkEndPassable(world, w[0], w[1..]);
      assert Last(w[0], w[1..]) == Last(from, w);
    }
  }

  /** A target the search cannot stand on is the end of no walk, so `findPath` returns empty for it. */
  lemma BlockedTarget(world: array2<Tile>, start: Point, target: Point, w: seq<Point>)
    requires !Passable(world, target) && target != start
    requires IsWalk(world, start, w)
    ensures Last(start, w) != target
  {
    if |w| > 0 {
      WalkEndPassable(world, start, w);
    }
  }
}
