/**
 * day15.py: the two breadth-first searches over the explored ship map, one
 * for the distance from the start to the oxygen system and one for the time
 * oxygen takes to fill the open cells.
 */
module Day15 {

  datatype Vec = Vec(x: int, y: int)

  /** The explored cells: `'#'` wall, `'.'` open, `'o'` oxygen. */
  type Grid = map<Vec, char>

  /** `grid[pos]` of the `defaultdict(lambda: " ")`: an unexplored cell reads as blank. */
  function Cell(grid: Grid, p: Vec): char
  {
    if p in grid then grid[p] else ' '
  }

  /** `direction_map.values()`: north, south, west, east. */
  const Offsets: seq<Vec> := [Vec(0, -1), Vec(0, 1), Vec(-1, 0), Vec(1, 0)]

  /** `Vec(position.x + vec.x, position.y + vec.y)` for the `k`-th offset. */
  function Step(p: Vec, k: nat): Vec
    requires k < |Offsets|
  {
    Vec(p.x + Offsets[k].x, p.y + Offsets[k].y)
  }

  /** `b` is one of the four neighbours of `a`. */
  predicate Adjacent(a: Vec, b: Vec)
  {
    Vec(b.x - a.x, b.y - a.y) in Offsets
  }

  /** A walk from `path[0]` to its last cell in unit steps, leaving only from cells that are not walls. */
  predicate Walk(grid: Grid, path: seq<Vec>)
  {
    |path| >= 1 &&
    forall i :: 0 <= i < |path| - 1 ==> Adjacent(path[i], path[i + 1]) && Cell(grid, path[i]) != '#'
  }

  lemma {:induction false} WalkExtend(grid: Grid, path: seq<Vec>, k: nat)
    requires Walk(grid, path) && k < |Offsets| && Cell(grid, path[|path| - 1]) != '#'
    ensures Walk(grid, path + [Step(path[|path| - 1], k)])
  {
    var p := path[|path| - 1];
    assert Vec(Step(p, k).x - p.x, Step(p, k).y - p.y) == Offsets[k];
  }

  /** A queue of `(label, cell)` entries. */
  type Queue = seq<(int, Vec)>

  /** Labels never decrease from front to back and span at most one. */
  predicate Layered(queue: Queue)
  {
    (forall i, j :: 0 <= i < j < |queue| ==> queue[i].0 <= queue[j].0) &&
    (forall i :: 0 <= i < |queue| ==> queue[i].0 <= queue[0].0 + 1)
  }

  /** Each entry `(l, p)` comes with a walk from `start` to `p` of `l + offset` cells. */
  predicate Witnessed(grid: Grid, start: Vec, queue: Queue, paths: seq<seq<Vec>>, offset: int)
  {
    |paths| == |queue| &&
    forall i :: 0 <= i < |queue| ==>
      Walk(grid, paths[i]) && paths[i][0] == start && |paths[i]| == queue[i].0 + offset && paths[i][|paths[i]| - 1] == queue[i].1
  }

  /** Dequeuing the front entry leaves every other entry witnessed. */
  lemma {:induction false} WitnessedTail(grid: Grid, start: Vec, queue: Queue, paths: seq<seq<Vec>>, offset: int)
    requires Witnessed(grid, start, queue, paths, offset) && |queue| > 0
    ensures Witnessed(grid, start, queue[1..], paths[1..], offset)
  {
    forall i | 0 <= i < |queue| - 1
      ensures Walk(grid, paths[1..][i]) && paths[1..][i][0] == start
    {
      assert paths[1..][i] == paths[i + 1] && queue[1..][i] == queue[i + 1];
    }
  }

  /**
   * Dequeuing the front entry, labelled `d`, and appending entries labelled
   * `d + 1` keeps the queue layered, every label at least `d`, and the last label
   * no smaller than before.
   */
  lemma {:induction false} ExpandLayered(entries: Queue, queue: Queue, d: int)
    requires Layered(entries) && entries != [] && entries[0].0 == d
    requires |queue| >= |entries| - 1 && queue[..|entries| - 1] == entries[1..]
    requires forall i :: |entries| - 1 <= i < |queue| ==> queue[i].0 == d + 1
    ensures Layered(queue)
    ensures forall i :: 0 <= i < |queue| ==> d <= queue[i].0 <= d + 1
    ensures (if queue == [] then d else queue[|queue| - 1].0) >= entries[|entries| - 1].0
  {
    var n := |entries| - 1;
    assert forall i :: 0 <= i < n ==> queue[i] == entries[i + 1];
    assert forall i :: 0 <= i < |queue| ==> d <= queue[i].0 <= d + 1 by {
      forall i | 0 <= i < |queue|
        ensures d <= queue[i].0 <= d + 1
      {
        if i < n {
          assert queue[i] == entries[i + 1];
        }
      }
    }
    if n > 0 && |queue| > n {
      assert queue[|queue| - 1].0 == d + 1;
    }
  }

  // ---------------------------------------------------------------- distance_to_oxygen

  /** The cells of the entries of a queue. */
  function QueueCells(queue: Queue): (cells: set<Vec>)
    ensures forall i :: 0 <= i < |queue| ==> queue[i].1 in cells
  {
    if queue == [] then {} else {queue[0].1} + QueueCells(queue[1..])
  }

  lemma {:induction false} QueueCellsAppend(queue: Queue, e: (int, Vec))
    ensures QueueCells(queue + [e]) == QueueCells(queue) + {e.1}
    decreases |queue|
  {
    if queue != [] {
      assert (queue + [e])[1..] == queue[1..] + [e];
      QueueCellsAppend(queue[1..], e);
    }
  }

  /** `x` has been expanded, is still queued, or is a wall, which the search never expands. */
  predicate Covered(grid: Grid, visited: set<Vec>, queue: Queue, x: Vec)
  {
    x in visited || x in QueueCells(queue) || Cell(grid, x) == '#'
  }

  /** Every neighbour of an expanded cell is covered. */
  predicate Closed(grid: Grid, visited: set<Vec>, queue: Queue)
  {
    forall p, k :: p in visited && 0 <= k < |Offsets| ==> Covered(grid, visited, queue, Step(p, k))
  }

  /** Dequeuing the front entry uncovers at most the front cell. */
  lemma {:induction false} CoveredPop(grid: Grid, visited: set<Vec>, entries: Queue, x: Vec)
    requires entries != [] && Covered(grid, visited, entries, x)
    ensures x == entries[0].1 || Covered(grid, visited, entries[1..], x)
  {
    assert QueueCells(entries) == {entries[0].1} + QueueCells(entries[1..]);
  }

  /** Dropping a wall from the front of the queue keeps the expanded cells closed. */
  lemma {:induction false} ClosedWall(grid: Grid, visited: set<Vec>, entries: Queue)
    requires entries != [] && Closed(grid, visited, entries) && Cell(grid, entries[0].1) == '#'
    ensures Closed(grid, visited, entries[1..])
  {
    forall p, k | p in visited && 0 <= k < |Offsets|
      ensures Covered(grid, visited, entries[1..], Step(p, k))
    {
      CoveredPop(grid, visited, entries, Step(p, k));
    }
  }

  /** Expanding the front cell, whose neighbours are then all covered, keeps the expanded cells closed. */
  lemma {:induction false} ClosedExpand(grid: Grid, visited: set<Vec>, entries: Queue, queue: Queue)
    requires entries != [] && Closed(grid, visited, entries)
    requires QueueCells(entries[1..]) <= QueueCells(queue)
    requires forall k :: 0 <= k < |Offsets| ==>
      Step(entries[0].1, k) in visited + {entries[0].1} || Step(entries[0].1, k) in QueueCells(queue)
    ensures Closed(grid, visited + {entries[0].1}, queue)
  {
    var pos := entries[0].1;
    forall p, k | p in visited + {pos} && 0 <= k < |Offsets|
      ensures Covered(grid, visited + {pos}, queue, Step(p, k))
    {
      if p != pos {
        CoveredPop(grid, visited, entries, Step(p, k));
      }
    }
  }

  /** The offset from `a` to a neighbour `b`. */
  lemma AdjacentStep(a: Vec, b: Vec) returns (k: nat)
    requires Adjacent(a, b)
    ensures k < |Offsets| && Step(a, k) == b
  {
    k :| k < |Offsets| && Offsets[k] == Vec(b.x - a.x, b.y - a.y);
  }

  /** Every cell of a walk from a covered start stays covered once the queue is empty. */
  lemma {:induction false} WalkCovered(grid: Grid, visited: set<Vec>, path: seq<Vec>, i: nat)
    requires Closed(grid, visited, []) && forall p :: p in visited ==> Cell(grid, p) != '#'
    requires Walk(grid, path) && Covered(grid, visited, [], path[0]) && i < |path|
    ensures Covered(grid, visited, [], path[i])
    decreases i
  {
    if i > 0 {
      WalkCovered(grid, visited, path, i - 1);
      assert Adjacent(path[i - 1], path[i]) && Cell(grid, path[i - 1]) != '#';
      var k := AdjacentStep(path[i - 1], path[i]);
      assert path[i - 1] in visited;
    }
  }

  /**
   * With the queue empty, the expanded cells are closed: no walk from the
   * start reaches an oxygen cell, for the start and every expanded cell are
   * not oxygen.
   */
  lemma {:induction false} NoWalkToOxygen(grid: Grid, start: Vec, visited: set<Vec>)
    requires Closed(grid, visited, []) && Covered(grid, visited, [], start)
    requires forall p :: p in visited ==> Cell(grid, p) != '#' && Cell(grid, p) != 'o'
    ensures forall path :: Walk(grid, path) && path[0] == start ==> Cell(grid, path[|path| - 1]) != 'o'
  {
    forall path | Walk(grid, path) && path[0] == start
      ensures Cell(grid, path[|path| - 1]) != 'o'
    {
      WalkCovered(grid, visited, path, |path| - 1);
    }
  }

  datatype Search = Found(distance: int) | Unreachable | OutOfFuel

  /**
   * The state of the neighbour loop: the entries of `queue0` stay in front, each
   * new entry is an unvisited neighbour of `pos` one label above `distance`, and
   * every entry comes with a walk from the start.
   */
  predicate Enqueued(grid: Grid, start: Vec, queue0: Queue, queue: Queue, paths: seq<seq<Vec>>,
                     visited: set<Vec>, distance: int, pos: Vec)
  {
    Witnessed(grid, start, queue, paths, 0) &&
    |queue| >= |queue0| && queue[..|queue0|] == queue0 &&
    (forall i :: |queue0| <= i < |queue| ==> queue[i].0 == distance + 1 && queue[i].1 !in visited && Adjacent(pos, queue[i].1)) &&
    QueueCells(queue0) <= QueueCells(queue)
  }

  /** Appending the neighbour in direction `k`, with the walk to `pos` extended to it. */
  lemma {:induction false} EnqueuedAppend(grid: Grid, start: Vec, queue0: Queue, queue: Queue, paths: seq<seq<Vec>>,
                                          visited: set<Vec>, distance: int, pos: Vec, path: seq<Vec>, k: nat)
    requires Enqueued(grid, start, queue0, queue, paths, visited, distance, pos)
    requires Walk(grid, path) && path[0] == start && |path| == distance && path[|path| - 1] == pos && Cell(grid, pos) != '#'
    requires k < |Offsets| && Step(pos, k) !in visited
    ensures Enqueued(grid, start, queue0, queue + [(distance + 1, Step(pos, k))], paths + [path + [Step(pos, k)]], visited, distance, pos)
    ensures QueueCells(queue + [(distance + 1, Step(pos, k))]) == QueueCells(queue) + {Step(pos, k)}
  {
    var next := Step(pos, k);
    var q, ps := queue + [(distance + 1, next)], paths + [path + [next]];
    WalkExtend(grid, path, k);
    assert Vec(next.x - pos.x, next.y - pos.y) == Offsets[k];
    QueueCellsAppend(queue, (distance + 1, next));
    forall i | 0 <= i < |q|
      ensures Walk(grid, ps[i]) && ps[i][0] == start && |ps[i]| == q[i].0 && ps[i][|ps[i]| - 1] == q[i].1
    {
      if i < |queue| {
        assert q[i] == queue[i] && ps[i] == paths[i];
      }
    }
    assert q[..|queue0|] == queue[..|queue0|];
  }

  /** The `for vec in direction_map.values()` loop of the first search: every unvisited neighbour, one label further. */
  method EnqueueNeighbours(grid: Grid, start: Vec, queue0: Queue, ghost paths0: seq<seq<Vec>>, visited: set<Vec>,
                           distance: int, pos: Vec, ghost path: seq<Vec>)
    returns (queue: Queue, ghost paths: seq<seq<Vec>>)
    requires Witnessed(grid, start, queue0, paths0, 0)
    requires Walk(grid, path) && path[0] == start && |path| == distance && path[|path| - 1] == pos && Cell(grid, pos) != '#'
    ensures Enqueued(grid, start, queue0, queue, paths, visited, distance, pos)
    ensures forall k :: 0 <= k < |Offsets| ==> Step(pos, k) in visited || Step(pos, k) in QueueCells(queue)
  {
    queue, paths := queue0, paths0;
    var k := 0;
    while k < |Offsets|
      invariant 0 <= k <= |Offsets|
      invariant Enqueued(grid, start, queue0, queue, paths, visited, distance, pos)
      invariant forall j :: 0 <= j < k ==> Step(pos, j) in visited || Step(pos, j) in QueueCells(queue)
    {
      var next := Step(pos, k);
      if next !in visited {
        EnqueuedAppend(grid, start, queue0, queue, paths, visited, distance, pos, path, k);
        queue := queue + [(distance + 1, next)];
        paths := paths + [path + [next]];
      }
      k := k + 1;
    }
  }

  /**
   * The invariant of the first search: every entry comes with a walk from the
   * start, labels are layered from 1 up, expanded cells are neither walls nor
   * oxygen, and the neighbours of expanded cells and the start are covered.
   */
  predicate Searching(grid: Grid, start: Vec, queue: Queue, paths: seq<seq<Vec>>, visited: set<Vec>)
  {
    Witnessed(grid, start, queue, paths, 0) && Layered(queue) && (queue != [] ==> queue[0].0 >= 1) &&
    (forall p :: p in visited ==> Cell(grid, p) != '#' && Cell(grid, p) != 'o') &&
    Closed(grid, visited, queue) && Covered(grid, visited, queue, start)
  }

  /** Dequeuing a wall keeps the search invariant. */
  lemma {:induction false} SearchingWall(grid: Grid, start: Vec, queue: Queue, paths: seq<seq<Vec>>, visited: set<Vec>)
    requires Searching(grid, start, queue, paths, visited) && queue != [] && Cell(grid, queue[0].1) == '#'
    ensures Searching(grid, start, queue[1..], paths[1..], visited)
  {
    WitnessedTail(grid, start, queue, paths, 0);
    ExpandLayered(queue, queue[1..], queue[0].0);
    ClosedWall(grid, visited, queue);
    CoveredPop(grid, visited, queue, start);
  }

  /** Dequeuing an open cell and enqueuing its unvisited neighbours keeps the search invariant. */
  lemma {:induction false} SearchingExpand(grid: Grid, start: Vec, entries: Queue, paths0: seq<seq<Vec>>, visited: set<Vec>,
                                           queue: Queue, paths: seq<seq<Vec>>)
    requires Searching(grid, start, entries, paths0, visited) && entries != []
    requires Cell(grid, entries[0].1) != '#' && Cell(grid, entries[0].1) != 'o'
    requires Enqueued(grid, start, entries[1..], queue, paths, visited + {entries[0].1}, entries[0].0, entries[0].1)
    requires forall k :: 0 <= k < |Offsets| ==>
      Step(entries[0].1, k) in visited + {entries[0].1} || Step(entries[0].1, k) in QueueCells(queue)
    ensures Searching(grid, start, queue, paths, visited + {entries[0].1})
  {
    ExpandLayered(entries, queue, entries[0].0);
    ClosedExpand(grid, visited, entries, queue);
    CoveredPop(grid, visited, entries, start);
  }

  /**
   * The loop body of `distance_to_oxygen` after the oxygen test: a wall is
   * dropped, any other cell is visited and its unvisited neighbours enqueued.
   */
  method Expand(grid: Grid, start: Vec, queue0: Queue, ghost paths0: seq<seq<Vec>>, visited0: set<Vec>)
    returns (queue: Queue, ghost paths: seq<seq<Vec>>, visited: set<Vec>)
    requires Searching(grid, start, queue0, paths0, visited0) && queue0 != [] && Cell(grid, queue0[0].1) != 'o'
    ensures Searching(grid, start, queue, paths, visited)
    ensures Cell(grid, queue0[0].1) == '#' ==> queue == queue0[1..] && visited == visited0
    ensures Cell(grid, queue0[0].1) != '#' ==> visited == visited0 + {queue0[0].1}
  {
    var distance, pos := queue0[0].0, queue0[0].1;
    ghost var path := paths0[0];
    if Cell(grid, pos) == '#' {
      SearchingWall(grid, start, queue0, paths0, visited0);
      return queue0[1..], paths0[1..], visited0;
    }
    WitnessedTail(grid, start, queue0, paths0, 0);
    queue, paths := EnqueueNeighbours(grid, start, queue0[1..], paths0[1..], visited0 + {pos}, distance, pos, path);
    SearchingExpand(grid, start, queue0, paths0, visited0, queue, paths);
    visited := visited0 + {pos};
  }

  /**
   * `distance_to_oxygen`, for at most `fuel` dequeues: the start carries label
   * 1, walls are dequeued but neither expanded nor visited, and the first
   * oxygen cell dequeued gives the answer.
   */
  method DistanceToOxygen(grid: Grid, start: Vec, fuel: nat) returns (r: Search)
    ensures r.Found? ==> r.distance >= 1
    ensures r.Found? ==>
      exists path :: Walk(grid, path) && path[0] == start && |path| == r.distance && Cell(grid, path[|path| - 1]) == 'o'
    ensures Cell(grid, start) == 'o' && fuel > 0 ==> r == Found(1)
    ensures fuel > 0 && Cell(grid, start) == '#' ==> r == Unreachable
    ensures r == Unreachable ==>
      forall path :: Walk(grid, path) && path[0] == start ==> Cell(grid, path[|path| - 1]) != 'o'
  {
    var queue: Queue := [(1, start)];
    ghost var paths: seq<seq<Vec>> := [[start]];
    var visited: set<Vec> := {};
    var dequeued := 0;
    while queue != [] && dequeued < fuel
      invariant Searching(grid, start, queue, paths, visited)
      invariant dequeued == 0 ==> queue == [(1, start)]
      invariant dequeued > 0 && Cell(grid, start) == '#' ==> queue == []
      invariant dequeued > 0 ==> Cell(grid, start) != 'o'
      decreases fuel - dequeued
    {
      var distance, pos := queue[0].0, queue[0].1;
      dequeued := dequeued + 1;
      if Cell(grid, pos) == 'o' {
        ghost var path := paths[0];
        assert Walk(grid, path) && path[0] == start && |path| == distance && Cell(grid, path[|path| - 1]) == 'o';
        return Found(distance);
      }
      queue, paths, visited := Expand(grid, start, queue, paths, visited);
    }
    if queue == [] {
      NoWalkToOxygen(grid, start, visited);
      return Unreachable;
    }
    return OutOfFuel;
  }

  // ---------------------------------------------------------------- minutes_for_oxygen_to_spread

  /** A walk in unit steps whose cells after the first are all open. */
  predicate OpenWalk(grid: Grid, path: seq<Vec>)
  {
    |path| >= 1 &&
    (forall i :: 0 <= i < |path| - 1 ==> Adjacent(path[i], path[i + 1])) &&
    forall i :: 1 <= i < |path| ==> Cell(grid, path[i]) != '#'
  }

  lemma {:induction false} OpenWalkExtend(grid: Grid, path: seq<Vec>, k: nat)
    requires OpenWalk(grid, path) && k < |Offsets| && Cell(grid, Step(path[|path| - 1], k)) != '#'
    ensures OpenWalk(grid, path + [Step(path[|path| - 1], k)])
  {
    var p := path[|path| - 1];
    assert Vec(Step(p, k).x - p.x, Step(p, k).y - p.y) == Offsets[k];
  }

  /** Each entry `(l, p)` comes with an open walk from `start` to `p` of `l` steps. */
  predicate OpenWitnessed(grid: Grid, start: Vec, queue: Queue, paths: seq<seq<Vec>>)
  {
    |paths| == |queue| &&
    forall i :: 0 <= i < |queue| ==>
      OpenWalk(grid, paths[i]) && paths[i][0] == start && |paths[i]| == queue[i].0 + 1 && paths[i][|paths[i]| - 1] == queue[i].1
  }

  /** An entry enqueued with its own open walk keeps every entry witnessed. */
  lemma {:induction false} WitnessedAppend(grid: Grid, start: Vec, queue: Queue, paths: seq<seq<Vec>>, l: int, p: Vec, path: seq<Vec>)
    requires OpenWitnessed(grid, start, queue, paths)
    requires OpenWalk(grid, path) && path[0] == start && |path| == l + 1 && path[|path| - 1] == p
    ensures OpenWitnessed(grid, start, queue + [(l, p)], paths + [path])
  {
    var q, ps := queue + [(l, p)], paths + [path];
    forall i | 0 <= i < |q|
      ensures OpenWalk(grid, ps[i]) && ps[i][0] == start && |ps[i]| == q[i].0 + 1 && ps[i][|ps[i]| - 1] == q[i].1
    {
      if i < |queue| {
        assert q[i] == queue[i] && ps[i] == paths[i];
      }
    }
  }

  /** Dequeuing the front entry leaves every other entry witnessed by an open walk. */
  lemma {:induction false} OpenWitnessedTail(grid: Grid, start: Vec, queue: Queue, paths: seq<seq<Vec>>)
    requires OpenWitnessed(grid, start, queue, paths) && |queue| > 0
    ensures OpenWitnessed(grid, start, queue[1..], paths[1..])
  {
    forall i | 0 <= i < |queue| - 1
      ensures OpenWalk(grid, paths[1..][i]) && paths[1..][i][0] == start
    {
      assert paths[1..][i] == paths[i + 1] && queue[1..][i] == queue[i + 1];
    }
  }

  datatype Spread = Minutes(minutes: int) | Unfinished

  /**
   * Dequeuing the front entry, labelled `m`, and appending entries labelled
   * `m + 1` whose label joins `labels`: every queued label stays recorded, and
   * no recorded label exceeds the last one queued.
   */
  lemma {:induction false} LabelsStep(entries: Queue, queue: Queue, labels0: seq<int>, labels: seq<int>, m: int)
    requires Layered(entries) && entries != [] && entries[0].0 == m
    requires forall i :: 0 <= i < |entries| ==> entries[i].0 in labels0 && entries[i].0 >= 0
    requires forall l :: l in labels0 ==> l <= entries[|entries| - 1].0
    requires |queue| >= |entries| - 1 && queue[..|entries| - 1] == entries[1..]
    requires forall i :: |entries| - 1 <= i < |queue| ==> queue[i].0 == m + 1
    requires forall l :: l in labels ==> l in labels0 || l == m + 1
    requires forall l :: l in labels0 ==> l in labels
    requires |queue| > |entries| - 1 ==> m + 1 in labels
    requires |queue| == |entries| - 1 ==> labels == labels0
    ensures Layered(queue)
    ensures forall i :: 0 <= i < |queue| ==> queue[i].0 in labels && queue[i].0 >= 0
    ensures forall l :: l in labels ==> l <= (if queue == [] then m else queue[|queue| - 1].0)
    ensures queue == [] ==> m in labels
  {
    ExpandLayered(entries, queue, m);
    forall i | 0 <= i < |queue|
      ensures queue[i].0 in labels && queue[i].0 >= 0
    {
      if i < |entries| - 1 {
        assert queue[i] == entries[i + 1];
      }
    }
  }

  /** Each label `labels[i]` comes with an open walk `walks[i]` from `start` of `labels[i]` steps. */
  predicate LabelsWalked(grid: Grid, start: Vec, labels: seq<int>, walks: seq<seq<Vec>>)
  {
    |walks| == |labels| &&
    forall i :: 0 <= i < |labels| ==> OpenWalk(grid, walks[i]) && walks[i][0] == start && |walks[i]| == labels[i] + 1
  }

  /** A label enqueued with its own open walk keeps every label walked. */
  lemma {:induction false} LabelsWalkedAppend(grid: Grid, start: Vec, labels: seq<int>, walks: seq<seq<Vec>>, l: int, path: seq<Vec>)
    requires LabelsWalked(grid, start, labels, walks)
    requires OpenWalk(grid, path) && path[0] == start && |path| == l + 1
    ensures LabelsWalked(grid, start, labels + [l], walks + [path])
  {
    var ls, ws := labels + [l], walks + [path];
    forall i | 0 <= i < |ls|
      ensures OpenWalk(grid, ws[i]) && ws[i][0] == start && |ws[i]| == ls[i] + 1
    {
      if i < |labels| {
        assert ls[i] == labels[i] && ws[i] == walks[i];
      }
    }
  }

  /** Every walked label is the number of steps of some open walk from `start`. */
  lemma {:induction false} LabelsHaveWalks(grid: Grid, start: Vec, labels: seq<int>, walks: seq<seq<Vec>>)
    requires LabelsWalked(grid, start, labels, walks)
    ensures forall l :: l in labels ==> exists path :: OpenWalk(grid, path) && path[0] == start && |path| == l + 1
  {
    forall l | l in labels
      ensures exists path :: OpenWalk(grid, path) && path[0] == start && |path| == l + 1
    {
      var i :| 0 <= i < |labels| && labels[i] == l;
      assert OpenWalk(grid, walks[i]) && walks[i][0] == start && |walks[i]| == l + 1;
    }
  }

  /** The neighbour loop of the second search: only cells that are neither visited nor walls are enqueued. */
  method EnqueueOpen(grid: Grid, start: Vec, queue0: Queue, ghost paths0: seq<seq<Vec>>, ghost labels0: seq<int>,
                     ghost walks0: seq<seq<Vec>>, visited: set<Vec>, minutes: int, pos: Vec, ghost path: seq<Vec>)
    returns (queue: Queue, ghost paths: seq<seq<Vec>>, ghost labels: seq<int>, ghost walks: seq<seq<Vec>>)
    requires OpenWitnessed(grid, start, queue0, paths0) && LabelsWalked(grid, start, labels0, walks0)
    requires OpenWalk(grid, path) && path[0] == start && |path| == minutes + 1 && path[|path| - 1] == pos
    ensures OpenWitnessed(grid, start, queue, paths) && LabelsWalked(grid, start, labels, walks)
    ensures |queue| >= |queue0| && queue[..|queue0|] == queue0
    ensures forall i :: |queue0| <= i < |queue| ==>
      queue[i].0 == minutes + 1 && queue[i].1 !in visited && Cell(grid, queue[i].1) != '#' && Adjacent(pos, queue[i].1)
    ensures forall l :: l in labels ==> l in labels0 || l == minutes + 1
    ensures forall l :: l in labels0 ==> l in labels
    ensures |queue| > |queue0| ==> minutes + 1 in labels
    ensures |queue| == |queue0| ==> labels == labels0
  {
    queue, paths, labels, walks := queue0, paths0, labels0, walks0;
    var k := 0;
    while k < |Offsets|
      invariant 0 <= k <= |Offsets|
      invariant OpenWitnessed(grid, start, queue, paths) && LabelsWalked(grid, start, labels, walks)
      invariant |queue| >= |queue0| && queue[..|queue0|] == queue0
      invariant forall i :: |queue0| <= i < |queue| ==>
        queue[i].0 == minutes + 1 && queue[i].1 !in visited && Cell(grid, queue[i].1) != '#' && Adjacent(pos, queue[i].1)
      invariant forall l :: l in labels ==> l in labels0 || l == minutes + 1
      invariant forall l :: l in labels0 ==> l in labels
      invariant |queue| > |queue0| ==> minutes + 1 in labels
      invariant |queue| == |queue0| ==> labels == labels0
    {
      var next := Step(pos, k);
      if next !in visited && Cell(grid, next) != '#' {
        OpenWalkExtend(grid, path, k);
        assert Vec(next.x - pos.x, next.y - pos.y) == Offsets[k];
        WitnessedAppend(grid, start, queue, paths, minutes + 1, next, path + [next]);
        LabelsWalkedAppend(grid, start, labels, walks, minutes + 1, path + [next]);
        queue := queue + [(minutes + 1, next)];
        paths := paths + [path + [next]];
        labels := labels + [minutes + 1];
        walks := walks + [path + [next]];
      }
      k := k + 1;
    }
  }

  /**
   * `minutes_for_oxygen_to_spread`, for at most `fuel` dequeues: the label of
   * the last entry dequeued, which is the largest label ever enqueued (`labels`
   * lists them all, each the length of an open walk from the oxygen cell).
   */
  method MinutesToSpread(grid: Grid, oxygen: Vec, fuel: nat) returns (r: Spread, ghost labels: seq<int>)
    ensures 0 in labels
    ensures forall l :: l in labels ==> exists path :: OpenWalk(grid, path) && path[0] == oxygen && |path| == l + 1
    ensures r.Minutes? ==> r.minutes >= 0 && r.minutes in labels && forall l :: l in labels ==> l <= r.minutes
    ensures r.Minutes? ==> exists path :: OpenWalk(grid, path) && path[0] == oxygen && |path| == r.minutes + 1
    ensures fuel == 0 ==> r == Unfinished
  {
    var queue: Queue := [(0, oxygen)];
    ghost var paths: seq<seq<Vec>> := [[oxygen]];
    labels := [0];
    ghost var walks: seq<seq<Vec>> := [[oxygen]];
    var visited: set<Vec> := {};
    var minutes := 0;
    var dequeued := 0;
    ghost var lastPath := [oxygen];
    while queue != [] && dequeued < fuel
      invariant OpenWitnessed(grid, oxygen, queue, paths) && LabelsWalked(grid, oxygen, labels, walks)
      invariant Layered(queue)
      invariant 0 in labels
      invariant forall i :: 0 <= i < |queue| ==> queue[i].0 in labels && queue[i].0 >= 0
      invariant forall l :: l in labels ==> l <= (if queue == [] then minutes else queue[|queue| - 1].0)
      invariant queue == [] ==> minutes in labels
      invariant minutes >= 0
      invariant dequeued > 0 ==> OpenWalk(grid, lastPath) && lastPath[0] == oxygen && |lastPath| == minutes + 1
      invariant dequeued == 0 ==> queue != []
      invariant dequeued <= fuel
      decreases fuel - dequeued
    {
      ghost var entries := queue;
      minutes := queue[0].0;
      var pos := queue[0].1;
      lastPath := paths[0];
      OpenWitnessedTail(grid, oxygen, queue, paths);
      queue, paths := queue[1..], paths[1..];
      dequeued := dequeued + 1;
      visited := visited + {pos};
      ghost var labels0 := labels;
      queue, paths, labels, walks := EnqueueOpen(grid, oxygen, queue, paths, labels, walks, visited, minutes, pos, lastPath);
      LabelsStep(entries, queue, labels0, labels, minutes);
    }
    LabelsHaveWalks(grid, oxygen, labels, walks);
    if queue != [] {
      return Unfinished, labels;
    }
    return Minutes(minutes), labels;
  }
}
