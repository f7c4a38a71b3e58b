/**
 * day3.py: two wires traced from the origin on a grid. Every point a wire
 * reaches is recorded with the step count at which it was (last) reached;
 * the crossings are the points both wires reach.
 */
module Day3 {
  import opened Wrappers
  import opened Numbers

  datatype Point = Point(x: int, y: int)

  /** A path item such as `R75`: a direction letter and the integer after it. */
  datatype Segment = Segment(direction: char, length: int)

  const Origin := Point(0, 0)

  /** The `vecs` table; any other letter raises `KeyError`. */
  function Unit(c: char): (r: Option<Point>)
    ensures r.Some? ==> Abs(r.value.x) + Abs(r.value.y) == 1
  {
    match c
    case 'U' => Some(Point(0, 1))
    case 'R' => Some(Point(1, 0))
    case 'D' => Some(Point(0, -1))
    case 'L' => Some(Point(-1, 0))
    case _ => None
  }

  /** `pos + d * l`. */
  function Move(pos: Point, d: Point, l: int): Point
  {
    Point(pos.x + d.x * l, pos.y + d.y * l)
  }

  /** The points of one segment, `pos + d * 1` up to `pos + d * n`. */
  function SegmentWalk(pos: Point, d: Point, n: nat): (w: seq<Point>)
    ensures |w| == n
  {
    seq(n, k requires 0 <= k < n => Move(pos, d, k + 1))
  }

  lemma {:induction false} SegmentWalkStep(pos: Point, d: Point, n: nat)
    ensures SegmentWalk(pos, d, n + 1) == SegmentWalk(pos, d, n) + [Move(pos, d, n + 1)]
  {
  }

  /** A unit step taken `l >= 1` times never lands back where it started. */
  lemma {:induction false} MoveLeaves(pos: Point, d: Point, l: int)
    requires Unit('U') == Some(d) || Unit('R') == Some(d) || Unit('D') == Some(d) || Unit('L') == Some(d)
    requires l >= 1
    ensures Move(pos, d, l) != pos
  {
  }

  // ---------------------------------------------------------------- points and steps

  /** `points[i]`: the set of the visited points. */
  function Elems(visits: seq<Point>): set<Point>
  {
    if visits == [] then {} else Elems(visits[..|visits| - 1]) + {visits[|visits| - 1]}
  }

  /** `steps[i]`: the k-th visit writes `k`, overwriting earlier visits of the same point. */
  function StepsOf(visits: seq<Point>): map<Point, int>
  {
    if visits == [] then map[] else StepsOf(visits[..|visits| - 1])[visits[|visits| - 1] := |visits|]
  }

  lemma {:induction false} ElemsMembers(visits: seq<Point>)
    ensures forall p :: p in Elems(visits) <==> p in visits
  {
    if visits != [] {
      var init := visits[..|visits| - 1];
      ElemsMembers(init);
      assert visits == init + [visits[|visits| - 1]];
    }
  }

  /** `steps[i][p]` is the step of the latest visit to `p`, and only visited points have an entry. */
  lemma {:induction false} StepsLatest(visits: seq<Point>, p: Point)
    ensures p in StepsOf(visits) <==> p in visits
    ensures p in visits ==> var k := StepsOf(visits)[p] - 1;
      0 <= k < |visits| && visits[k] == p && forall j :: k < j < |visits| ==> visits[j] != p
  {
    if visits != [] {
      var init := visits[..|visits| - 1];
      StepsLatest(init, p);
      assert visits == init + [visits[|visits| - 1]];
    }
  }

  // ---------------------------------------------------------------- tracing

  /**
   * The tracing state: the visits so far (their number is `step`), `pos`, and
   * `current`, the last point computed, which the script keeps from one wire to
   * the next.
   */
  datatype Trace = Trace(visits: seq<Point>, pos: Point, current: Option<Point>)

  /**
   * One path item. A length of at least 1 walks the segment; a shorter one runs
   * no step and `pos = current` takes the last point computed, which raises
   * `NameError` when there is none.
   */
  function Advance(t: Trace, s: Segment): Option<Trace>
  {
    if s.length >= 1 then
      match Unit(s.direction)
      case None => None
      case Some(d) =>
        var end := Move(t.pos, d, s.length);
        Some(Trace(t.visits + SegmentWalk(t.pos, d, s.length), end, Some(end)))
    else
      match t.current
      case None => None
      case Some(c) => Some(Trace(t.visits, c, t.current))
  }

  /** A path item `Dn` with `n >= 1` adds exactly `pos + d * 1` ... `pos + d * n`, never `pos` itself, and moves `pos` by `d * n`. */
  lemma {:induction false} AdvanceWalks(t: Trace, s: Segment)
    requires s.length >= 1 && Unit(s.direction).Some?
    ensures var d, u := Unit(s.direction).value, Advance(t, s).value;
      |u.visits| == |t.visits| + s.length &&
      u.visits[..|t.visits|] == t.visits &&
      (forall l :: 1 <= l <= s.length ==> u.visits[|t.visits| + l - 1] == Move(t.pos, d, l)) &&
      t.pos !in u.visits[|t.visits|..] &&
      u.pos == Move(t.pos, d, s.length) && u.current == Some(u.pos)
  {
    var d, u := Unit(s.direction).value, Advance(t, s).value;
    assert u.visits[|t.visits|..] == SegmentWalk(t.pos, d, s.length);
    forall l | 1 <= l <= s.length
      ensures Move(t.pos, d, l) != t.pos
    {
      MoveLeaves(t.pos, d, l);
    }
  }

  /** The path items of a wire in order, from `t`. */
  function Follow(wire: seq<Segment>, t: Trace): Option<Trace>
  {
    if wire == [] then Some(t)
    else
      match Follow(wire[..|wire| - 1], t)
      case None => None
      case Some(u) => Advance(u, wire[|wire| - 1])
  }

  /** The `current` left by the wires traced so far. */
  function LastCurrent(traces: seq<Trace>): Option<Point>
  {
    if traces == [] then None else traces[|traces| - 1].current
  }

  /** Each wire starts at the origin with step 0, keeping `current` from the wire before. */
  function TraceAll(wires: seq<seq<Segment>>): Option<seq<Trace>>
  {
    if wires == [] then Some([])
    else
      match TraceAll(wires[..|wires| - 1])
      case None => None
      case Some(traces) =>
        match Follow(wires[|wires| - 1], Trace([], Origin, LastCurrent(traces)))
        case None => None
        case Some(t) => Some(traces + [t])
  }

  /**
   * An item of length 0 or less adds no point and sets `pos` to the last point
   * computed, not to `pos + d * 0`; at the start of a wire that point is the end
   * of the wire before, and before any point at all the item raises.
   */
  lemma {:induction false} ShortItemJumps(t: Trace, s: Segment)
    requires s.length < 1
    ensures Advance(t, s).Some? <==> t.current.Some?
    ensures Advance(t, s).Some? ==> var u := Advance(t, s).value;
      u.visits == t.visits && u.pos == t.current.value && u.current == t.current
  {
  }

  /** Once an item raises, the rest of the wire is not traced. */
  lemma {:induction false} FollowStops(wire: seq<Segment>, t: Trace, i: nat)
    requires i <= |wire| && Follow(wire[..i], t).None?
    ensures Follow(wire, t).None?
    decreases |wire|
  {
    if i < |wire| {
      var init := wire[..|wire| - 1];
      assert init[..i] == wire[..i];
      FollowStops(init, t, i);
    } else {
      assert wire[..i] == wire;
    }
  }

  lemma {:induction false} TraceAllStops(wires: seq<seq<Segment>>, i: nat)
    requires i <= |wires| && TraceAll(wires[..i]).None?
    ensures TraceAll(wires).None?
    decreases |wires|
  {
    if i < |wires| {
      var init := wires[..|wires| - 1];
      assert init[..i] == wires[..i];
      TraceAllStops(init, i);
    } else {
      assert wires[..i] == wires;
    }
  }

  lemma {:induction false} WalkExtend(base: seq<Point>, pos: Point, d: Point, l: nat)
    requires l >= 1
    ensures var before, after := base + SegmentWalk(pos, d, l - 1), base + SegmentWalk(pos, d, l);
      Elems(after) == Elems(before) + {Move(pos, d, l)} &&
      StepsOf(after) == StepsOf(before)[Move(pos, d, l) := |before| + 1] &&
      |after| == |before| + 1
  {
    var before, after := base + SegmentWalk(pos, d, l - 1), base + SegmentWalk(pos, d, l);
    SegmentWalkStep(pos, d, l - 1);
    assert after == before + [Move(pos, d, l)];
    assert after[..|after| - 1] == before;
  }

  /** The inner `for l in range(1, length + 1)` loop. */
  method WalkSegment(ghost base: seq<Point>, points0: set<Point>, steps0: map<Point, int>, step0: int, pos: Point, d: Point, n: int)
    returns (points: set<Point>, steps: map<Point, int>, step: int, current: Point)
    requires n >= 1
    requires points0 == Elems(base) && steps0 == StepsOf(base) && step0 == |base|
    ensures var walked := base + SegmentWalk(pos, d, n);
      points == Elems(walked) && steps == StepsOf(walked) && step == |walked|
    ensures current == Move(pos, d, n)
  {
    points, steps, step := points0, steps0, step0;
    current := pos;
    var l := 1;
    assert base + SegmentWalk(pos, d, 0) == base;
    while l <= n
      invariant 1 <= l <= n + 1
      invariant var walked := base + SegmentWalk(pos, d, l - 1);
        points == Elems(walked) && steps == StepsOf(walked) && step == |walked|
      invariant l > 1 ==> current == Move(pos, d, l - 1)
    {
      current := Point(pos.x + d.x * l, pos.y + d.y * l);
      WalkExtend(base, pos, d, l);
      points := points + {current};
      step := step + 1;
      steps := steps[current := step];
      l := l + 1;
    }
  }

  /** One pass of `for path in wire`, starting at the origin with step 0. */
  method TraceWire(wire: seq<Segment>, current0: Option<Point>)
    returns (ok: bool, points: set<Point>, steps: map<Point, int>, current: Option<Point>)
    ensures ok <==> Follow(wire, Trace([], Origin, current0)).Some?
    ensures ok ==> var t := Follow(wire, Trace([], Origin, current0)).value;
      points == Elems(t.visits) && steps == StepsOf(t.visits) && current == t.current
  {
    ghost var start := Trace([], Origin, current0);
    ghost var visits: seq<Point> := [];
    points, steps, current := {}, map[], current0;
    var step := 0;
    var pos := Origin;
    var i := 0;
    while i < |wire|
      invariant 0 <= i <= |wire|
      invariant Follow(wire[..i], start) == Some(Trace(visits, pos, current))
      invariant points == Elems(visits) && steps == StepsOf(visits) && step == |visits|
    {
      var path := wire[i];
      assert wire[..i + 1][..i] == wire[..i];
      if path.length >= 1 {
        var d := Unit(path.direction);
        if d.None? {
          FollowStops(wire, start, i + 1);
          ok := false;
          return;
        }
        var end;
        points, steps, step, end := WalkSegment(visits, points, steps, step, pos, d.value, path.length);
        visits := visits + SegmentWalk(pos, d.value, path.length);
        current := Some(end);
        pos := end;
      } else {
        if current.None? {
          FollowStops(wire, start, i + 1);
          ok := false;
          return;
        }
        pos := current.value;
      }
      i := i + 1;
    }
    assert wire[..i] == wire;
    ok := true;
  }

  /** The `for i, wire in enumerate(wires)` loop: the point set and step map of every wire. */
  method TraceWires(wires: seq<seq<Segment>>) returns (result: Option<seq<(set<Point>, map<Point, int>)>>)
    ensures result.Some? <==> TraceAll(wires).Some?
    ensures result.Some? ==> var traces := TraceAll(wires).value;
      |result.value| == |traces| == |wires| &&
      forall i :: 0 <= i < |wires| ==> result.value[i] == (Elems(traces[i].visits), StepsOf(traces[i].visits))
  {
    var tables: seq<(set<Point>, map<Point, int>)> := [];
    ghost var traces: seq<Trace> := [];
    var current: Option<Point> := None;
    var i := 0;
    while i < |wires|
      invariant 0 <= i <= |wires|
      invariant TraceAll(wires[..i]) == Some(traces)
      invariant current == LastCurrent(traces)
      invariant |tables| == |traces| == i
      invariant forall k :: 0 <= k < i ==> tables[k] == (Elems(traces[k].visits), StepsOf(traces[k].visits))
    {
      assert wires[..i + 1][..i] == wires[..i];
      var ok, points, steps, next := TraceWire(wires[i], current);
      if !ok {
        TraceAllStops(wires, i + 1);
        return None;
      }
      traces := traces + [Follow(wires[i], Trace([], Origin, current)).value];
      tables := tables + [(points, steps)];
      current := next;
      i := i + 1;
    }
    assert wires[..i] == wires;
    result := Some(tables);
  }

  // ---------------------------------------------------------------- answers

  /** `crosses = points[0] & points[1]`; with fewer than two wires the indexing raises. */
  function Crosses(tables: seq<(set<Point>, map<Point, int>)>): (r: Option<set<Point>>)
    ensures r.None? <==> |tables| < 2
    ensures r.Some? ==> forall p :: p in r.value <==> p in tables[0].0 && p in tables[1].0
  {
    if |tables| < 2 then None else Some(tables[0].0 * tables[1].0)
  }

  /** `abs(origin.x - c.x) + abs(origin.y - c.y)`. */
  function Distance(c: Point): nat
  {
    Abs(Origin.x - c.x) + Abs(Origin.y - c.y)
  }

  /** First part: the least Manhattan distance from the origin to a crossing. */
  function ClosestManhattan(crosses: set<Point>): (r: Option<int>)
    ensures r.None? <==> crosses == {}
    ensures r.Some? ==> exists c :: c in crosses && r.value == Distance(c)
    ensures r.Some? ==> forall c :: c in crosses ==> r.value <= Distance(c)
  {
    var distances := set c | c in crosses :: Distance(c);
    assert forall c :: c in crosses ==> Distance(c) in distances;
    Least(distances)
  }

  /** Second part: the least combined step count of both wires at a crossing. */
  function ClosestSteps(crosses: set<Point>, steps0: map<Point, int>, steps1: map<Point, int>): (r: Option<int>)
    requires forall c :: c in crosses ==> c in steps0 && c in steps1
    ensures r.None? <==> crosses == {}
    ensures r.Some? ==> exists c :: c in crosses && r.value == steps0[c] + steps1[c]
    ensures r.Some? ==> forall c :: c in crosses ==> r.value <= steps0[c] + steps1[c]
  {
    var sums := set c | c in crosses :: steps0[c] + steps1[c];
    assert forall c :: c in crosses ==> steps0[c] + steps1[c] in sums;
    Least(sums)
  }

  /** Each crossing point has a step entry in both wires' maps, so the second part can index them. */
  lemma {:induction false} CrossesHaveSteps(visits0: seq<Point>, visits1: seq<Point>)
    ensures forall c :: c in Elems(visits0) * Elems(visits1) ==> c in StepsOf(visits0) && c in StepsOf(visits1)
  {
    ElemsMembers(visits0);
    ElemsMembers(visits1);
    forall c | c in Elems(visits0) * Elems(visits1)
      ensures c in StepsOf(visits0) && c in StepsOf(visits1)
    {
      StepsLatest(visits0, c);
      StepsLatest(visits1, c);
    }
  }
}
