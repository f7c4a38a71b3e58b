/**
 * day17.py: the camera picture of the scaffold. The program's output codes are
 * laid out on a grid, one row per newline; the alignment sum adds up `x * y`
 * over scaffold intersections. A Python string is modelled as the sequence of
 * its code points, so `chr(d)` is `[d]`, `"#"` is `[35]` and the default
 * value of the `defaultdict(str)` is `[]`.
 */
module Day17 {
  import opened Wrappers
  import opened Numbers

  datatype Vec = Vec(x: int, y: int)

  type Text = seq<int>
  type Grid = map<Vec, Text>

  const Newline := 10
  const Scaffold: Text := [35]
  /** The code points `chr` accepts. */
  const MaxCode := 0x10FFFF

  // ---------------------------------------------------------------- create_grid

  /** `y` after the first `i` codes: the newlines among them. */
  function Row(data: seq<int>, i: nat): nat
    requires i <= |data|
  {
    if i == 0 then 0 else Row(data, i - 1) + (if data[i - 1] == Newline then 1 else 0)
  }

  /** `x` after the first `i` codes: the codes since the last newline. */
  function Col(data: seq<int>, i: nat): nat
    requires i <= |data|
  {
    if i == 0 then 0 else if data[i - 1] == Newline then 0 else Col(data, i - 1) + 1
  }

  /** Where the code at index `i` is stored, if it is not a newline. */
  function At(data: seq<int>, i: nat): Vec
    requires i <= |data|
  {
    Vec(Col(data, i), Row(data, i))
  }

  /** The grid after the loop has read the first `i` codes. */
  function Fill(data: seq<int>, i: nat): Grid
    requires i <= |data|
  {
    if i == 0 then map[]
    else if data[i - 1] == Newline then Fill(data, i - 1)
    else Fill(data, i - 1)[At(data, i - 1) := [data[i - 1]]]
  }

  /** How many of the first `i` codes are not newlines. */
  function Stored(data: seq<int>, i: nat): nat
    requires i <= |data|
  {
    if i == 0 then 0 else Stored(data, i - 1) + (if data[i - 1] == Newline then 0 else 1)
  }

  /** Every code is one `chr` accepts. */
  predicate ValidCodes(data: seq<int>)
  {
    forall i :: 0 <= i < |data| ==> 0 <= data[i] <= MaxCode
  }

  lemma {:induction false} RowMonotone(data: seq<int>, i: nat, j: nat)
    requires i <= j <= |data|
    ensures Row(data, i) <= Row(data, j)
    decreases j
  {
    if i < j {
      RowMonotone(data, i, j - 1);
    }
  }

  /** Between two indices on one row there is no newline, and the column advances by one per code. */
  lemma {:induction false} SameRow(data: seq<int>, i: nat, j: nat)
    requires i <= j <= |data| && Row(data, i) == Row(data, j)
    ensures Col(data, j) == Col(data, i) + (j - i)
    ensures forall k :: i <= k < j ==> data[k] != Newline
    decreases j
  {
    if i < j {
      RowMonotone(data, i, j - 1);
      SameRow(data, i, j - 1);
    }
  }

  /** Two codes that are not newlines are stored at different places. */
  lemma {:induction false} AtDistinct(data: seq<int>, i: nat, j: nat)
    requires i < j < |data| && data[i] != Newline
    ensures At(data, i) != At(data, j)
  {
    if Row(data, i) == Row(data, j) {
      SameRow(data, i, j);
    }
  }

  /** The stored cells are exactly the places of the codes read that are not newlines. */
  lemma {:induction false} FillKeys(data: seq<int>, n: nat)
    requires n <= |data|
    ensures forall p :: p in Fill(data, n) <==> exists i :: 0 <= i < n && data[i] != Newline && At(data, i) == p
  {
    if n > 0 {
      FillKeys(data, n - 1);
      forall p | p in Fill(data, n)
        ensures exists i :: 0 <= i < n && data[i] != Newline && At(data, i) == p
      {
        if p in Fill(data, n - 1) {
          var i :| 0 <= i < n - 1 && data[i] != Newline && At(data, i) == p;
        } else {
          assert data[n - 1] != Newline && At(data, n - 1) == p;
        }
      }
    }
  }

  /** The code at index `i`, if not a newline, is stored at `(Col, Row)` and nothing later overwrites it. */
  lemma {:induction false} FillValue(data: seq<int>, n: nat, i: nat)
    requires i < n <= |data| && data[i] != Newline
    ensures At(data, i) in Fill(data, n) && Fill(data, n)[At(data, i)] == [data[i]]
    decreases n
  {
    if i < n - 1 {
      FillValue(data, n - 1, i);
      AtDistinct(data, i, n - 1);
    }
  }

  /** As many cells as codes that are not newlines. */
  lemma {:induction false} FillSize(data: seq<int>, n: nat)
    requires n <= |data|
    ensures |Fill(data, n)| == Stored(data, n)
  {
    if n > 0 {
      FillSize(data, n - 1);
      if data[n - 1] != Newline {
        FillKeys(data, n - 1);
        if At(data, n - 1) in Fill(data, n - 1) {
          var i :| 0 <= i < n - 1 && data[i] != Newline && At(data, i) == At(data, n - 1);
          AtDistinct(data, i, n - 1);
        }
      }
    }
  }

  /** The bounding box of a grid: `xs[0]`, `xs[-1]`, `ys[0]`, `ys[-1]`. */
  datatype Box = Box(xmin: int, xmax: int, ymin: int, ymax: int)

  predicate InBox(b: Box, p: Vec)
  {
    b.xmin <= p.x <= b.xmax && b.ymin <= p.y <= b.ymax
  }

  function Xs(grid: Grid): set<int>
  {
    set p | p in grid :: p.x
  }

  function Ys(grid: Grid): set<int>
  {
    set p | p in grid :: p.y
  }

  /** The box of the keys; an empty grid raises `IndexError` on `xs[0]`. */
  function Bounds(grid: Grid): (r: Option<Box>)
    ensures r.None? <==> grid == map[]
    ensures r.Some? ==> forall p :: p in grid ==> InBox(r.value, p)
    ensures r.Some? ==> r.value.xmin in Xs(grid) && r.value.xmax in Xs(grid)
    ensures r.Some? ==> r.value.ymin in Ys(grid) && r.value.ymax in Ys(grid)
  {
    if grid == map[] then None
    else
      var p :| p in grid;
      assert p.x in Xs(grid) && p.y in Ys(grid);
      var box := Box(Least(Xs(grid)).value, Greatest(Xs(grid)).value, Least(Ys(grid)).value, Greatest(Ys(grid)).value);
      KeysInBox(grid, box);
      Some(box)
  }

  /** A box spanning the least to the greatest coordinates holds every key. */
  lemma {:induction false} KeysInBox(grid: Grid, box: Box)
    requires forall v :: v in Xs(grid) ==> box.xmin <= v <= box.xmax
    requires forall v :: v in Ys(grid) ==> box.ymin <= v <= box.ymax
    ensures forall q :: q in grid ==> InBox(box, q)
  {
    forall q | q in grid
      ensures InBox(box, q)
    {
      assert q.x in Xs(grid) && q.y in Ys(grid);
    }
  }

  /** A lookup in a `defaultdict(str)`: a missing key reads as the empty string. */
  function Get(grid: Grid, p: Vec): Text
  {
    if p in grid then grid[p] else []
  }

  /** The cells of the box the printing loops have looked up so far: rows before `y`, and row `y` before `x`. */
  predicate Visited(b: Box, p: Vec, y: int, x: int)
  {
    InBox(b, p) && (p.y < y || (p.y == y && p.x < x))
  }

  /** `grid` is `cells` with an empty string added at every cell of the box the printing loops have looked up. */
  ghost predicate Padded(grid: Grid, cells: Grid, b: Box, y: int, x: int)
  {
    (forall p :: p in grid <==> p in cells || Visited(b, p, y, x))
    && (forall p :: p in grid ==> grid[p] == Get(cells, p))
  }

  /** The dictionary `create_grid` returns: the stored codes, and the empty strings its printing lookups insert. */
  ghost predicate Created(data: seq<int>, grid: Grid)
  {
    var cells := Fill(data, |data|);
    Bounds(cells).Some? && Padded(grid, cells, Bounds(cells).value, Bounds(cells).value.ymax + 1, Bounds(cells).value.xmin)
  }

  /** The loop over the codes; an out-of-range code raises `ValueError` in `chr`. */
  method ReadCodes(data: seq<int>) returns (r: Option<Grid>)
    ensures r.None? <==> !ValidCodes(data)
    ensures r.Some? ==> r.value == Fill(data, |data|)
  {
    var grid: Grid := map[];
    var y := 0;
    var x := 0;
    var i := 0;
    while i < |data|
      invariant 0 <= i <= |data|
      invariant ValidCodes(data[..i])
      invariant grid == Fill(data, i) && x == Col(data, i) && y == Row(data, i)
    {
      var d := data[i];
      if !(0 <= d <= MaxCode) {
        return None;
      }
      if d == Newline {
        y := y + 1;
        x := 0;
      } else {
        grid := grid[Vec(x, y) := [d]];
        x := x + 1;
      }
      assert data[..i + 1] == data[..i] + [d];
      i := i + 1;
    }
    assert data[..i] == data;
    return Some(grid);
  }

  /** One row of the printing loop: `grid[Vec(x, y)]` for every `x` of the box. */
  method PadRow(cells: Grid, b: Box, y: int, grid0: Grid) returns (grid: Grid)
    requires b.ymin <= y <= b.ymax && b.xmin <= b.xmax
    requires Padded(grid0, cells, b, y, b.xmin)
    ensures Padded(grid, cells, b, y + 1, b.xmin)
  {
    grid := grid0;
    var x := b.xmin;
    while x < b.xmax + 1
      invariant b.xmin <= x <= b.xmax + 1
      invariant Padded(grid, cells, b, y, x)
    {
      if Vec(x, y) !in grid {
        grid := grid[Vec(x, y) := []];
      }
      x := x + 1;
    }
  }

  /** `create_grid`: read the codes, then look up every cell of the box (the printing is not modelled). */
  method CreateGrid(data: seq<int>) returns (r: Option<Grid>)
    ensures r.None? <==> !ValidCodes(data) || Stored(data, |data|) == 0
    ensures r.Some? ==> Created(data, r.value)
  {
    FillSize(data, |data|);
    var read := ReadCodes(data);
    if read.None? {
      return None;
    }
    var cells := read.value;
    var bounds := Bounds(cells);
    if bounds.None? {
      return None;
    }
    var b := bounds.value;
    var grid := cells;
    var y := b.ymin;
    while y < b.ymax + 1
      invariant b.ymin <= y <= b.ymax + 1
      invariant Padded(grid, cells, b, y, b.xmin)
    {
      grid := PadRow(cells, b, y, grid);
      y := y + 1;
    }
    return Some(grid);
  }

  /** What `create_grid` returns: each code that is not a newline at its column and row, every other cell empty. */
  lemma {:induction false} CreateGridCells(data: seq<int>, grid: Grid)
    requires Created(data, grid)
    ensures forall i :: 0 <= i < |data| && data[i] != Newline ==> At(data, i) in grid && grid[At(data, i)] == [data[i]]
    ensures forall p :: p in grid && grid[p] != [] ==>
      exists i :: 0 <= i < |data| && data[i] != Newline && At(data, i) == p
  {
    var cells := Fill(data, |data|);
    FillKeys(data, |data|);
    forall i | 0 <= i < |data| && data[i] != Newline
      ensures At(data, i) in cells && cells[At(data, i)] == [data[i]]
    {
      FillValue(data, |data|, i);
    }
  }

  /** The cells holding a character are as many as the codes that are not newlines. */
  lemma {:induction false} CreateGridCount(data: seq<int>, grid: Grid)
    requires Created(data, grid)
    ensures |set p | p in grid && grid[p] != []| == Stored(data, |data|)
  {
    var cells := Fill(data, |data|);
    FillKeys(data, |data|);
    FillSize(data, |data|);
    forall p | p in cells
      ensures cells[p] != []
    {
      var i :| 0 <= i < |data| && data[i] != Newline && At(data, i) == p;
      FillValue(data, |data|, i);
    }
    assert (set p | p in grid && grid[p] != []) == cells.Keys;
  }

  // ---------------------------------------------------------------- alignment_paremeter_sum

  /** The cell and its four neighbours all read `"#"`. */
  predicate Intersection(grid: Grid, p: Vec)
  {
    Get(grid, p) == Scaffold
    && Get(grid, Vec(p.x + 1, p.y)) == Scaffold
    && Get(grid, Vec(p.x - 1, p.y)) == Scaffold
    && Get(grid, Vec(p.x, p.y + 1)) == Scaffold
    && Get(grid, Vec(p.x, p.y - 1)) == Scaffold
  }

  /** The end of `range(lo, hi)` clamped so the range is never reversed. */
  function End(lo: int, hi: int): int
  {
    if hi < lo then lo else hi
  }

  /** The intersections of row `y` for `x` in `range(x0, x)`, left to right. */
  function RowHits(grid: Grid, y: int, x0: int, x: int): seq<Vec>
    requires x0 <= x
    decreases x - x0
  {
    if x == x0 then []
    else RowHits(grid, y, x0, x - 1) + (if Intersection(grid, Vec(x - 1, y)) then [Vec(x - 1, y)] else [])
  }

  /** The intersections for `y` in `range(y0, y)` and `x` in `range(x0, x1)`, in row-major order. */
  function Hits(grid: Grid, y0: int, y: int, x0: int, x1: int): seq<Vec>
    requires y0 <= y
    decreases y - y0
  {
    if y == y0 then []
    else Hits(grid, y0, y - 1, x0, x1) + RowHits(grid, y - 1, x0, End(x0, x1))
  }

  /** `sum(vec.x * vec.y for vec in intersections)`. */
  function Weight(s: seq<Vec>): int
  {
    if s == [] then 0 else Weight(s[..|s| - 1]) + s[|s| - 1].x * s[|s| - 1].y
  }

  /** The intersections the source scans: `range(ys[0] + 1, ys[-1] - 1)` by `range(xs[0] + 1, xs[-1] - 1)`. */
  function ScannedHits(grid: Grid, b: Box): seq<Vec>
  {
    Hits(grid, b.ymin + 1, End(b.ymin + 1, b.ymax - 1), b.xmin + 1, b.xmax - 1)
  }

  /** `alignment_paremeter_sum` as written; an empty grid raises `IndexError`. */
  function AlignmentSpec(grid: Grid): Option<int>
  {
    match Bounds(grid)
    case None => None
    case Some(b) => Some(Weight(ScannedHits(grid, b)))
  }

  /** One row of the scan. */
  method ScanRow(grid: Grid, y: int, x0: int, x1: int, found0: seq<Vec>) returns (found: seq<Vec>)
    ensures found == found0 + RowHits(grid, y, x0, End(x0, x1))
  {
    found := found0;
    var x := x0;
    while x < x1
      invariant x0 <= x <= End(x0, x1)
      invariant found == found0 + RowHits(grid, y, x0, x)
    {
      if Get(grid, Vec(x, y)) == Scaffold
        && Get(grid, Vec(x + 1, y)) == Scaffold
        && Get(grid, Vec(x - 1, y)) == Scaffold
        && Get(grid, Vec(x, y + 1)) == Scaffold
        && Get(grid, Vec(x, y - 1)) == Scaffold
      {
        found := found + [Vec(x, y)];
      }
      x := x + 1;
    }
  }

  /** `alignment_paremeter_sum`: the nested scan, then the sum of `x * y`. */
  method AlignmentSum(grid: Grid) returns (r: Option<int>)
    ensures r == AlignmentSpec(grid)
  {
    var bounds := Bounds(grid);
    if bounds.None? {
      return None;
    }
    var b := bounds.value;
    var intersections: seq<Vec> := [];
    var y := b.ymin + 1;
    while y < b.ymax - 1
      invariant b.ymin + 1 <= y <= End(b.ymin + 1, b.ymax - 1)
      invariant intersections == Hits(grid, b.ymin + 1, y, b.xmin + 1, b.xmax - 1)
    {
      intersections := ScanRow(grid, y, b.xmin + 1, b.xmax - 1, intersections);
      y := y + 1;
    }
    return Some(Weight(intersections));
  }

  lemma {:induction false} RowHitsMembers(grid: Grid, y: int, x0: int, x: int)
    requires x0 <= x
    ensures forall p :: p in RowHits(grid, y, x0, x) <==> p.y == y && x0 <= p.x < x && Intersection(grid, p)
    decreases x - x0
  {
    if x > x0 {
      RowHitsMembers(grid, y, x0, x - 1);
    }
  }

  /** The scan finds exactly the intersections inside its two ranges. */
  lemma {:induction false} HitsMembers(grid: Grid, y0: int, y: int, x0: int, x1: int)
    requires y0 <= y
    ensures forall p :: p in Hits(grid, y0, y, x0, x1) <==>
      y0 <= p.y < y && x0 <= p.x < x1 && Intersection(grid, p)
    decreases y - y0
  {
    if y > y0 {
      HitsMembers(grid, y0, y - 1, x0, x1);
      RowHitsMembers(grid, y - 1, x0, End(x0, x1));
    }
  }

  /** An intersection has scaffold on all four sides, so it lies strictly inside the box. */
  lemma {:induction false} IntersectionInside(grid: Grid, p: Vec)
    requires Bounds(grid).Some? && Intersection(grid, p)
    ensures var b := Bounds(grid).value;
      b.xmin < p.x < b.xmax && b.ymin < p.y < b.ymax
  {
    assert Vec(p.x + 1, p.y) in grid && Vec(p.x - 1, p.y) in grid;
    assert Vec(p.x, p.y + 1) in grid && Vec(p.x, p.y - 1) in grid;
  }

  /** As written, the sum covers exactly the intersections off the last interior row and column. */
  lemma {:induction false} ScannedHitsMembers(grid: Grid)
    requires Bounds(grid).Some?
    ensures var b := Bounds(grid).value;
      forall p :: p in ScannedHits(grid, b) <==>
        Intersection(grid, p) && p.x < b.xmax - 1 && p.y < b.ymax - 1
  {
    var b := Bounds(grid).value;
    var hits := ScannedHits(grid, b);
    var y1 := End(b.ymin + 1, b.ymax - 1);
    HitsMembers(grid, b.ymin + 1, y1, b.xmin + 1, b.xmax - 1);
    forall p
      ensures p in hits <==> Intersection(grid, p) && p.x < b.xmax - 1 && p.y < b.ymax - 1
    {
      if Intersection(grid, p) {
        IntersectionInside(grid, p);
        if p.x < b.xmax - 1 && p.y < b.ymax - 1 {
          assert y1 == b.ymax - 1;
        }
      }
    }
  }

  /** The intersections of the whole interior: `range(ys[0] + 1, ys[-1])` by `range(xs[0] + 1, xs[-1])`. */
  function InteriorHits(grid: Grid, b: Box): seq<Vec>
  {
    Hits(grid, b.ymin + 1, End(b.ymin + 1, b.ymax), b.xmin + 1, b.xmax)
  }

  /** The alignment sum over every intersection of the grid. */
  function AlignmentIntended(grid: Grid): Option<int>
  {
    match Bounds(grid)
    case None => None
    case Some(b) => Some(Weight(InteriorHits(grid, b)))
  }

  /** Over the whole interior the scan finds every intersection of the grid and nothing else. */
  lemma {:induction false} InteriorHitsMembers(grid: Grid)
    requires Bounds(grid).Some?
    ensures forall p :: p in InteriorHits(grid, Bounds(grid).value) <==> Intersection(grid, p)
  {
    var b := Bounds(grid).value;
    HitsMembers(grid, b.ymin + 1, End(b.ymin + 1, b.ymax), b.xmin + 1, b.xmax);
    forall p | Intersection(grid, p)
      ensures b.xmin < p.x < b.xmax && b.ymin < p.y < b.ymax
    {
      IntersectionInside(grid, p);
    }
  }

  /** The nine cells of a three-by-three picture. */
  const PlusCells: set<Vec> := {
    Vec(0, 0), Vec(1, 0), Vec(2, 0),
    Vec(0, 1), Vec(1, 1), Vec(2, 1),
    Vec(0, 2), Vec(1, 2), Vec(2, 2)}

  /** The picture `.#.` / `###` / `.#.`: `'#'` (35) on the middle row and column, `'.'` (46) in the corners; one intersection, at `(1, 1)`. */
  const Plus: Grid := map p | p in PlusCells :: if p.x == 1 || p.y == 1 then [35] else [46]

  lemma PlusBounds()
    ensures Bounds(Plus) == Some(Box(0, 2, 0, 2))
  {
    PlusSides();
    var b := Bounds(Plus).value;
    assert b.xmin in {0, 1, 2} && b.xmax in {0, 1, 2} && b.ymin in {0, 1, 2} && b.ymax in {0, 1, 2};
    assert InBox(b, Vec(0, 0)) && InBox(b, Vec(2, 2));
  }

  /** Both coordinates of `Plus` range over 0, 1 and 2. */
  lemma PlusSides()
    ensures Xs(Plus) == {0, 1, 2} && Ys(Plus) == {0, 1, 2}
  {
    assert Vec(0, 0) in Plus && Vec(1, 1) in Plus && Vec(2, 2) in Plus;
    assert forall p :: p in Plus ==> p.x in {0, 1, 2} && p.y in {0, 1, 2};
  }

  /** As written the sum misses the intersection of `Plus`, which lies on the last interior row. */
  lemma PlusMissed()
    ensures Intersection(Plus, Vec(1, 1))
    ensures AlignmentSpec(Plus) == Some(0)
    ensures AlignmentIntended(Plus) == Some(1)
  {
    PlusBounds();
    var b := Box(0, 2, 0, 2);
    assert Intersection(Plus, Vec(1, 1)) by {
      assert Plus[Vec(1, 1)] == Scaffold && Plus[Vec(1, 0)] == Scaffold && Plus[Vec(1, 2)] == Scaffold;
      assert Plus[Vec(0, 1)] == Scaffold && Plus[Vec(2, 1)] == Scaffold;
    }
    assert ScannedHits(Plus, b) == Hits(Plus, 1, 1, 1, 1) == [];
    assert RowHits(Plus, 1, 1, 2) == RowHits(Plus, 1, 1, 1) + [Vec(1, 1)] == [Vec(1, 1)];
    assert InteriorHits(Plus, b) == Hits(Plus, 1, 1, 1, 2) + RowHits(Plus, 1, 1, 2) == [Vec(1, 1)];
    assert [Vec(1, 1)][..0] == [];
    assert Weight([Vec(1, 1)]) == Weight([]) + 1 * 1 == 1;
  }
}
