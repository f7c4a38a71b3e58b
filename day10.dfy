/**
 * day10.py: asteroids on a grid. A direction is reduced to lowest terms by
 * dividing by the gcd, and an asteroid sees as many others as there are
 * distinct reduced directions to them.
 */
module Day10 {
  import opened Wrappers
  import opened Numbers

  datatype Vector = Vector(x: int, y: int)

  /** `k` times a vector. */
  function Scale(k: int, v: Vector): Vector
  {
    Vector(k * v.x, k * v.y)
  }

  // ---------------------------------------------------------------- gcd scaling

  /** `(k * a) % (k * b) == k * (a % b)` for a positive `k`. */
  lemma {:induction false} ModScale(k: nat, a: nat, b: nat)
    requires k > 0 && b > 0
    ensures (k * a) % (k * b) == k * (a % b)
  {
    var q, r := a / b, a % b;
    assert a == q * b + r;
    assert k * a == q * (k * b) + k * r;
    assert 0 <= k * r < k * b by {
      MulBounds(k, b - r);
    }
    DivUnique(k * a, k * b, q, k * r);
  }

  lemma {:induction false} NatGcdScale(k: nat, a: nat, b: nat)
    requires k > 0
    ensures NatGcd(k * a, k * b) == k * NatGcd(a, b)
    decreases b
  {
    if b == 0 {
      assert k * b == 0;
    } else {
      assert k * b > 0 by {
        MulBounds(k, b);
      }
      ModScale(k, a, b);
      NatGcdScale(k, b, a % b);
    }
  }

  /** Scaling both arguments by a positive `k` scales their gcd by `k`. */
  lemma {:induction false} GcdScale(k: int, a: int, b: int)
    requires k > 0
    ensures Gcd(k * a, k * b) == k * Gcd(a, b)
  {
    assert Abs(k * a) == k * Abs(a);
    assert Abs(k * b) == k * Abs(b);
    NatGcdScale(k, Abs(a), Abs(b));
  }

  // ---------------------------------------------------------------- normalized

  /**
   * `Vector.normalized`: each component floor-divided by `abs(gcd(x, y))`;
   * the zero vector has gcd 0 and the division raises, which is `None`.
   */
  function Normalized(v: Vector): (r: Option<Vector>)
    ensures r.None? <==> v == Vector(0, 0)
  {
    GcdDivides(v.x, v.y);
    var g := Gcd(v.x, v.y);
    if g == 0 then None else Some(Vector(v.x / g, v.y / g))
  }

  /** The result is in lowest terms and a positive multiple of it gives back the vector. */
  lemma {:induction false} NormalizedLowest(v: Vector)
    requires v != Vector(0, 0)
    ensures var n := Normalized(v).value;
      Gcd(n.x, n.y) == 1 && Scale(Gcd(v.x, v.y), n) == v && Gcd(v.x, v.y) > 0
  {
    GcdDivides(v.x, v.y);
    var g := Gcd(v.x, v.y);
    var n := Normalized(v).value;
    assert v.x == g * n.x && v.y == g * n.y;
    GcdScale(g, n.x, n.y);
    assert g * Gcd(n.x, n.y) == g * 1;
  }

  lemma {:induction false} ExactDivScale(k: int, g: int, x: int)
    requires k > 0 && g > 0 && x % g == 0
    ensures k * g > 0 && (k * x) / (k * g) == x / g
  {
    MulBounds(k, g);
    var q := x / g;
    assert x == q * g;
    assert k * x == q * (k * g) by {
      calc {
        k * x;
        k * (q * g);
        q * (k * g);
      }
    }
    DivUnique(k * x, k * g, q, 0);
  }

  /** A vector scaled by any positive `k` has the same normalized form. */
  lemma {:induction false} NormalizedScale(k: int, v: Vector)
    requires k > 0 && v != Vector(0, 0)
    ensures Scale(k, v) != Vector(0, 0)
    ensures Normalized(Scale(k, v)) == Normalized(v)
  {
    GcdDivides(v.x, v.y);
    var g := Gcd(v.x, v.y);
    GcdScale(k, v.x, v.y);
    ExactDivScale(k, g, v.x);
    ExactDivScale(k, g, v.y);
    assert Scale(k, v) != Vector(0, 0) by {
      MulBounds(k, g);
    }
  }

  /** Normalizing twice is normalizing once. */
  lemma {:induction false} NormalizedIdempotent(v: Vector)
    requires v != Vector(0, 0)
    ensures Normalized(v).value != Vector(0, 0)
    ensures Normalized(Normalized(v).value) == Normalized(v)
  {
    NormalizedLowest(v);
    var n := Normalized(v).value;
    DivUnique(n.x, 1, n.x, 0);
    DivUnique(n.y, 1, n.y, 0);
  }

  // ---------------------------------------------------------------- parse_asteroids

  /** `(x, y)` comes before `(x', y')` in row-major order. */
  predicate Before(a: Vector, b: Vector)
  {
    a.y < b.y || (a.y == b.y && a.x < b.x)
  }

  /** The asteroids of row `y` among its first `n` cells, left to right. */
  function RowScan(row: seq<char>, y: int, n: nat): seq<Vector>
    requires n <= |row|
  {
    if n == 0 then []
    else RowScan(row, y, n - 1) + (if row[n - 1] == '#' then [Vector(n - 1, y)] else [])
  }

  /** The asteroids of the first `n` rows, in row-major order. */
  function Scan(grid: seq<seq<char>>, n: nat): seq<Vector>
    requires n <= |grid|
  {
    if n == 0 then [] else Scan(grid, n - 1) + RowScan(grid[n - 1], n - 1, |grid[n - 1]|)
  }

  /** The cell at `v` is an asteroid. */
  predicate IsAsteroid(grid: seq<seq<char>>, v: Vector)
  {
    0 <= v.y < |grid| && 0 <= v.x < |grid[v.y]| && grid[v.y][v.x] == '#'
  }

  lemma {:induction false} RowScanShape(row: seq<char>, y: int, n: nat)
    requires n <= |row|
    ensures forall v :: v in RowScan(row, y, n) <==> v.y == y && 0 <= v.x < n && row[v.x] == '#'
    ensures forall i, j :: 0 <= i < j < |RowScan(row, y, n)| ==> RowScan(row, y, n)[i].x < RowScan(row, y, n)[j].x
  {
    if n > 0 {
      RowScanShape(row, y, n - 1);
    }
  }

  /** The scan holds exactly the asteroids of the first `n` rows, each after the ones before it in row-major order. */
  lemma {:induction false} ScanShape(grid: seq<seq<char>>, n: nat)
    requires n <= |grid|
    ensures forall v :: v in Scan(grid, n) <==> v.y < n && IsAsteroid(grid, v)
    ensures forall i, j :: 0 <= i < j < |Scan(grid, n)| ==> Before(Scan(grid, n)[i], Scan(grid, n)[j])
  {
    if n > 0 {
      ScanShape(grid, n - 1);
      var row := RowScan(grid[n - 1], n - 1, |grid[n - 1]|);
      RowScanShape(grid[n - 1], n - 1, |grid[n - 1]|);
      var s := Scan(grid, n);
      assert s == Scan(grid, n - 1) + row;
      forall i, j | 0 <= i < j < |s|
        ensures Before(s[i], s[j])
      {
        var m := |Scan(grid, n - 1)|;
        if j >= m {
          assert s[j] == row[j - m] && s[j] in row;
          if i >= m {
            assert s[i] == row[i - m];
          } else {
            assert s[i] in Scan(grid, n - 1);
          }
        }
      }
    }
  }

  /** `parse_asteroids`: the nested loops over rows and columns. */
  method ParseAsteroids(grid: seq<seq<char>>) returns (asteroids: seq<Vector>)
    ensures asteroids == Scan(grid, |grid|)
  {
    asteroids := [];
    var y := 0;
    while y < |grid|
      invariant 0 <= y <= |grid|
      invariant asteroids == Scan(grid, y)
    {
      var x := 0;
      while x < |grid[y]|
        invariant 0 <= x <= |grid[y]|
        invariant asteroids == Scan(grid, y) + RowScan(grid[y], y, x)
      {
        if grid[y][x] == '#' {
          asteroids := asteroids + [Vector(x, y)];
        }
        x := x + 1;
      }
      y := y + 1;
    }
  }

  /** `parse_asteroids` returns exactly the `'#'` cells, in row-major order. */
  lemma {:induction false} ParseAsteroidsSpec(grid: seq<seq<char>>)
    ensures forall v :: v in Scan(grid, |grid|) <==> IsAsteroid(grid, v)
    ensures forall i, j :: 0 <= i < j < |Scan(grid, |grid|)| ==> Before(Scan(grid, |grid|)[i], Scan(grid, |grid|)[j])
  {
    ScanShape(grid, |grid|);
  }

  // ---------------------------------------------------------------- count_visible_asteroids

  /** The reduced direction from `origin` to another asteroid. */
  function Direction(origin: Vector, a: Vector): Vector
    requires a != origin
  {
    Normalized(Vector(a.x - origin.x, a.y - origin.y)).value
  }

  /** The set `visible` after the loop has seen `s`. */
  function Directions(origin: Vector, s: seq<Vector>): set<Vector>
  {
    if s == [] then {}
    else
      var last := s[|s| - 1];
      Directions(origin, s[..|s| - 1]) + (if last != origin then {Direction(origin, last)} else {})
  }

  /** How many entries of `s` differ from `origin`. */
  function Others(origin: Vector, s: seq<Vector>): nat
  {
    if s == [] then 0 else Others(origin, s[..|s| - 1]) + (if s[|s| - 1] != origin then 1 else 0)
  }

  /** A direction is visible exactly when some other asteroid lies in it. */
  lemma {:induction false} DirectionsMembers(origin: Vector, s: seq<Vector>, d: Vector)
    ensures d in Directions(origin, s) <==> exists i :: 0 <= i < |s| && s[i] != origin && Direction(origin, s[i]) == d
  {
    if s != [] {
      var init := s[..|s| - 1];
      DirectionsMembers(origin, init, d);
      if d in Directions(origin, init) {
        var i :| 0 <= i < |init| && init[i] != origin && Direction(origin, init[i]) == d;
        assert s[i] == init[i];
      }
      if exists i :: 0 <= i < |s| && s[i] != origin && Direction(origin, s[i]) == d {
        var i :| 0 <= i < |s| && s[i] != origin && Direction(origin, s[i]) == d;
        if i < |init| {
          assert init[i] == s[i];
        }
      }
    }
  }

  /** The count never exceeds the number of other asteroids. */
  lemma {:induction false} DirectionsBound(origin: Vector, s: seq<Vector>)
    ensures |Directions(origin, s)| <= Others(origin, s)
  {
    if s != [] {
      DirectionsBound(origin, s[..|s| - 1]);
    }
  }

  /** Asteroids on one ray from the origin, at any positive multiples, share one direction: only one of them counts. */
  lemma {:induction false} SameRay(origin: Vector, a: Vector, b: Vector, k: int)
    requires a != origin && k > 0
    requires Vector(b.x - origin.x, b.y - origin.y) == Scale(k, Vector(a.x - origin.x, a.y - origin.y))
    ensures b != origin && Direction(origin, b) == Direction(origin, a)
  {
    NormalizedScale(k, Vector(a.x - origin.x, a.y - origin.y));
  }

  /** `count_visible_asteroids(origin, asteroids)`: the loop that fills `visible`, and its size. */
  method CountVisible(origin: Vector, asteroids: seq<Vector>) returns (count: nat)
    ensures count == |Directions(origin, asteroids)|
  {
    var visible: set<Vector> := {};
    var i := 0;
    while i < |asteroids|
      invariant 0 <= i <= |asteroids|
      invariant visible == Directions(origin, asteroids[..i])
    {
      var asteroid := asteroids[i];
      assert asteroids[..i + 1][..i] == asteroids[..i];
      if asteroid != origin {
        var direction := Normalized(Vector(asteroid.x - origin.x, asteroid.y - origin.y)).value;
        visible := visible + {direction};
      }
      i := i + 1;
    }
    assert asteroids[..i] == asteroids;
    count := |visible|;
  }
}
