/**
 * day12.py: moons that pull on each other. Each step first adjusts every
 * pair's velocities by one unit per axis towards each other, then moves each
 * moon by its velocity; the energy of a moon is its absolute position sum
 * times its absolute velocity sum, and the period of the whole system is the
 * least common multiple of the per-axis periods.
 */
module Day12 {
  import opened Wrappers
  import Numbers

  /**
   * The `Vec` dataclass, as a value. The gravity pass changes `vel.x`, `vel.y`
   * and `vel.z` in place, but no `Vec` object is shared between moons, so
   * replacing the whole value loses nothing.
   */
  datatype Vec = Vec(x: int, y: int, z: int)

  const Zero := Vec(0, 0, 0)

  /** `Vec.__add__`. */
  function Add(a: Vec, b: Vec): (r: Vec)
    ensures r.x == a.x + b.x && r.y == a.y + b.y && r.z == a.z + b.z
  {
    Vec(a.x + b.x, a.y + b.y, a.z + b.z)
  }

  lemma {:induction false} AddCommutative(a: Vec, b: Vec)
    ensures Add(a, b) == Add(b, a)
  {
  }

  lemma {:induction false} AddAssociative(a: Vec, b: Vec, c: Vec)
    ensures Add(Add(a, b), c) == Add(a, Add(b, c))
  {
  }

  lemma {:induction false} AddZero(a: Vec)
    ensures Add(a, Zero) == a && Add(Zero, a) == a
  {
  }

  function Neg(a: Vec): Vec
  {
    Vec(-a.x, -a.y, -a.z)
  }

  class Moon {
    var pos: Vec
    var vel: Vec
    var name: string

    constructor (pos: Vec, vel: Vec, name: string)
      ensures this.pos == pos && this.vel == vel && this.name == name
    {
      this.pos := pos;
      this.vel := vel;
      this.name := name;
    }

    /** `Moon.update`: the position moves by the velocity, which stays as it was. */
    method Update()
      modifies this
      ensures pos == Add(old(pos), old(vel)) && vel == old(vel) && name == old(name)
    {
      pos := Add(pos, vel);
    }

    /** `Moon.total_energy`: never negative, and zero exactly when the moon stands still or sits at the origin. */
    function TotalEnergy(): (r: int)
      reads this
      ensures r >= 0
      ensures r == 0 <==> pos == Zero || vel == Zero
    {
      var potential := Numbers.Abs(pos.x) + Numbers.Abs(pos.y) + Numbers.Abs(pos.z);
      var kinetic := Numbers.Abs(vel.x) + Numbers.Abs(vel.y) + Numbers.Abs(vel.z);
      ProductZero(potential, kinetic);
      potential * kinetic
    }
  }

  lemma {:induction false} ProductZero(a: int, b: int)
    requires a >= 0 && b >= 0
    ensures a * b >= 0
    ensures a * b == 0 <==> a == 0 || b == 0
  {
    if a > 0 && b > 0 {
      Numbers.MulBounds(a, b);
    }
  }

  // ---------------------------------------------------------------- lcm

  /** `x * y // math.gcd(x, y)`; `None` for the division by zero when both are zero. */
  function Lcm2(x: int, y: int): Option<int>
  {
    var g := Numbers.Gcd(x, y);
    if g == 0 then None else Some(x * y / g)
  }

  /** `lcm(x, y, z)`; `None` where the source divides by zero. */
  function Lcm(x: int, y: int, z: int): Option<int>
  {
    match Lcm2(x, y)
    case None => None
    case Some(a) => Lcm2(a, z)
  }

  /** Dividing a product by a divisor of one factor divides that factor. */
  lemma {:induction false} QuotientOfProduct(x: int, y: int, g: int)
    requires g > 0 && Numbers.Divides(g, y)
    ensures x * y / g == x * (y / g)
  {
    var k := y / g;
    assert y == g * k;
    calc {
      x * y;
      x * (g * k);
      (x * k) * g;
    }
    Numbers.DivUnique(x * y, g, x * k, 0);
  }

  /** Unless both are zero, `x * y // gcd(x, y)` is a common multiple, positive for positive inputs. */
  lemma {:induction false} Lcm2Multiple(x: int, y: int)
    requires x != 0 || y != 0
    ensures Lcm2(x, y).Some?
    ensures Numbers.Divides(x, Lcm2(x, y).value) && Numbers.Divides(y, Lcm2(x, y).value)
    ensures x > 0 && y > 0 ==> Lcm2(x, y).value > 0
  {
    var g := Numbers.Gcd(x, y);
    Numbers.GcdDivides(x, y);
    QuotientOfProduct(x, y, g);
    QuotientOfProduct(y, x, g);
    assert x * y == y * x;
    Numbers.DividesMultiple(x, y / g);
    Numbers.DividesMultiple(y, x / g);
    if x > 0 && y > 0 {
      var ky := y / g;
      assert y == g * ky;
      if ky <= 0 {
        Numbers.MulBounds(g, ky);
      }
      Numbers.MulBounds(x, ky);
    }
  }

  /** For positive `x`, `y` and `z`, `lcm(x, y, z)` is a positive common multiple of all three. */
  lemma {:induction false} LcmMultiple(x: int, y: int, z: int)
    requires x > 0 && y > 0 && z > 0
    ensures Lcm(x, y, z).Some? && Lcm(x, y, z).value > 0
    ensures Numbers.Divides(x, Lcm(x, y, z).value)
    ensures Numbers.Divides(y, Lcm(x, y, z).value)
    ensures Numbers.Divides(z, Lcm(x, y, z).value)
  {
    Lcm2Multiple(x, y);
    var a := Lcm2(x, y).value;
    Lcm2Multiple(a, z);
    Numbers.DividesTrans(x, a, Lcm(x, y, z).value);
    Numbers.DividesTrans(y, a, Lcm(x, y, z).value);
  }

  // ---------------------------------------------------------------- gravity

  /** The three axes, which the gravity pass treats independently. */
  datatype Axis = X | Y | Z

  function Coord(v: Vec, a: Axis): int
  {
    match a
    case X => v.x
    case Y => v.y
    case Z => v.z
  }

  /** The velocity change one moon at `from` receives from one at `to`: one unit per axis towards it. */
  function Toward(from: Vec, to: Vec): Vec
  {
    Vec(Numbers.Sign(to.x - from.x), Numbers.Sign(to.y - from.y), Numbers.Sign(to.z - from.z))
  }

  /** On axis `a`, the pull on a moon at `x` from the first `h` moons of `q`. */
  function AxisPull(x: Vec, q: seq<Vec>, h: nat, a: Axis): int
    requires h <= |q|
  {
    if h == 0 then 0 else AxisPull(x, q, h - 1, a) + Numbers.Sign(Coord(q[h - 1], a) - Coord(x, a))
  }

  /** The pull on a moon at `x` from the first `h` moons of `q`, on all three axes. */
  function Pull(x: Vec, q: seq<Vec>, h: nat): Vec
    requires h <= |q|
  {
    Vec(AxisPull(x, q, h, X), AxisPull(x, q, h, Y), AxisPull(x, q, h, Z))
  }

  lemma {:induction false} PullStep(x: Vec, q: seq<Vec>, h: nat)
    requires h < |q|
    ensures Pull(x, q, h + 1) == Add(Pull(x, q, h), Toward(x, q[h]))
  {
  }

  /** What one gravity pass should do: each moon gains the pull of all moons, itself included at no cost. */
  function Gravity(p: seq<Vec>, v: seq<Vec>): (r: seq<Vec>)
    requires |p| == |v|
    ensures |r| == |v|
  {
    seq(|v|, k requires 0 <= k < |v| => Add(v[k], Pull(p[k], p, |p|)))
  }

  /** Each pull moves a component by at most one. */
  lemma {:induction false} AxisPullWithin(x: Vec, q: seq<Vec>, h: nat, a: Axis)
    requires h <= |q|
    ensures Numbers.Abs(AxisPull(x, q, h, a)) <= h
    decreases h
  {
    if h > 0 {
      AxisPullWithin(x, q, h - 1, a);
    }
  }

  /** A moon among the pullers pulls itself by nothing, so only the others count. */
  lemma {:induction false} AxisPullSelf(q: seq<Vec>, k: nat, h: nat, a: Axis)
    requires k < h <= |q|
    ensures Numbers.Abs(AxisPull(q[k], q, h, a)) <= h - 1
    decreases h
  {
    if h - 1 == k {
      AxisPullWithin(q[k], q, h - 1, a);
    } else {
      AxisPullSelf(q, k, h - 1, a);
    }
  }

  /** With `n` moons, a gravity pass moves each velocity component by at most `n - 1`. */
  lemma {:induction false} GravityBound(p: seq<Vec>, v: seq<Vec>, k: int, a: Axis)
    requires |p| == |v| && 0 <= k < |p|
    ensures Numbers.Abs(Coord(Gravity(p, v)[k], a) - Coord(v[k], a)) <= |p| - 1
  {
    AxisPullSelf(p, k, |p|, a);
  }

  /** On axis `a`, the sum of the first `h` vectors of `v`. */
  function Total(v: seq<Vec>, h: nat, a: Axis): int
    requires h <= |v|
  {
    if h == 0 then 0 else Total(v, h - 1, a) + Coord(v[h - 1], a)
  }

  /** On axis `a`, the pulls that the first `m` moons receive from the first `b`, added up. */
  function Pulls(p: seq<Vec>, m: nat, b: nat, a: Axis): int
    requires m <= |p| && b <= |p|
  {
    if m == 0 then 0 else Pulls(p, m - 1, b, a) + AxisPull(p[m - 1], p, b, a)
  }

  /** One more puller adds, with the opposite sign, the pull that the receivers exert on it. */
  lemma {:induction false} PullsExtend(p: seq<Vec>, m: nat, b: nat, a: Axis)
    requires m <= |p| && b < |p|
    ensures Pulls(p, m, b + 1, a) == Pulls(p, m, b, a) - AxisPull(p[b], p, m, a)
    decreases m
  {
    if m > 0 {
      PullsExtend(p, m - 1, b, a);
    }
  }

  /** The pulls within any group of moons cancel out. */
  lemma {:induction false} PullsCancel(p: seq<Vec>, b: nat, a: Axis)
    requires b <= |p|
    ensures Pulls(p, b, b, a) == 0
    decreases b
  {
    if b > 0 {
      PullsCancel(p, b - 1, a);
      PullsExtend(p, b - 1, b - 1, a);
    }
  }

  lemma {:induction false} GravityTotalPrefix(p: seq<Vec>, v: seq<Vec>, h: nat, a: Axis)
    requires |p| == |v| && h <= |p|
    ensures Total(Gravity(p, v), h, a) == Total(v, h, a) + Pulls(p, h, |p|, a)
    decreases h
  {
    if h > 0 {
      GravityTotalPrefix(p, v, h - 1, a);
    }
  }

  /** A gravity pass keeps the sum of the velocities on every axis. */
  lemma {:induction false} GravityConserves(p: seq<Vec>, v: seq<Vec>, a: Axis)
    requires |p| == |v|
    ensures Total(Gravity(p, v), |v|, a) == Total(v, |v|, a)
  {
    GravityTotalPrefix(p, v, |p|, a);
    PullsCancel(p, |p|, a);
  }

  // ---------------------------------------------------------------- the pass

  /** The moons are distinct objects, as the list built from the input is. */
  predicate Distinct(moons: seq<Moon>)
  {
    forall i, j :: 0 <= i < j < |moons| ==> moons[i] != moons[j]
  }

  function Positions(moons: seq<Moon>): (r: seq<Vec>)
    reads set m | m in moons
    ensures |r| == |moons|
  {
    seq(|moons|, k requires 0 <= k < |moons| reads set m | m in moons => moons[k].pos)
  }

  function Velocities(moons: seq<Moon>): (r: seq<Vec>)
    reads set m | m in moons
    ensures |r| == |moons|
  {
    seq(|moons|, k requires 0 <= k < |moons| reads set m | m in moons => moons[k].vel)
  }

  function Names(moons: seq<Moon>): (r: seq<string>)
    reads set m | m in moons
    ensures |r| == |moons|
  {
    seq(|moons|, k requires 0 <= k < |moons| reads set m | m in moons => moons[k].name)
  }

  /** The body of `for moon_a, moon_b in pairs`: one unit per axis towards each other, on both moons. */
  method PairGravity(a: Moon, b: Moon)
    requires a != b
    modifies a, b
    ensures a.vel == Add(old(a.vel), Toward(old(a.pos), old(b.pos)))
    ensures b.vel == Add(old(b.vel), Toward(old(b.pos), old(a.pos)))
    ensures a.pos == old(a.pos) && b.pos == old(b.pos)
    ensures a.name == old(a.name) && b.name == old(b.name)
  {
    if a.pos.x < b.pos.x {
      a.vel := a.vel.(x := a.vel.x + 1);
      b.vel := b.vel.(x := b.vel.x - 1);
    } else if a.pos.x > b.pos.x {
      a.vel := a.vel.(x := a.vel.x - 1);
      b.vel := b.vel.(x := b.vel.x + 1);
    }
    if a.pos.y < b.pos.y {
      a.vel := a.vel.(y := a.vel.y + 1);
      b.vel := b.vel.(y := b.vel.y - 1);
    } else if a.pos.y > b.pos.y {
      a.vel := a.vel.(y := a.vel.y - 1);
      b.vel := b.vel.(y := b.vel.y + 1);
    }
    if a.pos.z < b.pos.z {
      a.vel := a.vel.(z := a.vel.z + 1);
      b.vel := b.vel.(z := b.vel.z - 1);
    } else if a.pos.z > b.pos.z {
      a.vel := a.vel.(z := a.vel.z - 1);
      b.vel := b.vel.(z := b.vel.z + 1);
    }
  }

  /**
   * What moon `k` has received once the pairs before `(i, j)` of
   * `itertools.combinations` have been through the pass.
   */
  function Received(p: seq<Vec>, k: nat, i: nat, j: nat): Vec
    requires k < |p| && i < |p| && j <= |p|
  {
    if k < i then Pull(p[k], p, |p|)
    else if k == i then Pull(p[k], p, j)
    else Add(Pull(p[k], p, i), if k < j then Toward(p[k], p[i]) else Zero)
  }

  /** What moon `k` has received once the pairs whose first moon is below `i` have been through the pass. */
  function ReceivedBefore(p: seq<Vec>, k: nat, i: nat): Vec
    requires k < |p| && i <= |p|
  {
    if k < i then Pull(p[k], p, |p|) else Pull(p[k], p, i)
  }

  /** Pair `(i, i + 1)` is the first of those starting at `i`; moon `i` has met itself at no cost. */
  lemma {:induction false} ReceivedStart(p: seq<Vec>, k: nat, i: nat)
    requires k < |p| && i < |p|
    ensures Received(p, k, i, i + 1) == ReceivedBefore(p, k, i)
  {
    PullStep(p[k], p, i);
  }

  /** Pair `(i, j)` adds one pull to each of its two moons and nothing to the others. */
  lemma {:induction false} ReceivedStep(p: seq<Vec>, k: nat, i: nat, j: nat)
    requires k < |p| && i < j < |p|
    ensures Received(p, k, i, j + 1) ==
      if k == i then Add(Received(p, k, i, j), Toward(p[i], p[j]))
      else if k == j then Add(Received(p, k, i, j), Toward(p[j], p[i]))
      else Received(p, k, i, j)
  {
    PullStep(p[k], p, j);
  }

  /** After the last pair starting at `i`, moon `i` has met everyone and the later moons have met moon `i`. */
  lemma {:induction false} ReceivedEnd(p: seq<Vec>, k: nat, i: nat)
    requires k < |p| && i < |p|
    ensures Received(p, k, i, |p|) == ReceivedBefore(p, k, i + 1)
  {
    PullStep(p[k], p, i);
  }

  /** The moons' state once the pairs before `(i, j)` have been through the pass. */
  ghost predicate PassAt(moons: seq<Moon>, i: nat, j: nat, p: seq<Vec>, v: seq<Vec>, names: seq<string>)
    requires i < |moons| == |p| == |v| == |names| && j <= |moons|
    reads set m | m in moons
  {
    forall k :: 0 <= k < |moons| ==>
      moons[k].pos == p[k] && moons[k].name == names[k] && moons[k].vel == Add(v[k], Received(p, k, i, j))
  }

  /** Pair `(i, j)` of `itertools.combinations` through the pass: the received pulls move on from `j` to `j + 1`. */
  method PairStep(moons: seq<Moon>, i: nat, j: nat, ghost p: seq<Vec>, ghost v: seq<Vec>, ghost names: seq<string>)
    requires Distinct(moons) && i < j < |moons| == |p| == |v| == |names|
    requires PassAt(moons, i, j, p, v, names)
    modifies moons[i], moons[j]
    ensures PassAt(moons, i, j + 1, p, v, names)
  {
    PairGravity(moons[i], moons[j]);
    forall k | 0 <= k < |moons|
      ensures moons[k].pos == p[k] && moons[k].name == names[k]
      ensures moons[k].vel == Add(v[k], Received(p, k, i, j + 1))
    {
      ReceivedStep(p, k, i, j);
      if k != i && k != j {
        assert moons[k] != moons[i] && moons[k] != moons[j];
        assert moons[k].pos == old(moons[k].pos);
        assert moons[k].vel == old(moons[k].vel);
        assert moons[k].name == old(moons[k].name);
      } else if k == i {
        assert moons[k].vel == Add(old(moons[k].vel), Toward(p[i], p[j]));
        AddAssociative(v[k], Received(p, k, i, j), Toward(p[i], p[j]));
      } else {
        assert moons[k].vel == Add(old(moons[k].vel), Toward(p[j], p[i]));
        AddAssociative(v[k], Received(p, k, i, j), Toward(p[j], p[i]));
      }
    }
  }

  /** The pairs `(i, j)` for every `j > i`, in the order `itertools.combinations` lists them. */
  method PairsFrom(moons: seq<Moon>, i: nat, ghost p: seq<Vec>, ghost v: seq<Vec>, ghost names: seq<string>)
    requires Distinct(moons) && i < |moons| == |p| == |v| == |names|
    requires forall k :: 0 <= k < |moons| ==> moons[k].pos == p[k] && moons[k].name == names[k]
    requires forall k :: 0 <= k < |moons| ==> moons[k].vel == Add(v[k], ReceivedBefore(p, k, i))
    modifies set m | m in moons
    ensures forall k :: 0 <= k < |moons| ==> moons[k].pos == p[k] && moons[k].name == names[k]
    ensures forall k :: 0 <= k < |moons| ==> moons[k].vel == Add(v[k], ReceivedBefore(p, k, i + 1))
  {
    var n := |moons|;
    forall k | 0 <= k < n
      ensures moons[k].vel == Add(v[k], Received(p, k, i, i + 1))
    {
      ReceivedStart(p, k, i);
    }
    var j := i + 1;
    while j < n
      invariant i + 1 <= j <= n
      invariant PassAt(moons, i, j, p, v, names)
    {
      PairStep(moons, i, j, p, v, names);
      j := j + 1;
    }
    forall k | 0 <= k < n
      ensures moons[k].vel == Add(v[k], ReceivedBefore(p, k, i + 1))
    {
      ReceivedEnd(p, k, i);
    }
  }

  /** The gravity pass over all pairs: every moon's velocity gains the pull of all the others, and nothing else changes. */
  method GravityPass(moons: seq<Moon>, ghost p: seq<Vec>, ghost v: seq<Vec>)
    requires Distinct(moons)
    requires Positions(moons) == p && Velocities(moons) == v
    modifies set m | m in moons
    ensures Positions(moons) == p && Velocities(moons) == Gravity(p, v)
    ensures Names(moons) == old(Names(moons))
  {
    ghost var names := Names(moons);
    var i := 0;
    while i < |moons|
      invariant 0 <= i <= |moons|
      invariant forall k :: 0 <= k < |moons| ==> moons[k].pos == p[k] && moons[k].name == names[k]
      invariant forall k :: 0 <= k < |moons| ==> moons[k].vel == Add(v[k], ReceivedBefore(p, k, i))
    {
      PairsFrom(moons, i, p, v, names);
      i := i + 1;
    }
    assert forall k :: 0 <= k < |moons| ==> ReceivedBefore(p, k, |moons|) == Pull(p[k], p, |p|);
  }

  // ---------------------------------------------------------------- steps

  /** The positions and velocities of all moons, as values. */
  datatype System = System(pos: seq<Vec>, vel: seq<Vec>)

  predicate WellFormed(s: System)
  {
    |s.pos| == |s.vel|
  }

  /** Each moon moved by its velocity. */
  function Move(p: seq<Vec>, v: seq<Vec>): (r: seq<Vec>)
    requires |p| == |v|
    ensures |r| == |p|
  {
    seq(|p|, k requires 0 <= k < |p| => Add(p[k], v[k]))
  }

  /** One step of the simulation: the gravity pass, then every moon's `update`. */
  function StepSystem(s: System): (r: System)
    requires WellFormed(s)
    ensures WellFormed(r) && |r.pos| == |s.pos|
  {
    var vel := Gravity(s.pos, s.vel);
    System(Move(s.pos, vel), vel)
  }

  /** `steps` steps of the simulation. */
  function Simulate(s: System, steps: nat): (r: System)
    requires WellFormed(s)
    ensures WellFormed(r) && |r.pos| == |s.pos|
    decreases steps
  {
    if steps == 0 then s else Simulate(StepSystem(s), steps - 1)
  }

  /** Momentum is conserved: the velocity sum on every axis never changes, however long the simulation runs. */
  lemma {:induction false} SimulateConserves(s: System, steps: nat, a: Axis)
    requires WellFormed(s)
    ensures Total(Simulate(s, steps).vel, |s.vel|, a) == Total(s.vel, |s.vel|, a)
    decreases steps
  {
    if steps > 0 {
      GravityConserves(s.pos, s.vel, a);
      SimulateConserves(StepSystem(s), steps - 1, a);
    }
  }

  /** `for moon in moons: moon.update()`. */
  method UpdateAll(moons: seq<Moon>, ghost p: seq<Vec>, ghost v: seq<Vec>)
    requires Distinct(moons)
    requires Positions(moons) == p && Velocities(moons) == v
    modifies set m | m in moons
    ensures Positions(moons) == Move(p, v) && Velocities(moons) == v
    ensures Names(moons) == old(Names(moons))
  {
    ghost var names := Names(moons);
    var i := 0;
    while i < |moons|
      invariant 0 <= i <= |moons|
      invariant forall k :: 0 <= k < |moons| ==> moons[k].vel == v[k] && moons[k].name == names[k]
      invariant forall k :: 0 <= k < |moons| ==> moons[k].pos == if k < i then Add(p[k], v[k]) else p[k]
    {
      label before:
      moons[i].Update();
      forall k | 0 <= k < |moons| && k != i
        ensures moons[k].pos == old@before(moons[k].pos) && moons[k].vel == v[k] && moons[k].name == names[k]
      {
        assert moons[k] != moons[i];
      }
      i := i + 1;
    }
  }

  /** One pass of the `for step in range(1000)` loop. */
  method Step(moons: seq<Moon>, ghost s: System)
    requires Distinct(moons) && WellFormed(s)
    requires Positions(moons) == s.pos && Velocities(moons) == s.vel
    modifies set m | m in moons
    ensures System(Positions(moons), Velocities(moons)) == StepSystem(s)
    ensures Names(moons) == old(Names(moons))
  {
    GravityPass(moons, s.pos, s.vel);
    UpdateAll(moons, s.pos, Gravity(s.pos, s.vel));
  }

  /** The first part's simulation loop, run for `steps` steps. */
  method Run(moons: seq<Moon>, steps: nat, ghost s: System)
    requires Distinct(moons) && WellFormed(s)
    requires Positions(moons) == s.pos && Velocities(moons) == s.vel
    modifies set m | m in moons
    ensures System(Positions(moons), Velocities(moons)) == Simulate(s, steps)
    ensures Names(moons) == old(Names(moons))
  {
    var step := 0;
    while step < steps
      invariant 0 <= step <= steps
      invariant WellFormed(s) && |Positions(moons)| == |s.pos|
      invariant Simulate(System(Positions(moons), Velocities(moons)), steps - step) == Simulate(s, steps)
      invariant Names(moons) == old(Names(moons))
    {
      ghost var now := System(Positions(moons), Velocities(moons));
      Step(moons, now);
      ghost var left := steps - step - 1;
      assert Simulate(now, left + 1) == Simulate(StepSystem(now), left);
      step := step + 1;
    }
  }

  /** `sum(moon.total_energy for moon in moons)`: never negative, and zero when every moon stands still. */
  function SystemEnergy(moons: seq<Moon>): (r: int)
    reads set m | m in moons
    ensures r >= 0
    ensures (forall k :: 0 <= k < |moons| ==> moons[k].vel == Zero) ==> r == 0
  {
    if moons == [] then 0 else SystemEnergy(moons[..|moons| - 1]) + moons[|moons| - 1].TotalEnergy()
  }
}
