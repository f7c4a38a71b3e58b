/** Integer helpers that mirror Python's `abs`, `math.gcd`, `sum` and the ends of `sorted`. */
module Numbers {
  import opened Wrappers

  function Abs(x: int): (r: nat)
    ensures r == x || r == -x
  {
    if x < 0 then -x else x
  }

  /** -1, 0 or 1 according to the sign of `x`. */
  function Sign(x: int): (r: int)
    ensures -1 <= r <= 1
    ensures (r == 0) == (x == 0) && (r > 0) == (x > 0)
  {
    if x < 0 then -1 else if x > 0 then 1 else 0
  }

  /** `d` divides `n`; zero divides only zero. */
  predicate Divides(d: int, n: int)
  {
    if d == 0 then n == 0 else n % d == 0
  }

  /** Euclid's algorithm on naturals. */
  function NatGcd(a: nat, b: nat): nat
    decreases b
  {
    if b == 0 then a else NatGcd(b, a % b)
  }

  /** Python's `math.gcd`: the non-negative gcd of the absolute values; gcd(0, 0) == 0. */
  function Gcd(a: int, b: int): nat
  {
    NatGcd(Abs(a), Abs(b))
  }

  lemma {:induction false} MultipleMod(g: int, m: int)
    requires g > 0
    ensures (g * m) % g == 0
  {
    var q, r := (g * m) / g, (g * m) % g;
    assert g * m == g * q + r;
    assert g * (m - q) == r;
    MulBounds(g, m - q);
  }

  lemma {:induction false} MulBounds(g: int, k: int)
    requires g > 0
    ensures k >= 1 ==> g * k >= g
    ensures k <= -1 ==> g * k <= -g
  {
  }

  /** Quotient and remainder are the only pair with `n == q * d + r` and `0 <= r < d`. */
  lemma {:induction false} DivUnique(n: int, d: int, q: int, r: int)
    requires d > 0 && n == q * d + r && 0 <= r < d
    ensures n / d == q && n % d == r
  {
    var q', r' := n / d, n % d;
    assert d * (q - q') == r' - r;
    MulBounds(d, q - q');
  }

  lemma {:induction false} DividesLinear(g: int, x: int, y: int, p: int, q: int)
    requires Divides(g, x) && Divides(g, y)
    ensures Divides(g, p * x + q * y)
  {
    if g != 0 {
      var G := Abs(g);
      assert x % g == 0 && y % g == 0;
      var kx, ky := x / g, y / g;
      assert x == g * kx && y == g * ky;
      assert p * x + q * y == g * (p * kx + q * ky);
      if g > 0 {
        MultipleMod(g, p * kx + q * ky);
      } else {
        assert p * x + q * y == (-g) * (-(p * kx + q * ky));
        MultipleMod(-g, -(p * kx + q * ky));
        ModNegDivisor(p * x + q * y, g);
      }
    }
  }

  /** Divisibility is transitive. */
  lemma {:induction false} DividesTrans(a: int, b: int, c: int)
    requires Divides(a, b) && Divides(b, c)
    ensures Divides(a, c)
  {
    if b != 0 {
      var k := c / b;
      assert c == k * b + c % b;
      DividesLinear(a, b, 0, k, 0);
    }
  }

  /** Every number divides its own multiples. */
  lemma {:induction false} DividesMultiple(a: int, k: int)
    ensures Divides(a, a * k)
  {
    if a != 0 {
      assert a % a == 0 by { DivUnique(a, Abs(a), Sign(a), 0); if a < 0 { ModNegDivisor(a, a); } }
      DividesLinear(a, a, 0, k, 0);
    }
  }

  lemma {:induction false} ModNegDivisor(n: int, g: int)
    requires g < 0 && n % (-g) == 0
    ensures n % g == 0
  {
    var k := n / (-g);
    assert n == (-g) * k;
    assert n == g * (-k);
    var q, r := n / g, n % g;
    assert n == g * q + r && 0 <= r < -g;
    assert (-g) * (k + q) == r;
    MulBounds(-g, k + q);
  }

  /** The gcd divides both arguments, and every common divisor divides it. */
  lemma {:induction false} NatGcdDivides(a: nat, b: nat)
    ensures Divides(NatGcd(a, b), a) && Divides(NatGcd(a, b), b)
    decreases b
  {
    if b != 0 {
      NatGcdDivides(b, a % b);
      var g := NatGcd(a, b);
      assert a == (a / b) * b + 1 * (a % b);
      DividesLinear(g, b, a % b, a / b, 1);
    }
  }

  lemma {:induction false} NatGcdGreatest(a: nat, b: nat, d: int)
    requires Divides(d, a) && Divides(d, b)
    ensures Divides(d, NatGcd(a, b))
    decreases b
  {
    if b != 0 {
      assert a % b == 1 * a + (-(a / b)) * b;
      DividesLinear(d, a, b, 1, -(a / b));
      NatGcdGreatest(b, a % b, d);
    }
  }

  lemma {:induction false} DividesNeg(d: int, n: int)
    requires Divides(d, n)
    ensures Divides(d, -n) && Divides(d, Abs(n))
  {
    DividesLinear(d, n, 0, -1, 0);
  }

  /** Python's `math.gcd` is a common divisor, and the greatest one. */
  lemma {:induction false} GcdDivides(a: int, b: int)
    ensures Divides(Gcd(a, b), a) && Divides(Gcd(a, b), b)
    ensures Gcd(a, b) == 0 <==> a == 0 && b == 0
  {
    NatGcdDivides(Abs(a), Abs(b));
    DividesNeg(Gcd(a, b), Abs(a));
    DividesNeg(Gcd(a, b), Abs(b));
    if Gcd(a, b) == 0 {
      assert Abs(a) == 0 && Abs(b) == 0;
    }
    if a == 0 && b == 0 {
      assert NatGcd(0, 0) == 0;
    }
  }

  lemma {:induction false} GcdGreatest(a: int, b: int, d: int)
    requires Divides(d, a) && Divides(d, b)
    ensures Divides(d, Gcd(a, b))
  {
    DividesNeg(d, a);
    DividesNeg(d, b);
    NatGcdGreatest(Abs(a), Abs(b), d);
  }

  /** Sum of a sequence, as Python's `sum`. */
  function Sum(s: seq<int>): int
  {
    if s == [] then 0 else Sum(s[..|s| - 1]) + s[|s| - 1]
  }

  lemma {:induction false} SumAppend(s: seq<int>, t: seq<int>)
    ensures Sum(s + t) == Sum(s) + Sum(t)
    decreases |t|
  {
    if t == [] {
      assert s + t == s;
    } else {
      assert (s + t)[..|s + t| - 1] == s + t[..|t| - 1];
      SumAppend(s, t[..|t| - 1]);
    }
  }

  lemma {:induction false} HasLeast(s: set<int>)
    requires s != {}
    ensures exists m :: m in s && forall v :: v in s ==> m <= v
    decreases |s|
  {
    if forall v :: v !in s {
      assert false;
    }
    var x :| x in s;
    var rest := s - {x};
    if rest == {} {
      forall v | v in s
        ensures x <= v
      {
        assert v !in rest;
      }
    } else {
      HasLeast(rest);
      var m :| m in rest && forall v :: v in rest ==> m <= v;
      var least := if x < m then x else m;
      forall v | v in s
        ensures least <= v
      {
        if v != x {
          assert v in rest;
        }
      }
      assert least in s;
    }
  }

  /** `sorted(values)[0]`: the least value; an empty list raises `IndexError`. */
  function Least(s: set<int>): (r: Option<int>)
    ensures r.None? <==> s == {}
    ensures r.Some? ==> r.value in s && forall v :: v in s ==> r.value <= v
  {
    if s == {} then None
    else
      HasLeast(s);
      var m :| m in s && forall v :: v in s ==> m <= v;
      Some(m)
  }

  lemma {:induction false} HasGreatest(s: set<int>)
    requires s != {}
    ensures exists m :: m in s && forall v :: v in s ==> v <= m
    decreases |s|
  {
    if forall v :: v !in s {
      assert false;
    }
    var x :| x in s;
    var rest := s - {x};
    if rest == {} {
      forall v | v in s
        ensures v <= x
      {
        assert v !in rest;
      }
    } else {
      HasGreatest(rest);
      var m :| m in rest && forall v :: v in rest ==> v <= m;
      var greatest := if x > m then x else m;
      forall v | v in s
        ensures v <= greatest
      {
        if v != x {
          assert v in rest;
        }
      }
      assert greatest in s;
    }
  }

  /** `sorted(values)[-1]`: the greatest value; an empty list raises `IndexError`. */
  function Greatest(s: set<int>): (r: Option<int>)
    ensures r.None? <==> s == {}
    ensures r.Some? ==> r.value in s && forall v :: v in s ==> v <= r.value
  {
    if s == {} then None
    else
      HasGreatest(s);
      var m :| m in s && forall v :: v in s ==> v <= m;
      Some(m)
  }
}
