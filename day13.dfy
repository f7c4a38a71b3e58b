/**
 * day13.py: the arcade screen. The program's output is read three values at a
 * time as `(x, y, tile)`; each triple paints one position, later triples
 * overwriting earlier ones, and the blocks left on screen are counted.
 */
module Day13 {
  import opened Wrappers

  /** `Tile`: the five tile kinds, numbered 0 to 4. */
  datatype Tile = Empty | Wall | Block | Paddle | Ball

  function Id(t: Tile): int
  {
    match t
    case Empty => 0
    case Wall => 1
    case Block => 2
    case Paddle => 3
    case Ball => 4
  }

  /** `Tile(n)`: a number outside 0..4 raises `ValueError`, which is `None`. */
  function TileOf(n: int): (r: Option<Tile>)
    ensures r.Some? <==> 0 <= n <= 4
  {
    if n == 0 then Some(Empty)
    else if n == 1 then Some(Wall)
    else if n == 2 then Some(Block)
    else if n == 3 then Some(Paddle)
    else if n == 4 then Some(Ball)
    else None
  }

  /** `Tile` and its number are inverse to each other. */
  lemma {:induction false} TileRoundTrip(t: Tile, n: int)
    ensures TileOf(Id(t)) == Some(t)
    ensures TileOf(n) == Some(t) ==> Id(t) == n
  {
  }

  /** `display`: the character a tile is drawn with. */
  function Display(t: Tile): char
  {
    match t
    case Empty => ' '
    case Wall => '#'
    case Block => '*'
    case Paddle => '='
    case Ball => 'o'
  }

  /** Different tiles are drawn differently, so the picture shows every tile kind apart. */
  lemma {:induction false} DisplayInjective(t: Tile, u: Tile)
    ensures Display(t) == Display(u) <==> t == u
  {
  }

  datatype Pos = Pos(x: int, y: int)

  /** How many whole triples the output holds. */
  function Triples(output: seq<int>): nat
  {
    |output| / 3
  }

  /** The position painted by triple `k`. */
  function PosAt(output: seq<int>, k: nat): Pos
    requires 3 * k + 3 <= |output|
  {
    Pos(output[3 * k], output[3 * k + 1])
  }

  /** The output splits into triples, each with a valid tile number. */
  predicate WellFormed(output: seq<int>)
  {
    |output| % 3 == 0 && forall k :: 0 <= k < Triples(output) ==> TileOf(output[3 * k + 2]).Some?
  }

  /** The screen after the first `k` triples. */
  function Screen(output: seq<int>, k: nat): map<Pos, Tile>
    requires 3 * k <= |output|
    requires forall j :: 0 <= j < k ==> TileOf(output[3 * j + 2]).Some?
  {
    if k == 0 then map[]
    else Screen(output, k - 1)[PosAt(output, k - 1) := TileOf(output[3 * (k - 1) + 2]).value]
  }

  /** What the loop over the output leaves in `pixels`. */
  function Pixels(output: seq<int>): (r: Option<map<Pos, Tile>>)
    ensures r.Some? <==> WellFormed(output)
  {
    if WellFormed(output) then Some(Screen(output, Triples(output))) else None
  }

  /** The loop `while output: x, y, tile = output[:3]; output = output[3:]`. */
  method ReadScreen(output: seq<int>) returns (r: Option<map<Pos, Tile>>)
    ensures r == Pixels(output)
  {
    var rest := output;
    var pixels: map<Pos, Tile> := map[];
    var k := 0;
    while rest != []
      invariant 3 * k <= |output| && rest == output[3 * k..]
      invariant forall j :: 0 <= j < k ==> TileOf(output[3 * j + 2]).Some?
      invariant pixels == Screen(output, k)
      decreases |rest|
    {
      if |rest| < 3 {
        // the unpack of `output[:3]` fails
        assert |output| % 3 != 0;
        return None;
      }
      var x, y, tile := rest[0], rest[1], rest[2];
      rest := rest[3..];
      var t := TileOf(tile);
      if t.None? {
        assert !WellFormed(output) by {
          assert output[3 * k + 2] == tile;
        }
        return None;
      }
      assert x == output[3 * k] && y == output[3 * k + 1];
      pixels := pixels[Pos(x, y) := t.value];
      k := k + 1;
    }
    assert 3 * k == |output|;
    assert Triples(output) == k;
    return Some(pixels);
  }

  /** The painted positions are exactly the positions of the triples read. */
  lemma {:induction false} ScreenKeys(output: seq<int>, k: nat)
    requires 3 * k <= |output|
    requires forall j :: 0 <= j < k ==> TileOf(output[3 * j + 2]).Some?
    ensures forall p :: p in Screen(output, k) <==> exists j :: 0 <= j < k && PosAt(output, j) == p
  {
    if k > 0 {
      ScreenKeys(output, k - 1);
      forall p | p in Screen(output, k)
        ensures exists j :: 0 <= j < k && PosAt(output, j) == p
      {
        if p != PosAt(output, k - 1) {
          assert p in Screen(output, k - 1);
          var j :| 0 <= j < k - 1 && PosAt(output, j) == p;
        }
      }
    }
  }

  /** Triple `j` paints `p` for the last time among the first `k`. */
  predicate LastAt(output: seq<int>, k: nat, j: nat, p: Pos)
    requires 3 * k <= |output| && j < k
  {
    PosAt(output, j) == p && forall i :: j < i < k ==> PosAt(output, i) != p
  }

  /** A position shows the tile of the last triple that painted it. */
  lemma {:induction false} ScreenLast(output: seq<int>, k: nat, j: nat)
    requires 3 * k <= |output| && j < k
    requires forall i :: 0 <= i < k ==> TileOf(output[3 * i + 2]).Some?
    requires LastAt(output, k, j, PosAt(output, j))
    ensures PosAt(output, j) in Screen(output, k)
    ensures Screen(output, k)[PosAt(output, j)] == TileOf(output[3 * j + 2]).value
    decreases k
  {
    if j < k - 1 {
      ScreenLast(output, k - 1, j);
    }
  }

  /** `sum(1 for tile in pixels.values() if tile is Tile.BLOCK)`. */
  function BlockCount(pixels: map<Pos, Tile>): nat
  {
    |set p | p in pixels && pixels[p] == Block|
  }

  /** A position counts as a block exactly when the last triple painting it carries tile 2. */
  lemma {:induction false} BlockCounted(output: seq<int>, p: Pos)
    requires WellFormed(output)
    ensures var pixels := Pixels(output).value;
      p in pixels && pixels[p] == Block <==>
        exists j :: 0 <= j < Triples(output) && LastAt(output, Triples(output), j, p) && output[3 * j + 2] == 2
  {
    var n := Triples(output);
    var pixels := Pixels(output).value;
    ScreenKeys(output, n);
    if p in pixels {
      var j :| 0 <= j < n && PosAt(output, j) == p;
      var last := LastPainter(output, n, j, p);
      ScreenLast(output, n, last);
      if pixels[p] == Block {
        assert output[3 * last + 2] == 2;
      }
      assert forall j' :: 0 <= j' < n && LastAt(output, n, j', p) ==> j' == last;
    }
  }

  /** Among the triples from `j` on that paint `p`, the last one. */
  lemma {:induction false} LastPainter(output: seq<int>, k: nat, j: nat, p: Pos) returns (last: nat)
    requires 3 * k <= |output| && j < k && PosAt(output, j) == p
    ensures j <= last < k && LastAt(output, k, last, p)
    decreases k - j
  {
    if forall i :: j < i < k ==> PosAt(output, i) != p {
      last := j;
    } else {
      var i :| j < i < k && PosAt(output, i) == p;
      last := LastPainter(output, k, i, p);
    }
  }
}
