/**
 * day8.py: the space image format. The pixel digits are cut into layers of
 * `h` rows of `w` pixels; each layer counts its pixel values, and the
 * visible image takes, pixel by pixel, the first layer that is not
 * transparent (value 2).
 */
module Day8 {
  import opened Wrappers

  /** A layer's rows. */
  type Rows = seq<seq<int>>

  /** All rows, one after the other. */
  function Flatten(rows: Rows): seq<int>
  {
    if rows == [] then [] else Flatten(rows[..|rows| - 1]) + rows[|rows| - 1]
  }

  lemma {:induction false} FlattenStep(rows: Rows, i: nat)
    requires i < |rows|
    ensures Flatten(rows[..i + 1]) == Flatten(rows[..i]) + rows[i]
  {
    assert rows[..i + 1][..i] == rows[..i];
  }

  lemma {:induction false} FlattenAppend(a: Rows, b: Rows)
    ensures Flatten(a + b) == Flatten(a) + Flatten(b)
    decreases |b|
  {
    if b == [] {
      assert a + b == a;
    } else {
      var front, last := b[..|b| - 1], b[|b| - 1];
      assert (a + b)[..|a + b| - 1] == a + front;
      assert (a + b)[|a + b| - 1] == last;
      assert Flatten(a + b) == Flatten(a + front) + last;
      assert Flatten(b) == Flatten(front) + last;
      FlattenAppend(a, front);
    }
  }

  // ---------------------------------------------------------------- counts

  /** How often `p` occurs in `s`. */
  function CountIn(s: seq<int>, p: int): nat
  {
    if s == [] then 0 else CountIn(s[..|s| - 1], p) + (if s[|s| - 1] == p then 1 else 0)
  }

  /** The `defaultdict(int)` lookup: a missing key reads as 0. */
  function Get(counts: map<int, nat>, p: int): nat
  {
    if p in counts then counts[p] else 0
  }

  /** `counts[pixel] += 1` for every pixel of `s`, in order. */
  function TallyOf(s: seq<int>): map<int, nat>
  {
    if s == [] then map[]
    else
      var counts := TallyOf(s[..|s| - 1]);
      var p := s[|s| - 1];
      counts[p := Get(counts, p) + 1]
  }

  /** After the tally, a value has an entry exactly when it occurs, and the entry is its number of occurrences. */
  lemma {:induction false} TallyCounts(s: seq<int>, p: int)
    ensures p in TallyOf(s) <==> p in s
    ensures Get(TallyOf(s), p) == CountIn(s, p)
    ensures CountIn(s, p) > 0 <==> p in s
    decreases |s|
  {
    if s != [] {
      var init := s[..|s| - 1];
      TallyCounts(init, p);
      assert s == init + [s[|s| - 1]];
    }
  }

  /** `Layer.__post_init__`: the nested loop over rows and pixels. */
  method Tally(rows: Rows) returns (counts: map<int, nat>)
    ensures counts == TallyOf(Flatten(rows))
  {
    counts := map[];
    var i := 0;
    while i < |rows|
      invariant 0 <= i <= |rows|
      invariant counts == TallyOf(Flatten(rows[..i]))
    {
      var j := 0;
      assert Flatten(rows[..i]) + rows[i][..j] == Flatten(rows[..i]);
      while j < |rows[i]|
        invariant 0 <= j <= |rows[i]|
        invariant counts == TallyOf(Flatten(rows[..i]) + rows[i][..j])
      {
        var pixel := rows[i][j];
        counts := counts[pixel := Get(counts, pixel) + 1];
        ghost var done := Flatten(rows[..i]) + rows[i][..j + 1];
        assert done[..|done| - 1] == Flatten(rows[..i]) + rows[i][..j];
        j := j + 1;
      }
      assert rows[i][..j] == rows[i];
      FlattenStep(rows, i);
      i := i + 1;
    }
    assert rows[..i] == rows;
  }

  /** A `Layer`: its rows and the counts of its pixel values. */
  class Layer {
    var rows: Rows
    var counts: map<int, nat>

    ghost predicate Valid()
      reads this
    {
      counts == TallyOf(Flatten(rows))
    }

    constructor (rows: Rows)
      ensures this.rows == rows && Valid()
    {
      var counts := Tally(rows);
      this.rows := rows;
      this.counts := counts;
    }

    /** `counts[p]`: how many pixels of the layer have the value `p`. */
    function Count(p: int): (n: nat)
      requires Valid()
      reads this
      ensures n == CountIn(Flatten(rows), p)
      ensures n > 0 <==> p in counts
    {
      TallyCounts(Flatten(rows), p);
      Get(counts, p)
    }
  }

  // ---------------------------------------------------------------- parse_layers

  /** `pixels[:w]` and `pixels[w:]`, which stop at the end of the list. */
  function Take(pixels: seq<int>, w: nat): seq<int>
  {
    if w <= |pixels| then pixels[..w] else pixels
  }

  function Drop(pixels: seq<int>, w: nat): seq<int>
  {
    if w <= |pixels| then pixels[w..] else []
  }

  /** The rows of one layer: `h` times, the next `w` pixels. */
  function LayerRows(pixels: seq<int>, w: nat, h: nat): Rows
    decreases h
  {
    if h == 0 then [] else [Take(pixels, w)] + LayerRows(Drop(pixels, w), w, h - 1)
  }

  /** What is left of the pixels after one layer. */
  function AfterLayer(pixels: seq<int>, w: nat, h: nat): seq<int>
    decreases h
  {
    if h == 0 then pixels else AfterLayer(Drop(pixels, w), w, h - 1)
  }

  /** One layer has `h` rows of at most `w` pixels. */
  lemma {:induction false} LayerRowsLength(pixels: seq<int>, w: nat, h: nat)
    ensures |LayerRows(pixels, w, h)| == h
    ensures forall j :: 0 <= j < h ==> |LayerRows(pixels, w, h)[j]| <= w
    decreases h
  {
    if h > 0 {
      var tail := LayerRows(Drop(pixels, w), w, h - 1);
      LayerRowsLength(Drop(pixels, w), w, h - 1);
      assert LayerRows(pixels, w, h) == [Take(pixels, w)] + tail;
      forall j | 0 <= j < h
        ensures |LayerRows(pixels, w, h)[j]| <= w
      {
        if j > 0 {
          assert LayerRows(pixels, w, h)[j] == tail[j - 1];
        }
      }
    }
  }

  /** A layer's rows followed by what is left give back the pixels. */
  lemma {:induction false} LayerRowsConcat(pixels: seq<int>, w: nat, h: nat)
    ensures Flatten(LayerRows(pixels, w, h)) + AfterLayer(pixels, w, h) == pixels
    decreases h
  {
    if h > 0 {
      var row, rest := Take(pixels, w), Drop(pixels, w);
      LayerRowsConcat(rest, w, h - 1);
      var tail := LayerRows(rest, w, h - 1);
      assert row + rest == pixels;
      FlattenAppend([row], tail);
      assert Flatten([row]) == row by {
        assert [row][..0] == [];
      }
    }
  }

  lemma {:induction false} AfterLayerShorter(pixels: seq<int>, w: nat, h: nat)
    ensures |AfterLayer(pixels, w, h)| <= |pixels|
    ensures w > 0 && h > 0 && pixels != [] ==> |AfterLayer(pixels, w, h)| < |pixels|
    decreases h
  {
    if h > 0 {
      AfterLayerShorter(Drop(pixels, w), w, h - 1);
    }
  }

  lemma {:induction false} MulStep(w: nat, h: nat)
    requires h > 0
    ensures w * h == w + w * (h - 1)
    ensures w > 0 ==> w * h > 0
  {
  }

  lemma {:induction false} LayerStep(k: nat, size: nat)
    requires k > 0
    ensures k * size == size + (k - 1) * size
  {
  }

  /** With at least `w * h` pixels every row of the layer is full and exactly `w * h` pixels are used. */
  lemma {:induction false} LayerRowsFull(pixels: seq<int>, w: nat, h: nat)
    requires |pixels| >= w * h
    ensures |LayerRows(pixels, w, h)| == h
    ensures forall j :: 0 <= j < h ==> |LayerRows(pixels, w, h)[j]| == w
    ensures |AfterLayer(pixels, w, h)| == |pixels| - w * h
    decreases h
  {
    LayerRowsLength(pixels, w, h);
    if h > 0 {
      MulStep(w, h);
      var rest := Drop(pixels, w);
      assert |rest| == |pixels| - w;
      LayerRowsFull(rest, w, h - 1);
      var tail := LayerRows(rest, w, h - 1);
      assert LayerRows(pixels, w, h) == [Take(pixels, w)] + tail;
      forall j | 0 <= j < h
        ensures |LayerRows(pixels, w, h)[j]| == w
      {
        if j > 0 {
          assert LayerRows(pixels, w, h)[j] == tail[j - 1];
        }
      }
    }
  }

  /** `parse_layers`, as a value: layer after layer until no pixel is left. */
  function LayersSpec(pixels: seq<int>, w: nat, h: nat): seq<Rows>
    requires w > 0 && h > 0
    decreases |pixels|
  {
    if pixels == [] then []
    else
      AfterLayerShorter(pixels, w, h);
      [LayerRows(pixels, w, h)] + LayersSpec(AfterLayer(pixels, w, h), w, h)
  }

  /** All rows of all layers, one after the other. */
  function FlattenLayers(layers: seq<Rows>): seq<int>
  {
    if layers == [] then [] else Flatten(layers[0]) + FlattenLayers(layers[1..])
  }

  /** Every layer has `h` rows of at most `w` pixels, and together the layers give back the pixels. */
  lemma {:induction false} LayersShape(pixels: seq<int>, w: nat, h: nat)
    requires w > 0 && h > 0
    ensures forall k :: 0 <= k < |LayersSpec(pixels, w, h)| ==> var layer := LayersSpec(pixels, w, h)[k];
      |layer| == h && forall j :: 0 <= j < h ==> |layer[j]| <= w
    ensures FlattenLayers(LayersSpec(pixels, w, h)) == pixels
    decreases |pixels|
  {
    if pixels != [] {
      LayerRowsLength(pixels, w, h);
      LayerRowsConcat(pixels, w, h);
      AfterLayerShorter(pixels, w, h);
      var rest := AfterLayer(pixels, w, h);
      LayersShape(rest, w, h);
      var layers := LayersSpec(pixels, w, h);
      assert layers == [LayerRows(pixels, w, h)] + LayersSpec(rest, w, h);
      assert layers[1..] == LayersSpec(rest, w, h);
      forall k | 0 <= k < |layers|
        ensures |layers[k]| == h && forall j :: 0 <= j < h ==> |layers[k][j]| <= w
      {
        if k > 0 {
          assert layers[k] == LayersSpec(rest, w, h)[k - 1];
        }
      }
    }
  }

  /** With exactly `k * w * h` pixels there are `k` layers, and every row is full. */
  lemma {:induction false} LayersExact(pixels: seq<int>, w: nat, h: nat, k: nat)
    requires w > 0 && h > 0 && |pixels| == k * (w * h)
    ensures |LayersSpec(pixels, w, h)| == k
    ensures forall n :: 0 <= n < k ==> |LayersSpec(pixels, w, h)[n]| == h
    ensures forall n, j :: 0 <= n < k && 0 <= j < h ==> |LayersSpec(pixels, w, h)[n][j]| == w
    decreases k
  {
    if k > 0 {
      MulStep(w, h);
      LayerStep(k, w * h);
      LayerRowsFull(pixels, w, h);
      LayerRowsLength(pixels, w, h);
      var rest := AfterLayer(pixels, w, h);
      LayersExact(rest, w, h, k - 1);
      var layers := LayersSpec(pixels, w, h);
      assert layers == [LayerRows(pixels, w, h)] + LayersSpec(rest, w, h);
      forall n | 0 <= n < k
        ensures |layers[n]| == h && forall j :: 0 <= j < h ==> |layers[n][j]| == w
      {
        if n > 0 {
          assert layers[n] == LayersSpec(rest, w, h)[n - 1];
        }
      }
    } else {
      assert pixels == [];
    }
  }

  /** The rows of each layer object. */
  function RowsOf(layers: seq<Layer>): (r: seq<Rows>)
    reads set l | l in layers
    ensures |r| == |layers|
  {
    seq(|layers|, k requires 0 <= k < |layers| reads set l | l in layers => layers[k].rows)
  }

  /** The `for _ in range(h)` loop: the next `h` rows, and the pixels after them. */
  method TakeLayer(pixels: seq<int>, w: nat, h: nat) returns (rows: Rows, rest: seq<int>)
    ensures rows == LayerRows(pixels, w, h) && rest == AfterLayer(pixels, w, h)
  {
    rows := [];
    rest := pixels;
    var j := 0;
    while j < h
      invariant 0 <= j <= h
      invariant rows + LayerRows(rest, w, h - j) == LayerRows(pixels, w, h)
      invariant AfterLayer(rest, w, h - j) == AfterLayer(pixels, w, h)
    {
      rows := rows + [Take(rest, w)];
      rest := Drop(rest, w);
      j := j + 1;
    }
    assert rows + [] == rows;
  }

  /** `parse_layers(pixels, Dimensions(w, h))`; the loop runs forever unless both are positive. */
  method ParseLayers(pixels: seq<int>, w: nat, h: nat) returns (layers: seq<Layer>)
    requires w > 0 && h > 0
    ensures RowsOf(layers) == LayersSpec(pixels, w, h)
    ensures forall k :: 0 <= k < |layers| ==> layers[k].Valid()
  {
    layers := [];
    ghost var done: seq<Rows> := [];
    var rest := pixels;
    while rest != []
      invariant |done| == |layers|
      invariant forall k :: 0 <= k < |layers| ==> layers[k].rows == done[k] && layers[k].Valid()
      invariant done + LayersSpec(rest, w, h) == LayersSpec(pixels, w, h)
      decreases |rest|
    {
      ghost var start := rest;
      var layerPixels;
      layerPixels, rest := TakeLayer(rest, w, h);
      AfterLayerShorter(start, w, h);
      assert LayersSpec(start, w, h) == [layerPixels] + LayersSpec(rest, w, h);
      AppendOne(done, layerPixels, LayersSpec(rest, w, h));
      var layer := new Layer(layerPixels);
      layers := layers + [layer];
      done := done + [layerPixels];
    }
    assert done == LayersSpec(pixels, w, h);
  }

  lemma {:induction false} AppendOne<T>(a: seq<T>, x: T, b: seq<T>)
    ensures (a + [x]) + b == a + ([x] + b)
  {
  }

  // ---------------------------------------------------------------- compositing

  /** The transparent pixel value. */
  const Transparent := 2

  /** Every pixel of `rows` that would be written lies inside `composite`; otherwise the write raises `IndexError`. */
  predicate Fits(composite: Rows, rows: Rows)
  {
    forall y, x :: 0 <= y < |rows| && 0 <= x < |rows[y]| && rows[y][x] != Transparent ==>
      y < |composite| && x < |composite[y]|
  }

  /** One layer laid over the composite: its non-transparent pixels replace the composite's. */
  function Overlay(composite: Rows, rows: Rows): (r: Option<Rows>)
    ensures r.Some? <==> Fits(composite, rows)
  {
    if Fits(composite, rows) then
      Some(seq(|composite|, y requires 0 <= y < |composite| =>
        seq(|composite[y]|, x requires 0 <= x < |composite[y]| =>
          if y < |rows| && x < |rows[y]| && rows[y][x] != Transparent then rows[y][x] else composite[y][x])))
    else None
  }

  /** Laying layers `k - 1` down to `0` over `composite`, one after the other. */
  function Stack(layers: seq<Rows>, k: nat, composite: Rows): Option<Rows>
    requires k <= |layers|
    decreases k
  {
    if k == 0 then Some(composite)
    else
      match Overlay(composite, layers[k - 1])
      case None => None
      case Some(c) => Stack(layers, k - 1, c)
  }

  /** The composite image: the last layer's rows, with the layers before it laid over in reverse; `None` where the source raises. */
  function CompositeSpec(layers: seq<Rows>): Option<Rows>
  {
    if layers == [] then None else Stack(layers, |layers| - 1, layers[|layers| - 1])
  }

  /** The pixel seen at `(y, x)`: the first layer from `k` on that is not transparent there, or the last layer's. */
  function Visible(layers: seq<Rows>, y: nat, x: nat, k: nat): int
    requires SameShape(layers) && k < |layers|
    requires y < |layers[|layers| - 1]| && x < |layers[|layers| - 1][y]|
    decreases |layers| - k
  {
    if k == |layers| - 1 || layers[k][y][x] != Transparent then layers[k][y][x]
    else Visible(layers, y, x, k + 1)
  }

  /** All layers have the shape of the last one. */
  predicate SameShape(layers: seq<Rows>)
  {
    |layers| > 0 &&
    (forall n :: 0 <= n < |layers| ==> |layers[n]| == |layers[|layers| - 1]|) &&
    forall n, y :: 0 <= n < |layers| && 0 <= y < |layers[n]| ==> |layers[n][y]| == |layers[|layers| - 1][y]|
  }

  lemma {:induction false} StackVisible(layers: seq<Rows>, k: nat, composite: Rows)
    requires SameShape(layers) && k < |layers|
    requires |composite| == |layers[|layers| - 1]|
    requires forall y :: 0 <= y < |composite| ==> |composite[y]| == |layers[|layers| - 1][y]|
    requires forall y, x :: 0 <= y < |composite| && 0 <= x < |composite[y]| ==> composite[y][x] == Visible(layers, y, x, k)
    ensures Stack(layers, k, composite).Some?
    ensures var image := Stack(layers, k, composite).value;
      |image| == |composite| &&
      (forall y :: 0 <= y < |composite| ==> |image[y]| == |composite[y]|) &&
      forall y, x :: 0 <= y < |composite| && 0 <= x < |composite[y]| ==> image[y][x] == Visible(layers, y, x, 0)
    decreases k
  {
    if k > 0 {
      var rows := layers[k - 1];
      assert |rows| == |composite|;
      assert Fits(composite, rows) by {
        forall y, x | 0 <= y < |rows| && 0 <= x < |rows[y]|
          ensures rows[y][x] != Transparent ==> y < |composite| && x < |composite[y]|
        {
          assert |rows[y]| == |layers[|layers| - 1][y]|;
        }
      }
      var c := Overlay(composite, rows).value;
      forall y, x | 0 <= y < |c| && 0 <= x < |c[y]|
        ensures c[y][x] == Visible(layers, y, x, k - 1)
      {
        assert |rows[y]| == |layers[|layers| - 1][y]|;
        assert c[y][x] == if rows[y][x] != Transparent then rows[y][x] else composite[y][x];
      }
      assert Stack(layers, k, composite) == Stack(layers, k - 1, c);
      StackVisible(layers, k - 1, c);
      var image := Stack(layers, k - 1, c).value;
      forall y | 0 <= y < |composite|
        ensures |image[y]| == |composite[y]|
        ensures forall x :: 0 <= x < |composite[y]| ==> image[y][x] == Visible(layers, y, x, 0)
      {
        assert |c[y]| == |composite[y]|;
      }
    }
  }

  /**
   * For layers of one shape, the composite pixel is the one from the lowest
   * layer that is not transparent there, or the last layer's when all are:
   * a transparent pixel never overwrites the composite.
   */
  lemma {:induction false} CompositeVisible(layers: seq<Rows>)
    requires SameShape(layers)
    ensures CompositeSpec(layers).Some?
    ensures var image, last := CompositeSpec(layers).value, layers[|layers| - 1];
      |image| == |last| &&
      (forall y :: 0 <= y < |last| ==> |image[y]| == |last[y]|) &&
      forall y, x :: 0 <= y < |last| && 0 <= x < |last[y]| ==> image[y][x] == Visible(layers, y, x, 0)
  {
    var last := layers[|layers| - 1];
    StackVisible(layers, |layers| - 1, last);
    assert CompositeSpec(layers) == Stack(layers, |layers| - 1, last);
  }

  /** The `for y ... for x ...` loops over one layer, writing its non-transparent pixels into the composite. */
  method OverlayLayer(composite: Rows, rows: Rows) returns (r: Option<Rows>)
    ensures r == Overlay(composite, rows)
  {
    var image := composite;
    var y := 0;
    while y < |rows|
      invariant 0 <= y <= |rows|
      invariant |image| == |composite| && forall yy :: 0 <= yy < |image| ==> |image[yy]| == |composite[yy]|
      invariant forall yy, x :: 0 <= yy < y && 0 <= x < |rows[yy]| && rows[yy][x] != Transparent ==> yy < |composite| && x < |composite[yy]|
      invariant forall yy, x :: 0 <= yy < |image| && 0 <= x < |image[yy]| ==>
        image[yy][x] == if yy < y && x < |rows[yy]| && rows[yy][x] != Transparent then rows[yy][x] else composite[yy][x]
    {
      var x := 0;
      while x < |rows[y]|
        invariant 0 <= x <= |rows[y]|
        invariant |image| == |composite| && forall yy :: 0 <= yy < |image| ==> |image[yy]| == |composite[yy]|
        invariant forall xx :: 0 <= xx < x && rows[y][xx] != Transparent ==> y < |composite| && xx < |composite[y]|
        invariant forall yy, xx :: 0 <= yy < |image| && 0 <= xx < |image[yy]| ==>
          image[yy][xx] == if (yy < y || (yy == y && xx < x)) && xx < |rows[yy]| && rows[yy][xx] != Transparent then rows[yy][xx] else composite[yy][xx]
      {
        var pixel := rows[y][x];
        if pixel != Transparent {
          if y >= |image| || x >= |image[y]| {
            assert !Fits(composite, rows);
            return None;
          }
          image := image[y := image[y][x := pixel]];
        }
        x := x + 1;
      }
      y := y + 1;
    }
    assert Fits(composite, rows);
    ghost var o := Overlay(composite, rows).value;
    forall yy | 0 <= yy < |image|
      ensures image[yy] == o[yy]
    {
      assert |image[yy]| == |o[yy]|;
    }
    assert image == o;
    r := Some(image);
  }

  /** The second part's compositing loop over `reversed(layers[:-1])`; `None` for no layers or a write outside the last layer. */
  method Composite(layers: seq<Layer>) returns (image: Option<Rows>)
    ensures image == CompositeSpec(RowsOf(layers))
  {
    if layers == [] {
      return None;
    }
    var composite := layers[|layers| - 1].rows;
    var k := |layers| - 1;
    ghost var all := RowsOf(layers);
    while k > 0
      invariant 0 <= k <= |layers| - 1
      invariant Stack(all, k, composite) == CompositeSpec(all)
    {
      var next := OverlayLayer(composite, layers[k - 1].rows);
      if next.None? {
        return None;
      }
      composite := next.value;
      k := k - 1;
    }
    image := Some(composite);
  }

  // ---------------------------------------------------------------- first part

  /**
   * `min(..., key=...)`: the index of the first smallest value. Python's `min`
   * keeps the earliest of equal keys.
   */
  function FirstMinimum(s: seq<int>): (i: nat)
    requires |s| > 0
    ensures i < |s|
    ensures forall k :: 0 <= k < |s| ==> s[i] <= s[k]
    ensures forall k :: 0 <= k < i ==> s[k] > s[i]
    decreases |s|
  {
    if |s| == 1 then 0
    else
      var j := FirstMinimum(s[..|s| - 1]);
      if s[|s| - 1] < s[j] then |s| - 1 else j
  }

  /** Each layer's `counts[0]`. */
  function ZeroCounts(layers: seq<Layer>): (r: seq<int>)
    requires forall k :: 0 <= k < |layers| ==> layers[k].Valid()
    reads set l | l in layers
    ensures |r| == |layers|
    ensures forall k :: 0 <= k < |layers| ==> r[k] == CountIn(Flatten(layers[k].rows), 0)
  {
    seq(|layers|, k requires 0 <= k < |layers| && layers[k].Valid() reads set l | l in layers => layers[k].Count(0))
  }

  /** The first part's answer: `counts[1] * counts[2]` of the first layer with the fewest zeroes; `None` for no layers. */
  function Checksum(layers: seq<Layer>): (r: Option<int>)
    requires forall k :: 0 <= k < |layers| ==> layers[k].Valid()
    reads set l | l in layers
    ensures r.None? <==> layers == []
    ensures r.Some? ==>
      exists i :: 0 <= i < |layers| &&
        (forall k :: 0 <= k < |layers| ==> CountIn(Flatten(layers[i].rows), 0) <= CountIn(Flatten(layers[k].rows), 0)) &&
        r.value == CountIn(Flatten(layers[i].rows), 1) * CountIn(Flatten(layers[i].rows), 2)
  {
    if layers == [] then None
    else
      var zeros := ZeroCounts(layers);
      var i := FirstMinimum(zeros);
      var fewest := layers[i];
      Some(fewest.Count(1) * fewest.Count(2))
  }
}
