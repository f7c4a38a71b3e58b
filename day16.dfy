/**
 * day16.py: the Flawed Frequency Transmission. `fft` multiplies the digits by a
 * repeating pattern held in rotating deques; `offset_fft` replaces each digit by
 * the last digit of the sum of the digits from it to the end.
 */
module Day16 {
  import opened Wrappers
  import opened Decimal
  import Numbers

  // ---- Digits in and out ----

  /** `[int(s) for s in signal]`; None for the ValueError of a character that is not a digit. */
  function ParseDigits(signal: string): (r: Option<seq<int>>)
    ensures r.Some? <==> AllDigits(signal)
    ensures r.Some? ==> |r.value| == |signal| && forall i :: 0 <= i < |signal| ==> r.value[i] == DigitValue(signal[i])
  {
    if AllDigits(signal) then Some(seq(|signal|, i requires 0 <= i < |signal| => DigitValue(signal[i]) as int))
    else None
  }

  /** `"".join(str(s) for s in phased)`. */
  function Join(phased: seq<int>): string
  {
    if phased == [] then "" else Join(phased[..|phased| - 1]) + IntStr(phased[|phased| - 1])
  }

  predicate IsDigits(d: seq<int>)
  {
    forall i :: 0 <= i < |d| ==> 0 <= d[i] <= 9
  }

  /** Joining single digits writes one character per digit. */
  lemma {:induction false} JoinDigits(d: seq<int>)
    requires IsDigits(d)
    ensures |Join(d)| == |d| && forall i :: 0 <= i < |d| ==> Join(d)[i] == DigitChar(d[i])
    decreases |d|
  {
    if d != [] {
      JoinDigits(d[..|d| - 1]);
      assert IntStr(d[|d| - 1]) == [DigitChar(d[|d| - 1])];
    }
  }

  /** Parsing a digit string and joining it back gives the string. */
  lemma {:induction false} JoinParse(signal: string)
    requires AllDigits(signal)
    ensures IsDigits(ParseDigits(signal).value) && Join(ParseDigits(signal).value) == signal
  {
    var d := ParseDigits(signal).value;
    JoinDigits(d);
  }

  // ---- fft: the pattern ----

  /** `base_pattern`. */
  function Base(k: nat): int
    requires k < 4
  {
    [0, 1, 0, -1][k]
  }

  /** `[v] * n`. */
  function Repeat(v: int, n: nat): (r: seq<int>)
    ensures |r| == n && forall i :: 0 <= i < n ==> r[i] == v
  {
    seq(n, i => v)
  }

  /** The pattern for `position`: each entry of `base_pattern` repeated `position` times. */
  function Pattern(position: nat): (r: seq<int>)
    ensures |r| == 4 * position
  {
    Repeat(0, position) + Repeat(1, position) + Repeat(0, position) + Repeat(-1, position)
  }

  /** Entry `k` of the pattern for `p` is base entry `k // p`. */
  lemma {:induction false} PatternIndex(p: nat, k: nat)
    requires 0 < p && k < 4 * p
    ensures k / p < 4 && Pattern(p)[k] == Base(k / p)
  {
    var q := if k < p then 0 else if k < 2 * p then 1 else if k < 3 * p then 2 else 3;
    Numbers.DivUnique(k, p, q, k - q * p);
  }

  /**
   * The coefficient of input `j` for output `i`: the base pattern, each entry
   * repeated `i + 1` times and shifted left by one, read at `j`, which is
   * `base_pattern[((j + 1) // (i + 1)) % 4]`.
   */
  function Coef(i: nat, j: nat): int
  {
    Base(((j + 1) / (i + 1)) % 4)
  }

  /** The deque read for input `j`, rotated `j + 1` times, holds that coefficient. */
  lemma {:induction false} CoefFromPattern(i: nat, j: nat)
    ensures var p := i + 1; Pattern(p)[(j + 1) % (4 * p)] == Coef(i, j)
  {
    var p, k := i + 1, j + 1;
    var q, r := k / (4 * p), k % (4 * p);
    PatternIndex(p, r);
    var t := r / p;
    assert r == t * p + r % p;
    assert k == (4 * q + t) * p + r % p;
    Numbers.DivUnique(k, p, 4 * q + t, r % p);
    Numbers.DivUnique(4 * q + t, 4, q, t);
  }

  /** Inputs before `i` get coefficient 0: output `i` only sees the inputs from `i` on. */
  lemma {:induction false} CoefBelowDiagonal(i: nat, j: nat)
    requires j < i
    ensures Coef(i, j) == 0
  {
    Numbers.DivUnique(j + 1, i + 1, 0, j + 1);
  }

  /** Inputs from `i` to `2i` get coefficient 1. */
  lemma {:induction false} CoefUpperBand(i: nat, j: nat)
    requires i <= j <= 2 * i
    ensures Coef(i, j) == 1
  {
    Numbers.DivUnique(j + 1, i + 1, 1, j - i);
  }

  // ---- fft: one phase and its iteration ----

  /** The weighted sum of the first `n` inputs for output `i`. */
  function PhaseSum(d: seq<int>, i: nat, n: nat): int
    requires n <= |d|
  {
    if n == 0 then 0 else PhaseSum(d, i, n - 1) + d[n - 1] * Coef(i, n - 1)
  }

  /** One phase: output `i` is the last digit of the absolute weighted sum. */
  function Phase(d: seq<int>): (r: seq<int>)
    ensures |r| == |d| && IsDigits(r)
  {
    seq(|d|, i requires 0 <= i < |d| => Numbers.Abs(PhaseSum(d, i, |d|)) % 10)
  }

  /** `phases` phases applied one after another. */
  function Phases(d: seq<int>, phases: nat): (r: seq<int>)
    ensures |r| == |d|
    ensures IsDigits(d) ==> IsDigits(r)
  {
    if phases == 0 then d else Phase(Phases(d, phases - 1))
  }

  /** The part of a weighted sum below `i` is 0. */
  lemma {:induction false} PhaseSumBelow(d: seq<int>, i: nat, n: nat)
    requires n <= |d| && n <= i
    ensures PhaseSum(d, i, n) == 0
  {
    if n > 0 {
      PhaseSumBelow(d, i, n - 1);
      CoefBelowDiagonal(i, n - 1);
    }
  }

  /** Weighted sums for output `i` of two signals that agree from `i` on are equal. */
  lemma {:induction false} PhaseSumSuffix(d: seq<int>, e: seq<int>, i: nat, n: nat)
    requires n <= |d| == |e| && forall j :: i <= j < |d| ==> d[j] == e[j]
    ensures PhaseSum(d, i, n) == PhaseSum(e, i, n)
  {
    if n > 0 {
      PhaseSumSuffix(d, e, i, n - 1);
      if n - 1 < i {
        CoefBelowDiagonal(i, n - 1);
      }
    }
  }

  /** Output digit `i` of a phase depends only on the inputs from `i` on. */
  lemma {:induction false} PhaseDependsOnSuffix(d: seq<int>, e: seq<int>, i: nat)
    requires |d| == |e| && i < |d| && forall j :: i <= j < |d| ==> d[j] == e[j]
    ensures Phase(d)[i] == Phase(e)[i]
  {
    PhaseSumSuffix(d, e, i, |d|);
  }

  // ---- fft: the loops ----

  /** `q` rotated left `k` times: `deque.rotate(-1)` applied `k` times. */
  function Rotation(q: seq<int>, k: nat): (r: seq<int>)
    requires |q| > 0
    ensures |r| == |q| && r[0] == q[k % |q|]
  {
    q[k % |q|..] + q[..k % |q|]
  }

  /** `pattern.rotate(-1)` turns `k` rotations into `k + 1`. */
  lemma {:induction false} RotateStep(q: seq<int>, k: nat, next: nat)
    requires |q| > 0 && next == k + 1
    ensures var r := Rotation(q, k); r[1..] + [r[0]] == Rotation(q, next)
  {
    var n, m := |q|, k % |q|;
    if m + 1 < n {
      Numbers.DivUnique(next, n, k / n, m + 1);
      assert q[m..][1..] == q[m + 1..];
      assert q[..m] + [q[m]] == q[..m + 1];
    } else {
      Numbers.DivUnique(next, n, k / n + 1, 0);
      assert q[m..] == [q[m]];
      assert q[..m] + [q[m]] == q;
    }
  }

  /** The pattern-generation loop: one deque per position `1 .. len(signal)`. */
  method Patterns(n: nat) returns (patterns: seq<seq<int>>)
    ensures |patterns| == n && forall i :: 0 <= i < n ==> patterns[i] == Pattern(i + 1)
  {
    patterns := [];
    for position := 1 to n + 1
      invariant |patterns| == position - 1
      invariant forall i :: 0 <= i < position - 1 ==> patterns[i] == Pattern(i + 1)
    {
      var partial: seq<int> := [];
      var bases := [0, 1, 0, -1];
      for b := 0 to 4
        invariant partial == if b == 0 then [] else if b == 1 then Repeat(0, position)
          else if b == 2 then Repeat(0, position) + Repeat(1, position)
          else if b == 3 then Repeat(0, position) + Repeat(1, position) + Repeat(0, position)
          else Pattern(position)
      {
        partial := partial + Repeat(bases[b], position);
      }
      patterns := patterns + [partial];
    }
  }

  /**
   * Output `i` of one phase, as the inner loop computes it: a copy of pattern `i`
   * rotated once, then one product and one rotation per input.
   */
  method PhaseDigit(phased: seq<int>, pattern: seq<int>, i: nat) returns (digit: int)
    requires i < |phased| && pattern == Pattern(i + 1)
    ensures digit == Phase(phased)[i]
  {
    var p := i + 1;
    var deque := pattern[1..] + [pattern[0]];
    RotateStep(pattern, 0, 1);
    assert pattern[0..] + pattern[..0] == pattern;
    var signalSum := 0;
    for j := 0 to |phased|
      invariant deque == Rotation(pattern, j + 1)
      invariant signalSum == PhaseSum(phased, i, j)
    {
      DigitStep(phased, pattern, i, j, deque, signalSum);
      signalSum := signalSum + phased[j] * deque[0];
      deque := deque[1..] + [deque[0]];
    }
    digit := Numbers.Abs(signalSum) % 10;
  }

  /** One step of the inner loop: it adds the product for input `j` and rotates the deque once more. */
  lemma {:induction false} DigitStep(phased: seq<int>, pattern: seq<int>, i: nat, j: nat, deque: seq<int>, signalSum: int)
    requires i < |phased| && j < |phased| && pattern == Pattern(i + 1)
    requires deque == Rotation(pattern, j + 1) && signalSum == PhaseSum(phased, i, j)
    ensures signalSum + phased[j] * deque[0] == PhaseSum(phased, i, j + 1)
    ensures deque[1..] + [deque[0]] == Rotation(pattern, j + 2)
  {
    CoefFromPattern(i, j);
    RotateStep(pattern, j + 1, j + 2);
  }

  /** `phased`'s phase loop: `next_phase` is built by appending output digits. */
  method ApplyPhase(patterns: seq<seq<int>>, phased: seq<int>) returns (next: seq<int>)
    requires |patterns| == |phased| && forall i :: 0 <= i < |phased| ==> patterns[i] == Pattern(i + 1)
    ensures next == Phase(phased)
  {
    next := [];
    for i := 0 to |phased|
      invariant |next| == i && forall k :: 0 <= k < i ==> next[k] == Phase(phased)[k]
    {
      var digit := PhaseDigit(phased, patterns[i], i);
      next := next + [digit];
    }
  }

  /** `fft(signal, phases)`: None for a signal with a character that is not a digit. */
  method Fft(signal: string, phases: nat) returns (r: Option<string>)
    ensures match ParseDigits(signal)
      case None => r == None
      case Some(d) => r == Some(Join(Phases(d, phases)))
  {
    var patterns := Patterns(|signal|);
    var parsed := ParseDigits(signal);
    if parsed.None? {
      return None;
    }
    var phased := parsed.value;
    for k := 0 to phases
      invariant phased == Phases(parsed.value, k)
    {
      phased := ApplyPhase(patterns, phased);
      PhasesStep(parsed.value, k, k + 1);
    }
    return Some(Join(phased));
  }

  lemma {:induction false} PhasesStep(d: seq<int>, k: nat, next: nat)
    requires next == k + 1
    ensures Phases(d, next) == Phase(Phases(d, k))
  {
  }

  /** With no phase, `fft` gives back its digit string. */
  lemma {:induction false} FftNoPhase(signal: string)
    requires AllDigits(signal)
    ensures Join(Phases(ParseDigits(signal).value, 0)) == signal
  {
    JoinParse(signal);
  }

  // ---- offset_fft ----

  /** The sum of the digits from `pos` to the end. */
  function SuffixSum(d: seq<int>, pos: nat): int
    decreases |d| - pos
  {
    if pos >= |d| then 0 else d[pos] + SuffixSum(d, pos + 1)
  }

  /** One phase of `offset_fft`: each digit becomes the last digit of its suffix sum. */
  function OffsetPhase(d: seq<int>): (r: seq<int>)
    ensures |r| == |d|
  {
    seq(|d|, i requires 0 <= i < |d| => SuffixSum(d, i) % 10)
  }

  function OffsetPhases(d: seq<int>, phases: nat): (r: seq<int>)
    ensures |r| == |d|
  {
    if phases == 0 then d else OffsetPhase(OffsetPhases(d, phases - 1))
  }

  /** The suffix sums of digits are non-negative. */
  lemma {:induction false} SuffixSumNonNegative(d: seq<int>, pos: nat)
    requires IsDigits(d)
    ensures SuffixSum(d, pos) >= 0
    decreases |d| - pos
  {
    if pos < |d| {
      SuffixSumNonNegative(d, pos + 1);
    }
  }

  /** A phase of digits gives digits, and leaves the last digit as it was. */
  lemma {:induction false} OffsetPhaseDigits(d: seq<int>)
    requires IsDigits(d)
    ensures IsDigits(OffsetPhase(d))
    ensures |d| > 0 ==> OffsetPhase(d)[|d| - 1] == d[|d| - 1]
  {
    forall i | 0 <= i < |d|
      ensures 0 <= OffsetPhase(d)[i] <= 9
    {
      SuffixSumNonNegative(d, i);
    }
    if |d| > 0 {
      assert SuffixSum(d, |d| - 1) == d[|d| - 1] + SuffixSum(d, |d|);
    }
  }

  /** Every phase of `offset_fft` leaves the last digit unchanged. */
  lemma {:induction false} OffsetLastDigit(d: seq<int>, phases: nat)
    requires IsDigits(d) && |d| > 0
    ensures IsDigits(OffsetPhases(d, phases)) && OffsetPhases(d, phases)[|d| - 1] == d[|d| - 1]
  {
    if phases > 0 {
      OffsetLastDigit(d, phases - 1);
      OffsetPhaseDigits(OffsetPhases(d, phases - 1));
    }
  }

  /**
   * In the second half of a signal of digits, a phase of `fft` and a phase of
   * `offset_fft` agree: there every coefficient from the diagonal on is 1.
   */
  lemma {:induction false} UpperHalfAgrees(d: seq<int>, i: nat)
    requires IsDigits(d) && i < |d| <= 2 * i + 1
    ensures Phase(d)[i] == OffsetPhase(d)[i]
  {
    UpperHalfSum(d, i, |d|);
    SuffixSumNonNegative(d, i);
  }

  /** The weighted sum up to `n` in the upper half is the plain sum from `i` to `n`. */
  lemma {:induction false} UpperHalfSum(d: seq<int>, i: nat, n: nat)
    requires i <= |d| <= 2 * i + 1 && n <= |d|
    ensures PhaseSum(d, i, n) == SuffixSum(d, i) - SuffixSum(d, if n < i then i else n)
  {
    if n > 0 {
      UpperHalfSum(d, i, n - 1);
      if n - 1 < i {
        CoefBelowDiagonal(i, n - 1);
      } else {
        CoefUpperBand(i, n - 1);
      }
    }
  }

  /**
   * One phase of `offset_fft`: the first loop fills `phased_sums` from the end
   * (the last position takes the IndexError branch), the second takes each sum
   * modulo 10.
   */
  method OffsetApplyPhase(phased: seq<int>, sumsBefore: seq<int>) returns (next: seq<int>, sums: seq<int>)
    requires |sumsBefore| == |phased|
    ensures next == OffsetPhase(phased)
    ensures |sums| == |phased| && forall k :: 0 <= k < |phased| ==> sums[k] == SuffixSum(phased, k)
  {
    var n := |phased|;
    sums := sumsBefore;
    var pos := n - 1;
    while pos >= 0
      invariant -1 <= pos < n && |sums| == n
      invariant forall k :: pos < k < n ==> sums[k] == SuffixSum(phased, k)
      decreases pos + 1
    {
      if pos + 1 < n {
        sums := sums[pos := phased[pos] + sums[pos + 1]];
      } else {
        sums := sums[pos := phased[pos]];
      }
      pos := pos - 1;
    }
    next := seq(n, k => 0);
    pos := n - 1;
    while pos >= 0
      invariant -1 <= pos < n && |next| == n
      invariant forall k :: pos < k < n ==> next[k] == SuffixSum(phased, k) % 10
      decreases pos + 1
    {
      next := next[pos := sums[pos] % 10];
      pos := pos - 1;
    }
  }

  /** `offset_fft(signal, phases)`: None for a signal with a character that is not a digit. */
  method OffsetFft(signal: string, phases: nat) returns (r: Option<string>)
    ensures match ParseDigits(signal)
      case None => r == None
      case Some(d) => r == Some(Join(OffsetPhases(d, phases)))
  {
    var parsed := ParseDigits(signal);
    if parsed.None? {
      return None;
    }
    var phased := parsed.value;
    var sums := seq(|phased|, k => -1);
    for i := 0 to phases
      invariant phased == OffsetPhases(parsed.value, i) && |sums| == |phased|
    {
      phased, sums := OffsetApplyPhase(phased, sums);
      OffsetPhasesStep(parsed.value, i, i + 1);
    }
    return Some(Join(phased));
  }

  lemma {:induction false} OffsetPhasesStep(d: seq<int>, k: nat, next: nat)
    requires next == k + 1
    ensures OffsetPhases(d, next) == OffsetPhase(OffsetPhases(d, k))
  {
  }
}
