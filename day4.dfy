/**
 * day4.py: the numbers of a range whose decimal digits never decrease and
 * repeat somewhere, and the stricter list whose members have a digit that
 * occurs exactly twice.
 */
module Day4 {
  import opened Wrappers
  import opened Decimal

  /** `set(digit)`: the characters of a string. */
  function Chars(s: string): set<char>
  {
    set i | 0 <= i < |s| :: s[i]
  }

  predicate NonDecreasing(s: string)
  {
    forall i, j :: 0 <= i < j < |s| ==> s[i] <= s[j]
  }

  predicate Distinct(s: string)
  {
    forall i, j :: 0 <= i < j < |s| ==> s[i] != s[j]
  }

  /** `sorted` on characters, as an insertion sort. */
  function Insert(c: char, s: string): (r: string)
    ensures |r| == |s| + 1
    ensures forall i :: 0 <= i < |r| ==> r[i] == c || r[i] in s
  {
    if s == [] || c <= s[0] then [c] + s else [s[0]] + Insert(c, s[1..])
  }

  /** `sorted(s)`. */
  function Sort(s: string): (r: string)
    ensures |r| == |s|
  {
    if s == [] then [] else Insert(s[0], Sort(s[1..]))
  }

  /** Inserting adds exactly one occurrence of `c` and changes no other count. */
  lemma {:induction false} InsertPermutes(c: char, s: string)
    ensures multiset(Insert(c, s)) == multiset(s) + multiset{c}
    decreases |s|
  {
    if s != [] && c > s[0] {
      assert s == [s[0]] + s[1..];
      InsertPermutes(c, s[1..]);
    }
  }

  /** `sorted` rearranges the characters: the result is a permutation of the input. */
  lemma {:induction false} SortPermutes(s: string)
    ensures multiset(Sort(s)) == multiset(s)
    decreases |s|
  {
    if s != [] {
      assert s == [s[0]] + s[1..];
      SortPermutes(s[1..]);
      InsertPermutes(s[0], Sort(s[1..]));
    }
  }

  lemma {:induction false} InsertKeepsOrder(c: char, s: string)
    requires NonDecreasing(s)
    ensures NonDecreasing(Insert(c, s))
    decreases |s|
  {
    if s != [] && c > s[0] {
      InsertKeepsOrder(c, s[1..]);
      var r := Insert(c, s[1..]);
      forall i | 0 <= i < |r|
        ensures s[0] <= r[i]
      {
        if r[i] != c {
          var k :| 0 <= k < |s[1..]| && s[1..][k] == r[i];
          assert s[k + 1] == r[i];
        }
      }
    }
  }

  lemma {:induction false} SortOrders(s: string)
    ensures NonDecreasing(Sort(s))
    decreases |s|
  {
    if s != [] {
      SortOrders(s[1..]);
      InsertKeepsOrder(s[0], Sort(s[1..]));
    }
  }

  /** `sorted(digit) == list(digit)` holds exactly for the strings whose characters never decrease. */
  lemma {:induction false} SortedIff(s: string)
    ensures Sort(s) == s <==> NonDecreasing(s)
    decreases |s|
  {
    SortOrders(s);
    if s != [] && NonDecreasing(s) {
      assert NonDecreasing(s[1..]);
      SortedIff(s[1..]);
      assert Sort(s) == Insert(s[0], s[1..]);
    }
  }

  /** The first rule: fewer than six distinct digits, in non-decreasing order. */
  predicate Accepted(digit: string)
  {
    |Chars(digit)| < 6 && Sort(digit) == digit
  }

  /** The `for d in range(low, high + 1)` loop: the accepted `str(d)`, in order. */
  function Candidates(low: int, high: int): (passwords: seq<string>)
    decreases if high < low then 0 else high - low + 1
  {
    if high < low then []
    else Candidates(low, high - 1) + (if Accepted(IntStr(high)) then [IntStr(high)] else [])
  }

  /** One more number at the top of the range adds its string when it is accepted. */
  lemma {:induction false} CandidatesStep(low: int, high: int, prev: int)
    requires low <= high && prev == high - 1
    ensures Candidates(low, high) == Candidates(low, prev) + (if Accepted(IntStr(high)) then [IntStr(high)] else [])
  {
  }

  /** The first part's loop, appending to `passwords`. */
  method Passwords(low: int, high: int) returns (passwords: seq<string>)
    ensures passwords == Candidates(low, high)
  {
    passwords := [];
    var d := low;
    while d <= high
      invariant (low <= high + 1 ==> low <= d <= high + 1) && (high < low ==> d == low)
      invariant passwords == Candidates(low, d - 1)
      decreases high - d
    {
      var digit := IntStr(d);
      if |Chars(digit)| < 6 && Sort(digit) == digit {
        passwords := passwords + [digit];
      }
      ghost var prev := d - 1;
      d := d + 1;
      CandidatesStep(low, d - 1, prev);
    }
  }

  /** A string is a candidate exactly when it is the accepted `str(d)` of some `d` in the range. */
  lemma {:induction false} CandidatesMembers(low: int, high: int, p: string)
    ensures p in Candidates(low, high) <==> exists d :: low <= d <= high && p == IntStr(d) && Accepted(p)
    decreases if high < low then 0 else high - low + 1
  {
    if high >= low {
      var prev := high - 1;
      CandidatesStep(low, high, prev);
      CandidatesMembers(low, prev, p);
      if p in Candidates(low, high) && p !in Candidates(low, prev) {
        assert p == IntStr(high) && Accepted(p);
      }
      if d :| low <= d <= high && p == IntStr(d) && Accepted(p) {
        if d < high {
          assert p in Candidates(low, prev);
        } else {
          assert p in Candidates(low, high);
        }
      }
    }
  }

  /** The candidates are listed in increasing numeric order. */
  lemma {:induction false} CandidatesIncrease(low: int, high: int)
    ensures var c := Candidates(low, high);
      (forall i :: 0 <= i < |c| ==> ParseInt(c[i]).Some? && low <= ParseInt(c[i]).value <= high) &&
      forall i, j :: 0 <= i < j < |c| ==> ParseInt(c[i]).value < ParseInt(c[j]).value
    decreases if high < low then 0 else high - low + 1
  {
    if high >= low {
      var prev := high - 1;
      CandidatesStep(low, high, prev);
      CandidatesIncrease(low, prev);
      ParseIntStr(high);
      var c, c' := Candidates(low, high), Candidates(low, prev);
      forall i | 0 <= i < |c|
        ensures ParseInt(c[i]).Some? && low <= ParseInt(c[i]).value <= high
      {
        if i < |c'| {
          assert c[i] == c'[i];
        }
      }
      forall i, j | 0 <= i < j < |c|
        ensures ParseInt(c[i]).value < ParseInt(c[j]).value
      {
        assert c[i] == c'[i];
        if j < |c'| {
          assert c[j] == c'[j];
        }
      }
    }
  }

  /** A string's characters are all different exactly when it has as many distinct ones as it is long. */
  lemma {:induction false} CharsCount(s: string)
    ensures |Chars(s)| <= |s|
    ensures |Chars(s)| == |s| <==> Distinct(s)
    decreases |s|
  {
    if s != [] {
      var p := s[..|s| - 1];
      var c := s[|s| - 1];
      CharsCount(p);
      assert Chars(s) == Chars(p) + {c} by {
        forall x | x in Chars(s)
          ensures x in Chars(p) + {c}
        {
          var i :| 0 <= i < |s| && s[i] == x;
          if i < |s| - 1 {
            assert p[i] == x;
          }
        }
      }
      if c in Chars(p) {
        var i :| 0 <= i < |p| && p[i] == c;
        assert s[i] == s[|s| - 1];
      } else {
        assert Distinct(s) <==> Distinct(p) by {
          if Distinct(p) {
            forall i, j | 0 <= i < j < |s|
              ensures s[i] != s[j]
            {
              if j < |s| - 1 {
                assert s[i] == p[i] && s[j] == p[j];
              } else {
                assert s[i] == p[i];
              }
            }
          }
          if Distinct(s) {
            forall i, j | 0 <= i < j < |p|
              ensures p[i] != p[j]
            {
              assert s[i] == p[i] && s[j] == p[j];
            }
          }
        }
      }
    }
  }

  /**
   * For a six-digit string that never decreases, having fewer than six distinct
   * digits is the same as having two equal adjacent digits.
   */
  lemma {:induction false} AdjacentPair(s: string)
    requires |s| == 6 && NonDecreasing(s)
    ensures |Chars(s)| < 6 <==> exists i :: 0 <= i < 5 && s[i] == s[i + 1]
  {
    CharsCount(s);
    if !Distinct(s) {
      var i, j :| 0 <= i < j < |s| && s[i] == s[j];
      assert s[i] <= s[i + 1] <= s[j];
      assert s[i] == s[i + 1];
    }
  }

  /** The length is not checked: a five-digit number can pass the first rule. */
  lemma FiveDigitsAccepted()
    ensures Accepted(IntStr(12345))
  {
    FiveDigitsString();
    FiveDigitsSorted();
    CharsCount("12345");
  }

  lemma FiveDigitsString()
    ensures IntStr(12345) == "12345"
  {
    assert 12345 / 10 == 1234 && 12345 % 10 == 5;
    assert 1234 / 10 == 123 && 1234 % 10 == 4;
    assert 123 / 10 == 12 && 123 % 10 == 3;
    assert 12 / 10 == 1 && 12 % 10 == 2;
    assert NatStr(1) == "1";
    assert NatStr(12) == NatStr(1) + [DigitChar(2)] == "12";
    assert NatStr(123) == NatStr(12) + [DigitChar(3)] == "123";
    assert NatStr(1234) == NatStr(123) + [DigitChar(4)] == "1234";
    assert NatStr(12345) == NatStr(1234) + [DigitChar(5)] == "12345";
  }

  lemma FiveDigitsSorted()
    ensures Sort("12345") == "12345"
  {
    assert Sort("5") == "5";
    assert Sort("45") == "45";
    assert Sort("345") == "345";
    assert Sort("2345") == "2345";
  }

  /** How often `c` occurs in `s`: `Counter(p)[c]`. */
  function Count(s: string, c: char): nat
  {
    if s == [] then 0 else Count(s[..|s| - 1], c) + (if s[|s| - 1] == c then 1 else 0)
  }

  /** `2 in Counter(p).values()`: some character of `p` occurs exactly twice. */
  predicate HasExactPair(p: string)
  {
    exists i :: 0 <= i < |p| && Count(p, p[i]) == 2
  }

  /** The stricter list: `[p for p in passwords if 2 in Counter(p).values()]`. */
  function Stricter(passwords: seq<string>): (r: seq<string>)
    ensures |r| <= |passwords|
    ensures forall p :: p in r <==> p in passwords && HasExactPair(p)
  {
    if passwords == [] then []
    else
      var last := passwords[|passwords| - 1];
      Stricter(passwords[..|passwords| - 1]) + (if HasExactPair(last) then [last] else [])
  }

  /** The comprehension keeps order: filtering a concatenation concatenates the filtered parts. */
  lemma {:induction false} StricterAppend(s: seq<string>, t: seq<string>)
    ensures Stricter(s + t) == Stricter(s) + Stricter(t)
    decreases |t|
  {
    if t != [] {
      var t' := t[..|t| - 1];
      assert (s + t)[..|s + t| - 1] == s + t';
      var x := t[|t| - 1];
      assert (s + t)[|s + t| - 1] == x;
      StricterAppend(s, t');
      var tail := if HasExactPair(x) then [x] else [];
      assert Stricter(s + t) == Stricter(s + t') + tail;
      assert Stricter(t) == Stricter(t') + tail;
      assert Stricter(s) + Stricter(t') + tail == Stricter(s) + (Stricter(t') + tail);
    } else {
      assert s + t == s;
    }
  }
}
