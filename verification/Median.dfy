/** The integer median: the floored midpoint of the middle values, computed bitwise so
    that no sum leaves the integer width. */
module Median {
  // ---------------------------------------------------------------- two's complement

  /** Distance from the nearer of 0 and -1, the two values that shifting fixes. */
  function Size(x: int): nat {
    if x < 0 then -1 - x else x
  }

  /** `a & b` on two's complement integers of any width; `x / 2` floors, as `>>` does. */
  function And(a: int, b: int): int
    decreases Size(a) + Size(b)
  {
    if Size(a) == 0 && Size(b) == 0 then (if a == -1 && b == -1 then -1 else 0)
    else 2 * And(a / 2, b / 2) + (if a % 2 == 1 && b % 2 == 1 then 1 else 0)
  }

  /** `a ^ b`. */
  function Xor(a: int, b: int): int
    decreases Size(a) + Size(b)
  {
    if Size(a) == 0 && Size(b) == 0 then (if a == b then 0 else -1)
    else 2 * Xor(a / 2, b / 2) + (if a % 2 == b % 2 then 0 else 1)
  }

  /** Bit `i` of the two's complement form. */
  function Bit(x: int, i: nat): bool
    decreases i
  {
    if i == 0 then x % 2 == 1 else Bit(x / 2, i - 1)
  }

  lemma {:induction false} BitOfExtension(x: int, i: nat)
    requires Size(x) == 0
    ensures Bit(x, i) <==> x == -1
    decreases i
  {
    if i > 0 { BitOfExtension(x / 2, i - 1); }
  }

  /** The bits of a number are its lowest one and those of its half. */
  lemma BitSplits(half: int, low: bool, i: nat)
    ensures Bit(2 * half + (if low then 1 else 0), i) <==> if i == 0 then low else Bit(half, i - 1)
  {
  }

  lemma {:induction false} AndIsBitwise(a: int, b: int, i: nat)
    ensures Bit(And(a, b), i) <==> Bit(a, i) && Bit(b, i)
    decreases i
  {
    if Size(a) == 0 && Size(b) == 0 {
      BitOfExtension(a, i);
      BitOfExtension(b, i);
      BitOfExtension(And(a, b), i);
    } else {
      BitSplits(And(a / 2, b / 2), a % 2 == 1 && b % 2 == 1, i);
      if i > 0 { AndIsBitwise(a / 2, b / 2, i - 1); }
    }
  }

  lemma {:induction false} XorIsBitwise(a: int, b: int, i: nat)
    ensures Bit(Xor(a, b), i) <==> Bit(a, i) != Bit(b, i)
    decreases i
  {
    if Size(a) == 0 && Size(b) == 0 {
      BitOfExtension(a, i);
      BitOfExtension(b, i);
      BitOfExtension(Xor(a, b), i);
    } else {
      BitSplits(Xor(a / 2, b / 2), a % 2 != b % 2, i);
      if i > 0 { XorIsBitwise(a / 2, b / 2, i - 1); }
    }
  }

  /** A sum is its carries twice and its carry-free sum once. */
  lemma {:induction false} SumSplits(a: int, b: int)
    ensures a + b == 2 * And(a, b) + Xor(a, b)
    decreases Size(a) + Size(b)
  {
    if Size(a) > 0 || Size(b) > 0 { SumSplits(a / 2, b / 2); }
  }

  /** 2^(w-1): a signed integer of width w lies in [-Half(w), Half(w)). */
  function Half(w: nat): int
    requires w > 0
  {
    if w == 1 then 1 else 2 * Half(w - 1)
  }

  predicate Fits(w: nat, x: int)
    requires w > 0
  {
    -Half(w) <= x < Half(w)
  }

  /** The bitwise operators stay within the width. */
  lemma {:induction false} OperatorsFit(w: nat, a: int, b: int)
    requires w > 0 && Fits(w, a) && Fits(w, b)
    ensures Fits(w, And(a, b)) && Fits(w, Xor(a, b))
  {
    if w > 1 { OperatorsFit(w - 1, a / 2, b / 2); }
  }

  /** The code's midpoint. */
  function Midpoint(a: int, b: int): int {
    And(a, b) + Xor(a, b) / 2
  }

  /** The midpoint is the floored mean of any two signed integers of any width, and no
      intermediate value leaves the width, though `a + b` may. */
  lemma MidpointExactly(w: nat, a: int, b: int)
    requires w > 0 && Fits(w, a) && Fits(w, b)
    ensures Midpoint(a, b) == (a + b) / 2
    ensures Fits(w, And(a, b)) && Fits(w, Xor(a, b)) && Fits(w, Xor(a, b) / 2) && Fits(w, Midpoint(a, b))
    ensures a <= b ==> a <= Midpoint(a, b) <= b
  {
    SumSplits(a, b);
    OperatorsFit(w, a, b);
  }

  // ---------------------------------------------------------------- the median

  predicate Ascending(s: seq<int>) {
    forall i, j :: 0 <= i < j < |s| ==> s[i] <= s[j]
  }

  function Insert(s: seq<int>, x: int): seq<int> {
    if s == [] || x <= s[0] then [x] + s else [s[0]] + Insert(s[1..], x)
  }

  /** The sorted copy the code works on. */
  function SortedCopy(values: seq<int>): seq<int> {
    if values == [] then [] else Insert(SortedCopy(values[1..]), values[0])
  }

  lemma {:induction false} InsertAdds(s: seq<int>, x: int)
    ensures |Insert(s, x)| == |s| + 1
    ensures forall y :: y in Insert(s, x) <==> y in s || y == x
  {
    if s != [] && x > s[0] {
      InsertAdds(s[1..], x);
      assert s == [s[0]] + s[1..];
    }
  }

  lemma {:induction false} InsertSorts(s: seq<int>, x: int)
    requires Ascending(s)
    ensures Ascending(Insert(s, x))
  {
    if s != [] && x > s[0] {
      InsertSorts(s[1..], x);
      InsertAdds(s[1..], x);
      var r := Insert(s[1..], x);
      forall k | 0 <= k < |r|
        ensures s[0] <= r[k]
      {
        assert r[k] in r;
      }
    }
  }

  lemma {:induction false} SortedCopySorts(values: seq<int>)
    ensures Ascending(SortedCopy(values)) && |SortedCopy(values)| == |values|
    ensures forall y :: y in SortedCopy(values) <==> y in values
  {
    if values != [] {
      SortedCopySorts(values[1..]);
      InsertAdds(SortedCopy(values[1..]), values[0]);
      InsertSorts(SortedCopy(values[1..]), values[0]);
      assert values == [values[0]] + values[1..];
    }
  }

  function MedianInteger(values: seq<int>): int {
    if values == [] then 0
    else
      var sorted := SortedCopy(values);
      SortedCopySorts(values);
      var middle := |sorted| / 2;
      if |sorted| % 2 != 0 then sorted[middle] else Midpoint(sorted[middle - 1], sorted[middle])
  }

  /** How many values are at most `m`, and how many at least. */
  function AtMost(values: seq<int>, m: int): nat {
    if values == [] then 0 else (if values[0] <= m then 1 else 0) + AtMost(values[1..], m)
  }

  function AtLeast(values: seq<int>, m: int): nat {
    if values == [] then 0 else (if values[0] >= m then 1 else 0) + AtLeast(values[1..], m)
  }

  lemma {:induction false} InsertCounts(s: seq<int>, x: int, m: int)
    ensures AtMost(Insert(s, x), m) == AtMost(s, m) + (if x <= m then 1 else 0)
    ensures AtLeast(Insert(s, x), m) == AtLeast(s, m) + (if x >= m then 1 else 0)
  {
    if s == [] || x <= s[0] {
      assert ([x] + s)[1..] == s;
    } else {
      InsertCounts(s[1..], x, m);
      assert Insert(s, x)[1..] == Insert(s[1..], x);
    }
  }

  lemma {:induction false} SortingKeepsCounts(values: seq<int>, m: int)
    ensures AtMost(SortedCopy(values), m) == AtMost(values, m)
    ensures AtLeast(SortedCopy(values), m) == AtLeast(values, m)
  {
    if values != [] {
      SortingKeepsCounts(values[1..], m);
      InsertCounts(SortedCopy(values[1..]), values[0], m);
    }
  }

  lemma {:induction false} FirstAreAtMost(s: seq<int>, k: nat, m: int)
    requires k <= |s| && forall i :: 0 <= i < k ==> s[i] <= m
    ensures AtMost(s, m) >= k
  {
    if k > 0 { FirstAreAtMost(s[1..], k - 1, m); }
  }

  lemma {:induction false} RestAreAtLeast(s: seq<int>, k: nat, m: int)
    requires k <= |s| && forall i :: k <= i < |s| ==> s[i] >= m
    ensures AtLeast(s, m) >= |s| - k
  {
    if s != [] { RestAreAtLeast(s[1..], if k > 0 then k - 1 else 0, m); }
  }

  lemma SortedSplits(s: seq<int>, m: int)
    requires Ascending(s) && s != []
    requires if |s| % 2 == 1 then m == s[|s| / 2] else s[|s| / 2 - 1] <= m <= s[|s| / 2]
    ensures 2 * AtMost(s, m) >= |s| && 2 * AtLeast(s, m) >= |s|
  {
    var middle := |s| / 2;
    FirstAreAtMost(s, if |s| % 2 == 0 then middle else middle + 1, m);
    RestAreAtLeast(s, middle, m);
  }

  lemma SortedFits(w: nat, values: seq<int>)
    requires w > 0 && forall i :: 0 <= i < |values| ==> Fits(w, values[i])
    ensures forall i :: 0 <= i < |SortedCopy(values)| ==>
            SortedCopy(values)[i] in values && Fits(w, SortedCopy(values)[i])
  {
    var s := SortedCopy(values);
    SortedCopySorts(values);
    forall i | 0 <= i < |s|
      ensures s[i] in values && Fits(w, s[i])
    {
      assert s[i] in s;
    }
  }

  /** The result is a median: at least half of the values are at most it and at least
      half are at least it; it fits wherever the values do; it is one of them when
      their number is odd, and zero when there are none. */
  lemma MedianSplits(w: nat, values: seq<int>)
    requires w > 0 && forall i :: 0 <= i < |values| ==> Fits(w, values[i])
    ensures var m := MedianInteger(values);
            && Fits(w, m)
            && 2 * AtMost(values, m) >= |values| && 2 * AtLeast(values, m) >= |values|
            && (|values| % 2 == 1 ==> m in values)
            && (values == [] ==> m == 0)
  {
    if values == [] {
      HalfIsPositive(w);
    } else {
      var s, m := SortedCopy(values), MedianInteger(values);
      SortedCopySorts(values);
      SortedFits(w, values);
      if |s| % 2 == 0 { MidpointExactly(w, s[|s| / 2 - 1], s[|s| / 2]); }
      SortedSplits(s, m);
      SortingKeepsCounts(values, m);
    }
  }

  lemma PlaceCounts(s: seq<int>, i: nat)
    requires Ascending(s) && i < |s|
    ensures AtMost(s, s[i]) >= i + 1 && AtLeast(s, s[i]) >= |s| - i
  {
    FirstAreAtMost(s, i + 1, s[i]);
    RestAreAtLeast(s, i, s[i]);
  }

  /** An even number of values has the floored mean of its two middle ones: `p` with half
      of the values up to it and more than half from it on, and `q` the other way round. */
  lemma EvenMedianIsMean(w: nat, values: seq<int>) returns (p: int, q: int)
    requires w > 0 && values != [] && |values| % 2 == 0 && forall i :: 0 <= i < |values| ==> Fits(w, values[i])
    ensures p in values && q in values && p <= q && MedianInteger(values) == (p + q) / 2
    ensures 2 * AtMost(values, p) >= |values| && 2 * AtLeast(values, p) > |values|
    ensures 2 * AtMost(values, q) > |values| && 2 * AtLeast(values, q) >= |values|
  {
    var s := SortedCopy(values);
    SortedCopySorts(values);
    SortedFits(w, values);
    p, q := s[|s| / 2 - 1], s[|s| / 2];
    MidpointExactly(w, p, q);
    PlaceCounts(s, |s| / 2 - 1);
    PlaceCounts(s, |s| / 2);
    SortingKeepsCounts(values, p);
    SortingKeepsCounts(values, q);
  }

  lemma {:induction false} HalfIsPositive(w: nat)
    requires w > 0
    ensures Half(w) >= 1
  {
    if w > 1 { HalfIsPositive(w - 1); }
  }
}
