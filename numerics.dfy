/**
  The numeric primitives the rating code takes from numpy and the Python runtime.

  exp, 10**x and sqrt are transcendental; they are passed around as function values and
  only the laws below are assumed of them. np.round (half to even) is defined exactly.
*/
module Numerics {

  /** np.exp, 10 ** x and np.sqrt, as the caller supplies them. */
  datatype Prims = Prims(exp: real -> real, pow10: real -> real, sqrt: real -> real)

  /** exp is positive, maps 0 to 1 and is non-decreasing. */
  ghost predicate ExpLaws(exp: real -> real)
  {
    && exp(0.0) == 1.0
    && (forall x :: exp(x) > 0.0)
    && (forall x, y :: x <= y ==> exp(x) <= exp(y))
  }

  /** 10 ** y is positive and 10 ** (-y) is the reciprocal of 10 ** y. */
  ghost predicate Pow10Laws(pow10: real -> real)
  {
    && (forall y :: pow10(y) > 0.0)
    && (forall y :: pow10(-y) * pow10(y) == 1.0)
  }

  /** sqrt of a non-negative number is the non-negative number whose square it is. */
  ghost predicate SqrtLaws(sqrt: real -> real)
  {
    forall y :: y >= 0.0 ==> sqrt(y) >= 0.0 && sqrt(y) * sqrt(y) == y
  }

  ghost predicate Lawful(p: Prims)
  {
    ExpLaws(p.exp) && Pow10Laws(p.pow10) && SqrtLaws(p.sqrt)
  }

  /** The unique non-negative square root: whatever sqrt returns on y >= 0 is pinned down. */
  lemma SqrtUnique(sqrt: real -> real, y: real, r: real)
    requires SqrtLaws(sqrt)
    requires y >= 0.0 && r >= 0.0 && r * r == y
    ensures sqrt(y) == r
  {
    var s := sqrt(y);
    assert s >= 0.0 && s * s == y;
    SquareMonotone(s, r);
    SquareMonotone(r, s);
  }

  /** Squares of non-negative numbers are ordered like the numbers. */
  lemma SquareMonotone(a: real, b: real)
    requires 0.0 <= a && 0.0 <= b
    ensures a <= b <==> a * a <= b * b
  {
    if a < b {
      MulPos(b - a, b + a);
    } else if b < a {
      MulPos(a - b, a + b);
    }
  }

  lemma MulPos(p: real, q: real)
    requires p > 0.0 && q > 0.0
    ensures p * q > 0.0
  {
  }

  lemma MulMono(x: real, y: real, c: real)
    requires x <= y && c >= 0.0
    ensures c * x <= c * y
  {
    if x < y && c > 0.0 {
      MulPos(c, y - x);
    }
  }

  lemma FractionInside(x: real, y: real)
    requires 0.0 < x < y
    ensures 0.0 < x / y < 1.0
  {
    var t := x / y;
    assert t * y == x;
    if t >= 1.0 {
      var u := t - 1.0;
      if u > 0.0 {
        MulPos(u, y);
      }
    }
  }

  lemma RecipAntitone(a: real, b: real)
    requires 0.0 < a <= b
    ensures 0.0 < 1.0 / b <= 1.0 / a
  {
    var ra, rb := 1.0 / a, 1.0 / b;
    assert ra * a == 1.0 && rb * b == 1.0;
    if rb > ra {
      MulPos(rb - ra, b);
      MulMono(a, b, ra);
    }
  }

  lemma DivMono(x: real, y: real, d: real)
    requires x <= y && d > 0.0
    ensures x / d <= y / d
  {
  }

  lemma DivAdd(a: real, b: real, h: real)
    requires h != 0.0
    ensures (a + b) / h == a / h + b / h
  {
  }

  /** Twice x over p is x over half of p. */
  lemma DivHalf(x: real, p: real)
    requires p != 0.0
    ensures 2.0 * x / p == x / (p / 2.0)
  {
  }

  function Max(a: real, b: real): real
  {
    if a < b then b else a
  }

  predicate IsEven(n: int)
  {
    n % 2 == 0
  }

  /** np.round(x, 0): the nearest integer, ties going to the even neighbour. */
  function RoundHalfEven(x: real): (r: int)
    ensures -0.5 <= x - r as real <= 0.5
    ensures x - r as real == 0.5 ==> IsEven(r)
    ensures x - r as real == -0.5 ==> IsEven(r)
  {
    var f := x.Floor;
    var d := x - f as real;
    if d < 0.5 then f
    else if d > 0.5 then f + 1
    else if IsEven(f) then f
    else f + 1
  }

  /** The rounding is the only integer with those properties: it is the nearest one. */
  lemma RoundIsNearest(x: real, n: int)
    ensures -0.5 < x - n as real < 0.5 ==> RoundHalfEven(x) == n
    ensures (x - n as real == 0.5 || x - n as real == -0.5) && IsEven(n) ==> RoundHalfEven(x) == n
  {
    var r := RoundHalfEven(x);
    if -0.5 < x - n as real < 0.5 {
      assert -1.0 < r as real - n as real < 1.0;
    }
  }

  /** Rounding never changes the sign of a number: it can only move it to zero. */
  lemma RoundKeepsSign(x: real)
    ensures x >= 0.0 ==> RoundHalfEven(x) >= 0
    ensures x <= 0.0 ==> RoundHalfEven(x) <= 0
  {
  }

  /** An integer-valued number is left alone. */
  lemma RoundOfInteger(n: int)
    ensures RoundHalfEven(n as real) == n
  {
    RoundIsNearest(n as real, n);
  }

  /** Shifting by an integer commutes with the rounding, except where x lies half-way between
      integers and the shift is odd: there the tie goes to the other even neighbour. */
  lemma RoundShift(n: int, x: real)
    requires IsEven(n) || (x - RoundHalfEven(x) as real != 0.5 && x - RoundHalfEven(x) as real != -0.5)
    ensures RoundHalfEven(n as real + x) == n + RoundHalfEven(x)
  {
    var r := RoundHalfEven(x);
    assert (n as real + x) - (n + r) as real == x - r as real;
    RoundIsNearest(n as real + x, n + r);
  }

  /** Python's `s[k]`: a negative index counts from the end. */
  function PyIndex<T>(s: seq<T>, k: int): (r: T)
    requires -|s| <= k < |s|
    ensures k >= 0 ==> r == s[k]
    ensures k < 0 ==> r == s[|s| + k]
  {
    if k < 0 then s[|s| + k] else s[k]
  }

  /** The position Python's `s[k]` reads. */
  function PyPos(n: nat, k: int): (p: nat)
    requires -(n as int) <= k < n
    ensures p < n
    ensures 0 <= k ==> p == k
  {
    if k < 0 then n + k else k
  }

  // ---------------------------------------------------------------------------
  // Sums, minima and maxima of sequences (np.sum, np.min, np.max)

  /** np.sum: the elements added left to right. */
  function Sum(s: seq<real>): real
  {
    if s == [] then 0.0 else Sum(s[..|s| - 1]) + s[|s| - 1]
  }

  /** Adding the next element to the sum of a prefix gives the sum of the longer prefix. */
  lemma SumStep(s: seq<real>, i: nat)
    requires i < |s|
    ensures Sum(s[..i + 1]) == Sum(s[..i]) + s[i]
  {
    assert s[..i + 1][..i] == s[..i];
  }

  /** t is s with every element divided by h. */
  predicate DividedBy(s: seq<real>, t: seq<real>, h: real)
  {
    h != 0.0 && |s| == |t| && forall i :: 0 <= i < |s| ==> t[i] == s[i] / h
  }

  /** Dividing every element by h divides the sum by h. */
  lemma {:induction false} SumDiv(s: seq<real>, t: seq<real>, h: real)
    requires DividedBy(s, t, h)
    ensures Sum(t) == Sum(s) / h
  {
    if s != [] {
      var n := |s| - 1;
      SumDiv(s[..n], t[..n], h);
      DivAdd(Sum(s[..n]), s[n], h);
    }
  }

  /** A sum of non-negative elements is non-negative. */
  lemma {:induction false} SumNonNegative(s: seq<real>)
    requires forall i :: 0 <= i < |s| ==> s[i] >= 0.0
    ensures Sum(s) >= 0.0
  {
    if s != [] {
      SumNonNegative(s[..|s| - 1]);
    }
  }

  /** A sum of non-negative elements with one positive element is positive. */
  lemma {:induction false} SumPositive(s: seq<real>, k: nat)
    requires forall i :: 0 <= i < |s| ==> s[i] >= 0.0
    requires k < |s| && s[k] > 0.0
    ensures Sum(s) > 0.0
  {
    var n := |s| - 1;
    if k == n {
      SumNonNegative(s[..n]);
    } else {
      SumPositive(s[..n], k);
    }
  }

  /** A sequence of zeros sums to zero. */
  lemma {:induction false} SumZeros(s: seq<real>)
    requires forall i :: 0 <= i < |s| ==> s[i] == 0.0
    ensures Sum(s) == 0.0
  {
    if s != [] {
      SumZeros(s[..|s| - 1]);
    }
  }

  lemma Distribute(c: real, x: real, y: real)
    ensures c * x + c * y == c * (x + y)
  {
  }

  /** The sum of element-wise sums is the sum of the sums. */
  lemma {:induction false} SumAdd(r: seq<real>, d: seq<real>, t: seq<real>)
    requires |r| == |d| == |t|
    requires forall i :: 0 <= i < |t| ==> t[i] == r[i] + d[i]
    ensures Sum(t) == Sum(r) + Sum(d)
  {
    if t != [] {
      var n := |t| - 1;
      SumAdd(r[..n], d[..n], t[..n]);
    }
  }

  /** A sum of n elements between a and b lies between n * a and n * b. */
  lemma {:induction false} SumBounds(s: seq<real>, a: real, b: real)
    requires forall i :: 0 <= i < |s| ==> a <= s[i] <= b
    ensures |s| as real * a <= Sum(s) <= |s| as real * b
  {
    if s != [] {
      var n := |s| - 1;
      SumBounds(s[..n], a, b);
      Distribute(a, n as real, 1.0);
      Distribute(b, n as real, 1.0);
    }
  }

  /** t is r with every element moved by c times the matching element of e. */
  predicate MovedBy(r: seq<real>, e: seq<real>, t: seq<real>, c: real)
  {
    |r| == |e| == |t| && forall i :: 0 <= i < |t| ==> t[i] == r[i] + c * e[i]
  }

  /** Moving every r[i] by c * e[i] moves the total by c times the total of e. */
  lemma {:induction false} SumMoved(r: seq<real>, e: seq<real>, t: seq<real>, c: real)
    requires MovedBy(r, e, t, c)
    ensures Sum(t) == Sum(r) + c * Sum(e)
  {
    if t != [] {
      var n := |t| - 1;
      assert MovedBy(r[..n], e[..n], t[..n], c);
      SumMoved(r[..n], e[..n], t[..n], c);
      Distribute(c, Sum(e[..n]), e[n]);
    }
  }

  /** Moving every r[i] by c * e[i], where the e[i] add up to zero, keeps the total of r. */
  lemma SumBalanced(r: seq<real>, e: seq<real>, t: seq<real>, c: real)
    requires MovedBy(r, e, t, c)
    requires Sum(e) == 0.0
    ensures Sum(t) == Sum(r)
  {
    SumMoved(r, e, t, c);
  }

  /** np.min of a non-empty sequence. */
  function MinOf(s: seq<real>): (m: real)
    requires |s| > 0
    ensures forall i :: 0 <= i < |s| ==> m <= s[i]
    ensures exists i :: 0 <= i < |s| && m == s[i]
  {
    if |s| == 1 then s[0]
    else
      var m := MinOf(s[..|s| - 1]);
      assert forall i :: 0 <= i < |s| - 1 ==> s[..|s| - 1][i] == s[i];
      if s[|s| - 1] < m then s[|s| - 1] else m
  }

  /** np.max of a non-empty sequence. */
  function MaxOf(s: seq<real>): (m: real)
    requires |s| > 0
    ensures forall i :: 0 <= i < |s| ==> s[i] <= m
    ensures exists i :: 0 <= i < |s| && m == s[i]
  {
    if |s| == 1 then s[0]
    else
      var m := MaxOf(s[..|s| - 1]);
      assert forall i :: 0 <= i < |s| - 1 ==> s[..|s| - 1][i] == s[i];
      if s[|s| - 1] > m then s[|s| - 1] else m
  }

  function Abs(x: real): real
  {
    if x < 0.0 then -x else x
  }

  /** np.abs of every element. */
  function Magnitudes(s: seq<real>): (m: seq<real>)
    ensures |m| == |s|
    ensures forall i :: 0 <= i < |s| ==> m[i] == Abs(s[i])
  {
    seq(|s|, i requires 0 <= i < |s| => Abs(s[i]))
  }

  /** np.argmin: the first position holding the smallest element. */
  function FirstArgMin(s: seq<real>): (k: nat)
    requires |s| > 0
    ensures k < |s|
    ensures forall j :: 0 <= j < |s| ==> s[k] <= s[j]
    ensures forall j :: 0 <= j < k ==> s[k] < s[j]
  {
    if |s| == 1 then 0
    else
      var k := FirstArgMin(s[..|s| - 1]);
      assert forall j :: 0 <= j < |s| - 1 ==> s[..|s| - 1][j] == s[j];
      if s[|s| - 1] < s[k] then |s| - 1 else k
  }

  /** np.argmax: the first position holding the largest element. */
  function FirstArgMax(s: seq<real>): (k: nat)
    requires |s| > 0
    ensures k < |s|
    ensures forall j :: 0 <= j < |s| ==> s[j] <= s[k]
    ensures forall j :: 0 <= j < k ==> s[j] < s[k]
  {
    if |s| == 1 then 0
    else
      var k := FirstArgMax(s[..|s| - 1]);
      assert forall j :: 0 <= j < |s| - 1 ==> s[..|s| - 1][j] == s[j];
      if s[|s| - 1] > s[k] then |s| - 1 else k
  }
}
