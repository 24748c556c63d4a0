/**
  The classic Elo helpers (Application/elo.py): expected scores from ratings, score
  normalisation and the zero-sum rating adjustment.

  numpy arrays filled by loops are `array<real>` inside the methods and are handed back as
  sequences; np.nan / np.inf outcomes of a division by zero are reported as `NonFinite`.
*/
module Elo {
  import opened Numerics
  import opened Outcomes

  /** The expectation curve: 10 ** x and the scale D (rating points per factor ten in odds). */
  datatype Curve = Curve(pow10: real -> real, d: real)

  ghost predicate ValidCurve(c: Curve)
  {
    Pow10Laws(c.pow10) && c.d != 0.0
  }

  /** `expected_score(Ra, Rb, D) = 1 / (1 + 10 ** ((Rb - Ra) / D))`. */
  function ExpectedScore(c: Curve, ra: real, rb: real): (e: real)
    requires ValidCurve(c)
    ensures 0.0 < e < 1.0
  {
    var p := c.pow10((rb - ra) / c.d);
    FractionInside(1.0, 1.0 + p);
    1.0 / (1.0 + p)
  }

  /** expected2's inner `expected_score(Ra, Rb, D) = 2 / (1 + 10 ** ((Rb - Ra) / D))`. */
  function ExpectedScore2(c: Curve, ra: real, rb: real): (e: real)
    requires ValidCurve(c)
    ensures e == 2.0 * ExpectedScore(c, ra, rb)
  {
    2.0 / (1.0 + c.pow10((rb - ra) / c.d))
  }

  /** The two players' expectations against each other add up to one. */
  lemma ExpectedScoresComplement(c: Curve, ra: real, rb: real)
    requires ValidCurve(c)
    ensures ExpectedScore(c, ra, rb) + ExpectedScore(c, rb, ra) == 1.0
  {
    var y := (rb - ra) / c.d;
    assert (ra - rb) / c.d == -y;
    var p, q := c.pow10(y), c.pow10(-y);
    assert q * p == 1.0;
    assert (1.0 + q) * p == p + 1.0;
    assert 1.0 / (1.0 + q) == p / (1.0 + p);
  }

  /** N * (N - 1), the number of ordered pairs of distinct players, counted up one player
      at a time. */
  function OrderedPairs(n: nat): nat
  {
    if n == 0 then 0 else OrderedPairs(n - 1) + 2 * (n - 1)
  }

  /** N * (N - 1) / 2 as Python's true division computes it. */
  function HalfPairs(n: nat): real
  {
    OrderedPairs(n) as real / 2.0
  }

  lemma {:induction false} OrderedPairsClosedForm(n: nat)
    ensures OrderedPairs(n) == n * (n - 1)
  {
    if n > 0 {
      OrderedPairsClosedForm(n - 1);
      assert n * (n - 1) == (n - 1) * (n - 2) + 2 * (n - 1);
    }
  }

  lemma {:induction false} PairsPositive(n: nat)
    requires n >= 2
    ensures OrderedPairs(n) >= 2
  {
    if n > 2 {
      PairsPositive(n - 1);
    }
  }

  // ---------------------------------------------------------------------------
  // Row, column and total sums of the expectation matrix (the diagonal left out)

  /** The sum over j < n, j != i, of ExpectedScore(r[i], r[j]). */
  function Row(c: Curve, r: seq<real>, i: nat, n: nat): real
    requires ValidCurve(c) && i < |r| && n <= |r|
  {
    if n == 0 then 0.0
    else Row(c, r, i, n - 1) + (if n - 1 != i then ExpectedScore(c, r[i], r[n - 1]) else 0.0)
  }

  /** The sum over i < m, i != j, of ExpectedScore(r[i], r[j]). */
  function Col(c: Curve, r: seq<real>, j: nat, m: nat): real
    requires ValidCurve(c) && j < |r| && m <= |r|
  {
    if m == 0 then 0.0
    else Col(c, r, j, m - 1) + (if m - 1 != j then ExpectedScore(c, r[m - 1], r[j]) else 0.0)
  }

  /** The sum of the first m rows, each over the first n columns. */
  function Tot(c: Curve, r: seq<real>, m: nat, n: nat): real
    requires ValidCurve(c) && m <= |r| && n <= |r|
  {
    if m == 0 then 0.0 else Tot(c, r, m - 1, n) + Row(c, r, m - 1, n)
  }

  lemma {:induction false} TotAddColumn(c: Curve, r: seq<real>, m: nat, n: nat)
    requires ValidCurve(c) && m <= |r| && n < |r|
    ensures Tot(c, r, m, n + 1) == Tot(c, r, m, n) + Col(c, r, n, m)
  {
    if m > 0 {
      TotAddColumn(c, r, m - 1, n);
    }
  }

  /** Row n and column n of the square n x n block pair up into n complementary expectations. */
  lemma {:induction false} ColPlusRow(c: Curve, r: seq<real>, n: nat, m: nat)
    requires ValidCurve(c) && n < |r| && m <= n
    ensures Col(c, r, n, m) + Row(c, r, n, m) == m as real
  {
    if m > 0 {
      ColPlusRow(c, r, n, m - 1);
      ExpectedScoresComplement(c, r[m - 1], r[n]);
    }
  }

  /** Over n players the off-diagonal expectations add up to the number of pairs. */
  lemma {:induction false} TotSquare(c: Curve, r: seq<real>, n: nat)
    requires ValidCurve(c) && n <= |r|
    ensures Tot(c, r, n, n) == HalfPairs(n)
  {
    if n > 0 {
      var k := n - 1;
      TotSquare(c, r, k);
      TotAddColumn(c, r, k, k);
      ColPlusRow(c, r, k, k);
      assert Row(c, r, k, n) == Row(c, r, k, k);
    }
  }

  /** The first m full rows. */
  function Rows(c: Curve, r: seq<real>, m: nat): (rows: seq<real>)
    requires ValidCurve(c) && m <= |r|
    ensures |rows| == m
  {
    seq(m, i requires 0 <= i < m => Row(c, r, i, |r|))
  }

  lemma {:induction false} RowsSum(c: Curve, r: seq<real>, m: nat)
    requires ValidCurve(c) && m <= |r|
    ensures Sum(Rows(c, r, m)) == Tot(c, r, m, |r|)
  {
    if m > 0 {
      RowsSum(c, r, m - 1);
      assert Rows(c, r, m)[..m - 1] == Rows(c, r, m - 1);
    }
  }

  // ---------------------------------------------------------------------------
  // expected_scores and expected2

  /** Player i's row with every expectation divided by h, added up as the loops add it. */
  function RowShare(c: Curve, r: seq<real>, i: nat, n: nat, h: real): real
    requires ValidCurve(c) && i < |r| && n <= |r| && h != 0.0
  {
    if n == 0 then 0.0
    else RowShare(c, r, i, n - 1, h) + (if n - 1 != i then ExpectedScore(c, r[i], r[n - 1]) / h else 0.0)
  }

  lemma {:induction false} RowShareIsRow(c: Curve, r: seq<real>, i: nat, n: nat, h: real)
    requires ValidCurve(c) && i < |r| && n <= |r| && h != 0.0
    ensures RowShare(c, r, i, n, h) == Row(c, r, i, n) / h
  {
    if n > 0 {
      RowShareIsRow(c, r, i, n - 1, h);
      var e := if n - 1 != i then ExpectedScore(c, r[i], r[n - 1]) else 0.0;
      DivAdd(Row(c, r, i, n - 1), e, h);
    }
  }

  /** Entry i of `expected_scores`: player i's expectations over the N * (N - 1) / 2 pairs. */
  function ExpectedEntry(c: Curve, r: seq<real>, i: nat): real
    requires ValidCurve(c) && i < |r|
  {
    if |r| < 2 then 0.0 else (PairsPositive(|r|); RowShare(c, r, i, |r|, HalfPairs(|r|)))
  }

  /** The whole `expected_scores` array. */
  function ExpectedShares(c: Curve, r: seq<real>): (e: seq<real>)
    requires ValidCurve(c)
    ensures |e| == |r|
  {
    seq(|r|, i requires 0 <= i < |r| => ExpectedEntry(c, r, i))
  }

  /** For two or more players each entry is the player's full row over the number of pairs. */
  lemma ExpectedSharesAreRows(c: Curve, r: seq<real>)
    requires ValidCurve(c) && |r| >= 2
    ensures DividedBy(Rows(c, r, |r|), ExpectedShares(c, r), HalfPairs(|r|))
  {
    PairsPositive(|r|);
    forall i | 0 <= i < |r|
      ensures ExpectedShares(c, r)[i] == Rows(c, r, |r|)[i] / HalfPairs(|r|)
    {
      RowShareIsRow(c, r, i, |r|, HalfPairs(|r|));
    }
  }

  /** For two or more players the `expected_scores` entries are fractions of one whole. */
  lemma ExpectedSharesSumToOne(c: Curve, r: seq<real>)
    requires ValidCurve(c) && |r| >= 2
    ensures Sum(ExpectedShares(c, r)) == 1.0
  {
    PairsPositive(|r|);
    ExpectedSharesAreRows(c, r);
    SumDiv(Rows(c, r, |r|), ExpectedShares(c, r), HalfPairs(|r|));
    RowsSum(c, r, |r|);
    TotSquare(c, r, |r|);
  }

  /** `expected_scores(ratings, scale)`: each player's share of all expected scores; the
      shares of two or more players add up to one. */
  method ExpectedScores(ratings: seq<real>, c: Curve) returns (expected: seq<real>)
    requires ValidCurve(c)
    ensures expected == ExpectedShares(c, ratings)
    ensures |ratings| >= 2 ==> Sum(expected) == 1.0
    ensures |ratings| == 1 ==> expected == [0.0]
  {
    var n := |ratings|;
    var h := HalfPairs(n);
    if n >= 2 {
      PairsPositive(n);
    }
    var a := new real[n](_ => 0.0);
    for i := 0 to n
      invariant forall k :: 0 <= k < i ==> a[k] == ExpectedEntry(c, ratings, k)
      invariant forall k :: i <= k < n ==> a[k] == 0.0
    {
      ghost var before := a[..];
      for j := 0 to n
        invariant forall k :: 0 <= k < n && k != i ==> a[k] == before[k]
        invariant a[i] == if n < 2 then 0.0 else RowShare(c, ratings, i, j, h)
      {
        if i != j {
          a[i] := a[i] + ExpectedScore(c, ratings[i], ratings[j]) / h;
        }
      }
    }
    expected := a[..];
    assert expected == ExpectedShares(c, ratings);
    if n >= 2 {
      ExpectedSharesSumToOne(c, ratings);
    }
  }

  /** `expected2(ratings, scale)`: doubling the curve and the number of pairs cancels out, so
      it hands back exactly what `expected_scores` does. */
  method Expected2(ratings: seq<real>, c: Curve) returns (expected: seq<real>)
    requires ValidCurve(c)
    ensures expected == ExpectedShares(c, ratings)
    ensures |ratings| >= 2 ==> Sum(expected) == 1.0
  {
    var n := |ratings|;
    var p := OrderedPairs(n) as real;
    if n >= 2 {
      PairsPositive(n);
    }
    var a := new real[n](_ => 0.0);
    for i := 0 to n
      invariant forall k :: 0 <= k < i ==> a[k] == ExpectedEntry(c, ratings, k)
      invariant forall k :: i <= k < n ==> a[k] == 0.0
    {
      ghost var before := a[..];
      for j := 0 to n
        invariant forall k :: 0 <= k < n && k != i ==> a[k] == before[k]
        invariant a[i] == if n < 2 then 0.0 else RowShare(c, ratings, i, j, p / 2.0)
      {
        if i != j {
          DivHalf(ExpectedScore(c, ratings[i], ratings[j]), p);
          a[i] := a[i] + ExpectedScore2(c, ratings[i], ratings[j]) / p;
        }
      }
    }
    expected := a[..];
    assert expected == ExpectedShares(c, ratings);
    if n >= 2 {
      ExpectedSharesSumToOne(c, ratings);
    }
  }

  // ---------------------------------------------------------------------------
  // scores_normalized

  /** The `method` argument: 'floor', 'percent' or any other string. */
  datatype Normalization = Floor | Percent | Unrecognised

  /** What the function hands back: an array of numbers, an array of nan/inf from a division
      by zero, or Python's None when no branch matched. */
  datatype Normalized = Values(v: seq<real>) | NonFinite | NoneReturned

  predicate AllEqual(s: seq<real>)
  {
    forall i, j :: 0 <= i < |s| && 0 <= j < |s| ==> s[i] == s[j]
  }

  /** `scores - np.min(scores)`. */
  function Shifted(s: seq<real>): (t: seq<real>)
    requires |s| > 0
    ensures |t| == |s|
    ensures forall i :: 0 <= i < |s| ==> t[i] >= 0.0
    ensures forall i :: 0 <= i < |s| && s[i] == MinOf(s) ==> t[i] == 0.0
  {
    var m := MinOf(s);
    seq(|s|, i requires 0 <= i < |s| => s[i] - m)
  }

  /** The shifted scores leave nothing to share out exactly when every score is the same. */
  lemma ShiftedTotalZero(s: seq<real>)
    requires |s| > 0
    ensures Sum(Shifted(s)) >= 0.0
    ensures Sum(Shifted(s)) == 0.0 <==> AllEqual(s)
  {
    var t := Shifted(s);
    SumNonNegative(t);
    if AllEqual(s) {
      forall i | 0 <= i < |s|
        ensures t[i] == 0.0
      {
        var k :| 0 <= k < |s| && MinOf(s) == s[k];
        assert s[i] == s[k];
      }
      SumZeros(t);
    } else {
      var i, j :| 0 <= i < |s| && 0 <= j < |s| && s[i] != s[j];
      var k := if s[i] > MinOf(s) then i else j;
      SumPositive(t, k);
    }
  }

  /** The floor normalisation: shifted scores as fractions of their total; the lowest score
      gets nothing and nobody gets a negative share. */
  function FloorShares(s: seq<real>): (f: seq<real>)
    requires |s| > 0 && !AllEqual(s)
    ensures |f| == |s|
    ensures forall i :: 0 <= i < |s| ==> f[i] >= 0.0
    ensures forall i :: 0 <= i < |s| && s[i] == MinOf(s) ==> f[i] == 0.0
  {
    ShiftedTotalZero(s);
    var t := Shifted(s);
    var total := Sum(t);
    seq(|s|, i requires 0 <= i < |s| => t[i] / total)
  }

  /** The floor shares add up to one. */
  lemma FloorSharesSumToOne(s: seq<real>)
    requires |s| > 0 && !AllEqual(s)
    ensures Sum(FloorShares(s)) == 1.0
  {
    ShiftedTotalZero(s);
    var t := Shifted(s);
    var total := Sum(t);
    assert DividedBy(t, FloorShares(s), total);
    SumDiv(t, FloorShares(s), total);
    assert total / total == 1.0;
  }

  /** A higher score never gets a smaller share. */
  lemma FloorSharesKeepOrder(s: seq<real>, i: nat, j: nat)
    requires |s| > 0 && !AllEqual(s)
    requires i < |s| && j < |s| && s[i] <= s[j]
    ensures FloorShares(s)[i] <= FloorShares(s)[j]
  {
    ShiftedTotalZero(s);
    var t := Shifted(s);
    var total := Sum(t);
    assert total > 0.0;
    DivMono(t[i], t[j], total);
  }

  /** The 'floor' branch of `scores_normalized`: np.min of no scores raises ValueError, and
      equal scores leave 0 / 0 in every entry. */
  method NormalizeFloor(scores: seq<real>) returns (r: Result<Normalized>)
    ensures |scores| == 0 <==> r == Err(ValueError)
    ensures |scores| > 0 ==> (r == Ok(NonFinite) <==> AllEqual(scores))
    ensures |scores| > 0 && !AllEqual(scores) ==> r == Ok(Values(FloorShares(scores)))
    ensures r.Ok? && r.value.Values? ==> Sum(r.value.v) == 1.0
    ensures r.Err? ==> r == Err(ValueError)
    ensures r != Ok(NoneReturned)
  {
    if |scores| == 0 {
      return Err(ValueError);
    }
    var n := |scores|;
    var shifted := Shifted(scores);
    var total := Sum(shifted);
    ShiftedTotalZero(scores);
    if total == 0.0 {
      return Ok(NonFinite);
    }
    var normal := new real[n](_ => 0.0);
    for i := 0 to n
      invariant forall k :: 0 <= k < i ==> normal[k] == shifted[k] / total
    {
      normal[i] := shifted[i] / total;
    }
    assert normal[..] == FloorShares(scores);
    FloorSharesSumToOne(scores);
    return Ok(Values(normal[..]));
  }

  /** The 'percent' normalisation: every score as a fraction of the best one, which gets 1. */
  function PercentShares(s: seq<real>): (p: seq<real>)
    requires |s| > 0 && MaxOf(s) != 0.0
    ensures |p| == |s|
    ensures forall i :: 0 <= i < |s| && s[i] == MaxOf(s) ==> p[i] == 1.0
  {
    var top := MaxOf(s);
    assert top / top == 1.0;
    seq(|s|, i requires 0 <= i < |s| => s[i] / top)
  }

  /** With a positive best score, no share exceeds 1 and a higher score never gets less. */
  lemma PercentSharesBounded(s: seq<real>, i: nat, j: nat)
    requires |s| > 0 && MaxOf(s) > 0.0 && i < |s| && j < |s|
    ensures PercentShares(s)[i] <= 1.0
    ensures s[i] <= s[j] ==> PercentShares(s)[i] <= PercentShares(s)[j]
  {
    var top := MaxOf(s);
    var p := PercentShares(s);
    assert p[i] == s[i] / top && p[j] == s[j] / top;
    UnitFraction(s[i], top);
    if s[i] <= s[j] {
      DivMono(s[i], s[j], top);
    }
  }

  lemma UnitFraction(x: real, top: real)
    requires 0.0 < top && x <= top
    ensures x / top <= 1.0
  {
    DivMono(x, top, top);
  }

  /** The 'percent' branch: np.max of no scores raises ValueError, and a best score of zero
      leaves nan/inf entries. */
  method NormalizePercent(scores: seq<real>) returns (r: Result<Normalized>)
    ensures |scores| == 0 <==> r == Err(ValueError)
    ensures |scores| > 0 ==> (r == Ok(NonFinite) <==> MaxOf(scores) == 0.0)
    ensures |scores| > 0 && MaxOf(scores) != 0.0 ==> r == Ok(Values(PercentShares(scores)))
    ensures r.Err? ==> r == Err(ValueError)
    ensures r != Ok(NoneReturned)
  {
    if |scores| == 0 {
      return Err(ValueError);
    }
    var top := MaxOf(scores);
    if top == 0.0 {
      return Ok(NonFinite);
    }
    return Ok(Values(PercentShares(scores)));
  }

  /** `scores_normalized(scores, method)`: any method name other than the two falls through
      and returns None. */
  method ScoresNormalized(scores: seq<real>, how: Normalization) returns (r: Result<Normalized>)
    ensures how == Unrecognised <==> r == Ok(NoneReturned)
    ensures r.Err? <==> how != Unrecognised && |scores| == 0
    ensures r.Err? ==> r.error == ValueError
    ensures how == Floor && |scores| > 0 ==> (r == Ok(NonFinite) <==> AllEqual(scores))
    ensures how == Floor && |scores| > 0 && !AllEqual(scores) ==> r == Ok(Values(FloorShares(scores)))
    ensures how == Percent && |scores| > 0 ==> (r == Ok(NonFinite) <==> MaxOf(scores) == 0.0)
    ensures how == Percent && |scores| > 0 && MaxOf(scores) != 0.0 ==> r == Ok(Values(PercentShares(scores)))
  {
    match how
    case Floor =>
      r := NormalizeFloor(scores);
    case Percent =>
      r := NormalizePercent(scores);
    case Unrecognised =>
      r := Ok(NoneReturned);
  }

  // ---------------------------------------------------------------------------
  // rating_adjustment

  /** The `k` argument: one number for everybody (broadcast) or one per competitor. */
  datatype KFactor = Scalar(k: real) | PerCompetitor(ks: seq<real>)

  function Broadcast(k: KFactor, n: nat): (ks: seq<real>)
    ensures k.Scalar? ==> |ks| == n && forall i :: 0 <= i < n ==> ks[i] == k.k
    ensures k.PerCompetitor? ==> ks == k.ks
  {
    match k
    case Scalar(x) => seq(n, _ => x)
    case PerCompetitor(ks) => ks
  }

  /** K * (N - 1): how many rating points one unit of surprise is worth. */
  function Stake(kk: real, n: nat): real
  {
    kk * (n as real - 1.0)
  }

  /** What `adjust` adds to a rating: K * (N - 1) * (Sa - Ea). */
  function Gain(ea: real, sa: real, kk: real, n: nat): real
  {
    Stake(kk, n) * (sa - ea)
  }

  /** The inner `adjust(Ra, Ea, Sa, K, N)`. */
  function Adjust(ra: real, ea: real, sa: real, kk: real, n: nat): real
  {
    ra + Gain(ea, sa, kk, n)
  }

  /** With a positive K and two or more players, a rating goes up exactly when the player
      scored above expectation, and down exactly when below. */
  lemma AdjustDirection(ra: real, ea: real, sa: real, kk: real, n: nat)
    requires kk > 0.0 && n >= 2
    ensures Adjust(ra, ea, sa, kk, n) > ra <==> sa > ea
    ensures Adjust(ra, ea, sa, kk, n) < ra <==> sa < ea
  {
    var g := Stake(kk, n);
    MulPos(kk, n as real - 1.0);
    if sa > ea {
      MulPos(g, sa - ea);
    } else if sa < ea {
      MulPos(g, ea - sa);
    }
  }

  /** The first loop of `rating_adjustment`: every rating adjusted by its share, its
      expectation and its K. */
  function Adjusted(ratings: seq<real>, expected: seq<real>, shares: seq<real>, ks: seq<real>): (v: seq<real>)
    requires |expected| == |shares| == |ratings| <= |ks|
    ensures |v| == |ratings|
  {
    seq(|ratings|, i requires 0 <= i < |ratings| => Adjust(ratings[i], expected[i], shares[i], ks[i], |ratings|))
  }

  /** Every player's share minus expectation: how much better than expected they did. */
  function Surprise(shares: seq<real>, expected: seq<real>): (d: seq<real>)
    requires |shares| == |expected|
    ensures |d| == |shares|
  {
    seq(|shares|, i requires 0 <= i < |shares| => shares[i] - expected[i])
  }

  /** When shares and expectations have the same total, the surprises cancel out. */
  lemma SurpriseBalances(shares: seq<real>, expected: seq<real>)
    requires |shares| == |expected| && Sum(shares) == Sum(expected)
    ensures Sum(Surprise(shares, expected)) == 0.0
  {
    SumAdd(expected, Surprise(shares, expected), shares);
  }

  /** With one K for everybody, every rating moves by the same multiple of its surprise. */
  lemma AdjustedIsShift(ratings: seq<real>, expected: seq<real>, shares: seq<real>, ks: seq<real>, kk: real)
    requires |expected| == |shares| == |ratings| == |ks|
    requires forall i :: 0 <= i < |ks| ==> ks[i] == kk
    ensures MovedBy(ratings, Surprise(shares, expected), Adjusted(ratings, expected, shares, ks), Stake(kk, |ratings|))
  {
    forall i | 0 <= i < |ratings|
      ensures Adjusted(ratings, expected, shares, ks)[i]
              == ratings[i] + Stake(kk, |ratings|) * Surprise(shares, expected)[i]
    {
      assert ks[i] == kk;
    }
  }

  /** With one K for everybody and shares that add up to what the expectations add up to,
      the adjustments only move rating points between players: the total is kept. */
  lemma AdjustedKeepsTotal(ratings: seq<real>, expected: seq<real>, shares: seq<real>, ks: seq<real>, kk: real)
    requires |expected| == |shares| == |ratings| == |ks|
    requires forall i :: 0 <= i < |ks| ==> ks[i] == kk
    requires Sum(shares) == Sum(expected)
    ensures Sum(Adjusted(ratings, expected, shares, ks)) == Sum(ratings)
  {
    AdjustedIsShift(ratings, expected, shares, ks, kk);
    SurpriseBalances(shares, expected);
    SumBalanced(ratings, Surprise(shares, expected), Adjusted(ratings, expected, shares, ks), Stake(kk, |ratings|));
  }

  /** rating_adjustment with one K for everybody and scores that are not all equal moves
      rating points between the players and keeps their total, before the floor of 100 and
      the rounding. */
  lemma AdjustmentsBalance(c: Curve, ratings: seq<real>, scores: seq<real>, kk: real)
    requires ValidCurve(c) && |ratings| == |scores| >= 2 && !AllEqual(scores)
    ensures
      var ks := Broadcast(Scalar(kk), |ratings|);
      Sum(Adjusted(ratings, ExpectedShares(c, ratings), FloorShares(scores), ks)) == Sum(ratings)
  {
    FloorSharesSumToOne(scores);
    ExpectedSharesSumToOne(c, ratings);
    AdjustedKeepsTotal(ratings, ExpectedShares(c, ratings), FloorShares(scores), Broadcast(Scalar(kk), |ratings|), kk);
  }

  /** The ratings `rating_adjustment` hands back: each adjusted rating raised to at least 100
      and rounded half to even; all of them are whole numbers of at least 100. */
  function NewRatings(adjusted: seq<real>): (v: seq<real>)
    ensures |v| == |adjusted|
    ensures forall i :: 0 <= i < |v| ==> v[i] >= 100.0 && v[i] == v[i].Floor as real
  {
    seq(|adjusted|, i requires 0 <= i < |adjusted| => RoundHalfEven(Max(100.0, adjusted[i])) as real)
  }

  /** Above the floor a new rating is the adjusted rating rounded to within half a point;
      below it, it is exactly 100. */
  lemma NewRatingsTrackAdjustment(adjusted: seq<real>, i: nat)
    requires i < |adjusted|
    ensures adjusted[i] < 100.0 ==> NewRatings(adjusted)[i] == 100.0
    ensures adjusted[i] >= 100.0 ==> -0.5 <= NewRatings(adjusted)[i] - adjusted[i] <= 0.5
  {
    if adjusted[i] < 100.0 {
      RoundOfInteger(100);
    }
  }

  /** The two loops of `rating_adjustment`: adjust every rating, then lift those under 100,
      then round. */
  method AdjustEach(ratings: seq<real>, expected: seq<real>, shares: seq<real>, ks: seq<real>)
    returns (v: seq<real>)
    requires |expected| == |shares| == |ratings| <= |ks|
    ensures v == NewRatings(Adjusted(ratings, expected, shares, ks))
  {
    var n := |ratings|;
    ghost var target := Adjusted(ratings, expected, shares, ks);
    var adjusted := new real[n](_ => 0.0);
    for i := 0 to n
      invariant forall j :: 0 <= j < i ==> adjusted[j] == target[j]
    {
      adjusted[i] := Adjust(ratings[i], expected[i], shares[i], ks[i], n);
    }
    for i := 0 to n
      invariant forall j :: 0 <= j < i ==> adjusted[j] == Max(100.0, target[j])
      invariant forall j :: i <= j < n ==> adjusted[j] == target[j]
    {
      if adjusted[i] < 100.0 {
        adjusted[i] := 100.0;
      }
    }
    var clamped := adjusted[..];
    v := seq(n, i requires 0 <= i < n => RoundHalfEven(clamped[i]) as real);
  }

  /** `rating_adjustment(ratings, scores, k, scale, min_rating)`; the floor of 100 is the literal
      the code compares against, whatever `min_rating` says. */
  method RatingAdjustment(ratings: seq<real>, scores: seq<real>, k: KFactor, c: Curve, minRating: real)
    returns (r: Result<Normalized>)
    requires ValidCurve(c)
    ensures |ratings| != |scores| ==> r == Err(ValueError)
    ensures |ratings| == |scores| == 0 ==> r == Err(ValueError)
    ensures |ratings| == |scores| > 0 && |Broadcast(k, |ratings|)| < |ratings| ==> r == Err(IndexError)
    ensures |ratings| == |scores| > 0 && |Broadcast(k, |ratings|)| >= |ratings| && AllEqual(scores) ==>
              r == Ok(NonFinite)
    ensures |ratings| == |scores| > 0 && |Broadcast(k, |ratings|)| >= |ratings| && !AllEqual(scores) ==>
              r == Ok(Values(NewRatings(Adjusted(ratings, ExpectedShares(c, ratings), FloorShares(scores),
                                                 Broadcast(k, |ratings|)))))
  {
    if |ratings| != |scores| {
      return Err(ValueError);
    }
    var ks := Broadcast(k, |ratings|);
    var expected := Expected2(ratings, c);
    var normalized := NormalizeFloor(scores);
    if normalized.Err? {
      return Err(normalized.error);
    }
    var n := |ratings|;
    if |ks| < n {
      return Err(IndexError);
    }
    if normalized.value == NonFinite {
      return Ok(NonFinite);
    }
    var adjusted := AdjustEach(ratings, expected, normalized.value.v, ks);
    r := Ok(Values(adjusted));
  }
}
