/**
 * `deriv` (pycse.py, lines 204-228), its 'two-point' and 'four-point'
 * branches: finite-difference derivatives of samples `y` taken at
 * abscissas `x`, written into a preallocated array of the size of `y`.
 */
module Deriv {
  import opened Results

  datatype DerivError =
    | TooFewPoints  // an end-point formula indexes past the data (IndexError)

  /** The slope of the chord through samples `a` and `b`. */
  function Chord(x: seq<real>, y: seq<real>, a: nat, b: nat): real
    requires a < |x| && b < |x| && a < |y| && b < |y| && x[a] != x[b]
  {
    (y[b] - y[a]) / (x[b] - x[a])
  }

  // ---------------------------------------------------------------- two-point

  /** Every chord the 'two-point' branch divides by has a non-zero width. */
  predicate TwoPointSpaced(x: seq<real>) {
    |x| >= 2 ==>
      x[1] != x[0] && x[|x| - 1] != x[|x| - 2] &&
      forall k :: 2 <= k < |x| ==> x[k] != x[k - 2]
  }

  /**
   * Entry `k` of the 'two-point' result: the centred difference inside
   * (line 211) and one-sided differences at the two ends (lines 214-215,
   * the later assignment winning when they coincide).
   */
  function TwoPointAt(x: seq<real>, y: seq<real>, k: nat): real
    requires |x| == |y| && 2 <= |y| && k < |y| && TwoPointSpaced(x)
  {
    var n := |y|;
    if k == n - 1 then Chord(x, y, n - 2, n - 1)
    else if k == 0 then Chord(x, y, 0, 1)
    else Chord(x, y, k - 1, k + 1)
  }

  /**
   * The 'two-point' branch (lines 210-216). Fewer than two samples make
   * `y[1]` at line 214 raise.
   */
  method TwoPoint(x: seq<real>, y: seq<real>) returns (r: Result<seq<real>, DerivError>)
    requires |x| == |y| && TwoPointSpaced(x)
    ensures r.Err? <==> |y| < 2
    ensures r.Ok? ==> |r.value| == |y| && forall k :: 0 <= k < |y| ==> r.value[k] == TwoPointAt(x, y, k)
  {
    var n := |y|;
    if n < 2 {
      return Err(TooFewPoints);
    }
    var dydx := new real[n](_ => 0.0);
    for k := 1 to n - 1
      invariant forall i :: 1 <= i < k ==> dydx[i] == Chord(x, y, i - 1, i + 1)
    {
      assert x[k + 1] != x[k - 1];
      dydx[k] := (y[k + 1] - y[k - 1]) / (x[k + 1] - x[k - 1]);
    }

    // one-sided differences at the two ends
    dydx[0] := (y[1] - y[0]) / (x[1] - x[0]);
    dydx[n - 1] := (y[n - 1] - y[n - 2]) / (x[n - 1] - x[n - 2]);
    return Ok(dydx[..]);
  }

  // --------------------------------------------------------------- four-point

  /** Every denominator of the 'four-point' branch is non-zero. */
  predicate FourPointSpaced(x: seq<real>) {
    |x| >= 3 ==>
      x[1] != x[0] && x[2] != x[1] && x[|x| - 2] != x[|x| - 3] && x[|x| - 1] != x[|x| - 2]
  }

  /** `x` and `y` have enough samples for every index of lines 220-227. */
  predicate FourPointSized(x: seq<real>, y: seq<real>) {
    |x| >= 3 && |y| >= 3
  }

  /** The one-sided difference of lines 224-227: samples `a` and `b` of `y`, abscissas `c` and `d` of `x`. */
  function Slope(x: seq<real>, y: seq<real>, a: nat, b: nat, c: nat, d: nat): real
    requires a < |y| && b < |y| && c < |x| && d < |x| && x[d] != x[c]
  {
    (y[b] - y[a]) / (x[d] - x[c])
  }

  /** The centred 4-point difference of line 221 with the spacing `h = x[1] - x[0]` of line 220. */
  function Centred(x: seq<real>, y: seq<real>, k: nat): real
    requires 2 <= |x| && 2 <= k && k + 2 < |y| && x[1] != x[0]
  {
    (y[k - 2] - 8.0 * y[k - 1] + 8.0 * y[k + 1] - y[k + 2]) / (12.0 * (x[1] - x[0]))
  }

  /**
   * Entry `k` of the 'four-point' result. Lines 224-227 overwrite indices
   * 0, 1, n-2 and n-1 in that order, so the later formula wins where two
   * of them name the same index; inside, the centred 4-point difference of
   * line 221 with the spacing `h = x[1] - x[0]` of line 220. Negative
   * indices count from the end of `x` and `y` separately.
   */
  function FourPointAt(x: seq<real>, y: seq<real>, k: nat): real
    requires FourPointSized(x, y) && FourPointSpaced(x) && k < |y|
  {
    var n, m := |y|, |x|;
    if k == n - 1 then Slope(x, y, n - 2, n - 1, m - 2, m - 1)
    else if k == n - 2 then Slope(x, y, n - 3, n - 2, m - 3, m - 2)
    else if k == 1 then Slope(x, y, 1, 2, 1, 2)
    else if k == 0 then Slope(x, y, 0, 1, 0, 1)
    else Centred(x, y, k)
  }

  /** Overwriting the four end entries of the centred differences gives the 'four-point' result. */
  lemma EndsOverwritten(x: seq<real>, y: seq<real>, inner: seq<real>)
    requires FourPointSized(x, y) && FourPointSpaced(x) && |inner| == |y|
    requires forall i :: 2 <= i < |y| - 2 ==> inner[i] == Centred(x, y, i)
    ensures var n, m := |y|, |x|;
      var r := inner[0 := Slope(x, y, 0, 1, 0, 1)][1 := Slope(x, y, 1, 2, 1, 2)]
                    [n - 2 := Slope(x, y, n - 3, n - 2, m - 3, m - 2)][n - 1 := Slope(x, y, n - 2, n - 1, m - 2, m - 1)];
      |r| == n && forall k :: 0 <= k < n ==> r[k] == FourPointAt(x, y, k)
  {
  }

  /**
   * The 'four-point' branch (lines 219-228). `x[1]` at line 220 raises on
   * fewer than two abscissas, `x[2]` and `y[2]` at line 225 on fewer
   * than three.
   */
  method FourPoint(x: seq<real>, y: seq<real>) returns (r: Result<seq<real>, DerivError>)
    requires FourPointSpaced(x)
    ensures r.Err? <==> !FourPointSized(x, y)
    ensures r.Ok? ==> |r.value| == |y| && forall k :: 0 <= k < |y| ==> r.value[k] == FourPointAt(x, y, k)
  {
    if !FourPointSized(x, y) {
      return Err(TooFewPoints);
    }
    var n, m := |y|, |x|;
    var dydx := new real[n](_ => 0.0);
    var h := x[1] - x[0];  // the spacing of the first two abscissas stands for all
    var k := 2;
    while k < n - 2
      invariant 2 <= k <= if n >= 4 then n - 2 else 2
      invariant forall i :: 2 <= i < k ==> dydx[i] == Centred(x, y, i)
    {
      dydx[k] := (y[k - 2] - 8.0 * y[k - 1] + 8.0 * y[k + 1] - y[k + 2]) / (12.0 * h);
      k := k + 1;
    }
    ghost var inner := dydx[..];

    // one-sided differences at indices 0, 1, n-2 and n-1, in that order
    dydx[0] := (y[1] - y[0]) / (x[1] - x[0]);
    dydx[1] := (y[2] - y[1]) / (x[2] - x[1]);
    dydx[n - 2] := (y[n - 2] - y[n - 3]) / (x[m - 2] - x[m - 3]);
    dydx[n - 1] := (y[n - 1] - y[n - 2]) / (x[m - 1] - x[m - 2]);
    EndsOverwritten(x, y, inner);
    assert dydx[..] == inner[0 := Slope(x, y, 0, 1, 0, 1)][1 := Slope(x, y, 1, 2, 1, 2)]
      [n - 2 := Slope(x, y, n - 3, n - 2, m - 3, m - 2)][n - 1 := Slope(x, y, n - 2, n - 1, m - 2, m - 1)];
    return Ok(dydx[..]);
  }

  // --------------------------------------------------------------- properties

  /** Samples of the straight line `a * x + b`. */
  predicate OnLine(x: seq<real>, y: seq<real>, a: real, b: real) {
    |x| == |y| && forall k :: 0 <= k < |y| ==> y[k] == a * x[k] + b
  }

  /** The abscissas are `x[0] + k * h`. */
  predicate EvenlySpaced(x: seq<real>, h: real) {
    h != 0.0 && forall k :: 0 <= k < |x| ==> x[k] == x[0] + (k as real) * h
  }

  lemma ChordOfLine(a: real, b: real, u: real, v: real)
    requires u != v
    ensures ((a * v + b) - (a * u + b)) / (v - u) == a
  {
    assert (a * v + b) - (a * u + b) == a * (v - u);
  }

  /** Every chord through two samples of a line has the line's slope. */
  lemma ChordOnLine(x: seq<real>, y: seq<real>, a: real, b: real, i: nat, j: nat)
    requires OnLine(x, y, a, b) && i < |x| && j < |x| && x[i] != x[j]
    ensures Chord(x, y, i, j) == a
  {
    var u, v := x[i], x[j];
    assert y[i] == a * u + b && y[j] == a * v + b;
    ChordOfLine(a, b, u, v);
  }

  /** Both one-sided and centred differences of samples of a line are its slope. */
  lemma TwoPointExactOnLines(x: seq<real>, y: seq<real>, a: real, b: real)
    requires OnLine(x, y, a, b) && |y| >= 2 && TwoPointSpaced(x)
    ensures forall k :: 0 <= k < |y| ==> TwoPointAt(x, y, k) == a
  {
    var n := |y|;
    forall k | 0 <= k < n
      ensures TwoPointAt(x, y, k) == a
    {
      if k == n - 1 {
        ChordOnLine(x, y, a, b, n - 2, n - 1);
      } else if k == 0 {
        ChordOnLine(x, y, a, b, 0, 1);
      } else {
        assert x[k + 1] != x[k - 1];
        ChordOnLine(x, y, a, b, k - 1, k + 1);
      }
    }
  }

  /** The 4-point stencil applied to a line sampled with spacing `h` gives its slope. */
  lemma StencilOfLine(a: real, b: real, u: real, h: real, c: real)
    requires h != 0.0
    ensures ((a * (u + (c - 2.0) * h) + b) - 8.0 * (a * (u + (c - 1.0) * h) + b)
             + 8.0 * (a * (u + (c + 1.0) * h) + b) - (a * (u + (c + 2.0) * h) + b)) / (12.0 * h) == a
  {
    assert (a * (u + (c - 2.0) * h) + b) - 8.0 * (a * (u + (c - 1.0) * h) + b)
           + 8.0 * (a * (u + (c + 1.0) * h) + b) - (a * (u + (c + 2.0) * h) + b) == a * (12.0 * h);
  }

  /** An interior 'four-point' entry of evenly spaced samples of a line is its slope. */
  lemma FourPointInteriorOfLine(x: seq<real>, y: seq<real>, a: real, b: real, h: real, k: nat)
    requires OnLine(x, y, a, b) && EvenlySpaced(x, h) && 2 <= k && k + 2 < |y|
    ensures x[1] != x[0] && Centred(x, y, k) == a
  {
    var c := k as real;
    assert x[1] - x[0] == h;
    assert y[k - 2] == a * (x[0] + (c - 2.0) * h) + b;
    assert y[k - 1] == a * (x[0] + (c - 1.0) * h) + b;
    assert y[k + 1] == a * (x[0] + (c + 1.0) * h) + b;
    assert y[k + 2] == a * (x[0] + (c + 2.0) * h) + b;
    StencilOfLine(a, b, x[0], h, c);
  }

  /** Consecutive abscissas of an evenly spaced grid differ. */
  lemma EvenlySpacedApart(x: seq<real>, h: real, i: nat)
    requires EvenlySpaced(x, h) && 0 < i < |x|
    ensures x[i] != x[i - 1]
  {
    assert x[i] - x[i - 1] == h;
  }

  /**
   * On evenly spaced samples of a line every 'four-point' entry, ends and
   * interior alike, is the line's slope.
   */
  lemma FourPointExactOnLines(x: seq<real>, y: seq<real>, a: real, b: real, h: real)
    requires OnLine(x, y, a, b) && EvenlySpaced(x, h) && |y| >= 3
    ensures FourPointSpaced(x)
    ensures forall k :: 0 <= k < |y| ==> FourPointAt(x, y, k) == a
  {
    var n := |y|;
    EvenlySpacedApart(x, h, 1);
    EvenlySpacedApart(x, h, 2);
    EvenlySpacedApart(x, h, n - 2);
    EvenlySpacedApart(x, h, n - 1);
    forall k | 0 <= k < n
      ensures FourPointAt(x, y, k) == a
    {
      if k == n - 1 {
        ChordOnLine(x, y, a, b, n - 2, n - 1);
      } else if k == n - 2 {
        ChordOnLine(x, y, a, b, n - 3, n - 2);
      } else if k == 1 {
        ChordOnLine(x, y, a, b, 1, 2);
      } else if k == 0 {
        ChordOnLine(x, y, a, b, 0, 1);
      } else {
        FourPointInteriorOfLine(x, y, a, b, h, k);
      }
    }
  }

  /**
   * With three samples, index 1 is also index n-2: the backward difference
   * written last replaces the forward one of line 225, so entry 1 repeats
   * entry 0.
   */
  lemma FourPointThreeSamples(x: seq<real>, y: seq<real>)
    requires |x| == |y| == 3 && FourPointSpaced(x)
    ensures FourPointAt(x, y, 1) == FourPointAt(x, y, 0) == Chord(x, y, 0, 1)
    ensures FourPointAt(x, y, 2) == Chord(x, y, 1, 2)
  {
  }

  /** The line-225 formula is lost: data on which entry 1 is not the forward difference at 1. */
  lemma FourPointThreeSamplesLosesForwardDifference()
    ensures FourPointAt([0.0, 1.0, 2.0], [0.0, 0.0, 1.0], 1) != Chord([0.0, 1.0, 2.0], [0.0, 0.0, 1.0], 1, 2)
  {
    assert FourPointAt([0.0, 1.0, 2.0], [0.0, 0.0, 1.0], 1) == 0.0;
  }

  /** On equal-length data both branches put the same one-sided differences at the two ends. */
  lemma EndsAgree(x: seq<real>, y: seq<real>)
    requires |x| == |y| >= 3 && TwoPointSpaced(x) && FourPointSpaced(x)
    ensures TwoPointAt(x, y, 0) == FourPointAt(x, y, 0)
    ensures TwoPointAt(x, y, |y| - 1) == FourPointAt(x, y, |y| - 1)
  {
  }
}
