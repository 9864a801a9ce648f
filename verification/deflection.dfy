/** Sampled deflection curve of a simply supported span under a mid-span
    point load: the left half is evaluated from a closed form, the right
    half is its mirror image. Downward deflection is negative. */
module Deflection {

  import opened Reals

  /** numpy's linspace(start, stop, n) with the endpoint included: n evenly
      spaced samples from start to stop (just [start] for n = 1, empty for n = 0). */
  function Linspace(start: real, stop: real, n: nat): (xs: seq<real>)
    ensures |xs| == n
    ensures n >= 1 ==> xs[0] == start
    ensures n >= 2 ==> xs[n - 1] == stop
  {
    if n == 1 then
      [start]
    else
      LastSample(start, stop, n);
      seq(n, i requires 0 <= i < n => Sample(start, stop, n, i))
  }

  /** The i-th of n ≥ 2 samples: start + i·(stop − start)/(n − 1). */
  function Sample(start: real, stop: real, n: nat, i: nat): real
    requires n >= 2
  {
    start + (i as real) * ((stop - start) / ((n - 1) as real))
  }

  /** The last sample hits stop exactly. */
  lemma LastSample(start: real, stop: real, n: nat)
    ensures n >= 2 ==> Sample(start, stop, n, n - 1) == stop
  {
    if n >= 2 {
      DivMul(stop - start, (n - 1) as real);
    }
  }

  /** Consecutive samples are one step (stop − start)/(n − 1) apart. */
  lemma LinspaceEvenlySpaced(start: real, stop: real, n: nat, i: nat)
    requires n >= 2 && 1 <= i < n
    ensures Linspace(start, stop, n)[i] == Linspace(start, stop, n)[i - 1] + (stop - start) / ((n - 1) as real)
  {
    var step := (stop - start) / ((n - 1) as real);
    assert (i as real) * step == ((i - 1) as real) * step + step;
  }

  /** For start ≤ stop every sample lies in [start, stop]. */
  lemma LinspaceWithin(start: real, stop: real, n: nat, i: nat)
    requires start <= stop && i < n
    ensures start <= Linspace(start, stop, n)[i] <= stop
  {
    if n >= 2 {
      FractionOfSpan(i as real, (n - 1) as real, stop - start);
      assert Linspace(start, stop, n)[i] == Sample(start, stop, n, i);
    }
  }

  /** 0 ≤ i·(d/m) ≤ d for 0 ≤ i ≤ m, m > 0, d ≥ 0. */
  lemma FractionOfSpan(i: real, m: real, d: real)
    requires 0.0 <= i <= m && m > 0.0 && d >= 0.0
    ensures 0.0 <= i * (d / m) <= d
  {
    DivNonneg(d, m);
    MulNonneg(i, d / m);
    MulLessEq(i, m, d / m);
    DivMul(d, m);
    assert m * (d / m) == d;
  }

  /** δ(x) = (P·x³/12 − P·L²·x/16) / EI_eff, the closed form the source
      evaluates on the left half 0 ≤ x ≤ L/2. There it is the textbook
      deflection line. */
  function DeflectionAt(p: real, l: real, ei: real, x: real): (d: real)
    requires ei != 0.0
    ensures x <= l / 2.0 ==> d == ClassicalDeflection(p, l, ei, x)
  {
    CubicIsClassical(p, l, ei, x);
    (p * Cube(x) / 12.0 - p * Sq(l) * x / 16.0) / ei
  }

  /** (P·x³/12 − P·L²·x/16) / EI = −P·x·(3L² − 4x²)/(48·EI) for every x. */
  lemma CubicIsClassical(p: real, l: real, ei: real, x: real)
    requires ei != 0.0
    ensures (p * Cube(x) / 12.0 - p * Sq(l) * x / 16.0) / ei
            == -(p * x * (3.0 * Sq(l) - 4.0 * Sq(x))) / (48.0 * ei)
  {
    var num := p * Cube(x) / 12.0 - p * Sq(l) * x / 16.0;
    assert num == -(p * x * (3.0 * Sq(l) - 4.0 * Sq(x))) / 48.0;
    DivByProduct(-(p * x * (3.0 * Sq(l) - 4.0 * Sq(x))), 48.0, ei);
  }

  /** compute_deflection's default number of samples per half. */
  const DefaultNumPoints: nat := 50

  /** The textbook deflection of a simply supported span under a central
      point load, anywhere on the span: −P·x'·(3L² − 4x'²)/(48·EI) with x'
      the distance to the nearer support. */
  function ClassicalDeflection(p: real, l: real, ei: real, x: real): real
    requires ei != 0.0
  {
    var x' := if x <= l / 2.0 then x else l - x;
    -(p * x' * (3.0 * Sq(l) - 4.0 * Sq(x'))) / (48.0 * ei)
  }

  /** Both halves of the sampled curve. */
  datatype DeflectionCurve = DeflectionCurve(
    xLeft: seq<real>, deltaLeft: seq<real>, xRight: seq<real>, deltaRight: seq<real>)

  /** compute_deflection: num_points samples on [0, L/2] from the closed
      form, and the same values reversed for the samples on [L/2, L]. */
  function ComputeDeflection(ei: real, p: real, l: real, numPoints: nat): (c: DeflectionCurve)
    requires ei != 0.0
    ensures |c.xLeft| == |c.deltaLeft| == |c.xRight| == |c.deltaRight| == numPoints
    ensures forall i :: 0 <= i < numPoints ==> c.deltaLeft[i] == DeflectionAt(p, l, ei, c.xLeft[i])
    ensures forall i :: 0 <= i < numPoints ==> c.deltaRight[i] == c.deltaLeft[numPoints - 1 - i]
    ensures numPoints >= 1 ==> c.xLeft[0] == 0.0 && c.deltaLeft[0] == 0.0
    ensures numPoints >= 2 ==> c.xLeft[numPoints - 1] == l / 2.0
                               && c.deltaLeft[numPoints - 1] == -(p * Cube(l)) / (48.0 * ei)
  {
    var xLeft := Linspace(0.0, l / 2.0, numPoints);
    var deltaLeft := seq(numPoints, i requires 0 <= i < numPoints => DeflectionAt(p, l, ei, xLeft[i]));
    var xRight := Linspace(l / 2.0, l, numPoints);
    var deltaRight := Reverse(deltaLeft);
    MidSpanDeflection(p, l, ei);
    DeflectionCurve(xLeft, deltaLeft, xRight, deltaRight)
  }

  /** numpy's a[::-1], built by moving the head behind the reversed tail: the
      i-th element from the front is the i-th from the back. */
  function Reverse<T>(s: seq<T>): (r: seq<T>)
    ensures |r| == |s|
    ensures forall i :: 0 <= i < |s| ==> r[i] == s[|s| - 1 - i]
  {
    if |s| == 0 then [] else Reverse(s[1..]) + [s[0]]
  }

  /** Reversing twice gives the sequence back. */
  lemma ReverseInvolution<T>(s: seq<T>)
    ensures Reverse(Reverse(s)) == s
  {
    assert forall i :: 0 <= i < |s| ==> Reverse(Reverse(s))[i] == s[i];
  }

  /** Reversing keeps every element with its multiplicity. */
  lemma {:induction false} ReversePermutes<T>(s: seq<T>)
    ensures multiset(Reverse(s)) == multiset(s)
  {
    if |s| > 0 {
      ReversePermutes(s[1..]);
      assert s == [s[0]] + s[1..];
    }
  }

  /** δ(L/2) = −P·L³/(48·EI), the classical mid-span deflection. */
  lemma MidSpanDeflection(p: real, l: real, ei: real)
    requires ei != 0.0
    ensures DeflectionAt(p, l, ei, l / 2.0) == -(p * Cube(l)) / (48.0 * ei)
  {
    assert Cube(l / 2.0) == Cube(l) / 8.0;
    assert Sq(l) * (l / 2.0) == Cube(l) / 2.0;
    assert p * Cube(l / 2.0) / 12.0 - p * Sq(l) * (l / 2.0) / 16.0 == -(p * Cube(l)) / 48.0;
  }

  /** x·(3L² − 4x²) = L³ − (L − 2x)²·(L + x). */
  lemma ShapeFactor(l: real, x: real)
    ensures x * (3.0 * Sq(l) - 4.0 * Sq(x)) == Cube(l) - Sq(l - 2.0 * x) * (l + x)
  {
  }

  /** 0 ≤ x·(3L² − 4x²) ≤ L³ on 0 ≤ x ≤ L/2, with the upper end reached at x = L/2. */
  lemma ShapeBounds(l: real, x: real)
    requires 0.0 <= x <= l / 2.0
    ensures 0.0 <= x * (3.0 * Sq(l) - 4.0 * Sq(x)) <= Cube(l)
  {
    MulLessEq(2.0 * x, l, 2.0 * x);
    MulLessEq(2.0 * x, l, l);
    assert 4.0 * Sq(x) <= Sq(l);
    MulNonneg(x, 3.0 * Sq(l) - 4.0 * Sq(x));
    ShapeFactor(l, x);
    SqNonneg(l - 2.0 * x);
    MulNonneg(Sq(l - 2.0 * x), l + x);
  }

  /** For a downward load and a positive stiffness the beam deflects down
      everywhere on the span, and nowhere more than at mid-span, where the
      deflection is −P·L³/(48·EI). */
  lemma MidSpanIsLargestDeflection(p: real, l: real, ei: real, x: real)
    requires p >= 0.0 && ei > 0.0 && 0.0 <= x <= l
    ensures -(p * Cube(l)) / (48.0 * ei) <= ClassicalDeflection(p, l, ei, x) <= 0.0
    ensures ClassicalDeflection(p, l, ei, l / 2.0) == -(p * Cube(l)) / (48.0 * ei)
  {
    var x' := if x <= l / 2.0 then x else l - x;
    var f := x' * (3.0 * Sq(l) - 4.0 * Sq(x'));
    ShapeBounds(l, x');
    MulPos(48.0, ei);
    LoadedShapeBounds(p, f, Cube(l), 48.0 * ei);
    assert ClassicalDeflection(p, l, ei, x) == -(p * f) / (48.0 * ei);
    MidSpanDeflection(p, l, ei);
  }

  /** −(p·c)/d ≤ −(p·f)/d ≤ 0 for 0 ≤ f ≤ c, p ≥ 0, d > 0. */
  lemma LoadedShapeBounds(p: real, f: real, c: real, d: real)
    requires 0.0 <= f <= c && p >= 0.0 && d > 0.0
    ensures -(p * c) / d <= -(p * f) / d <= 0.0
  {
    MulNonneg(p, f);
    MulLessEq(f, c, p);
    assert p * f <= p * c;
    DivMonotone(p * f, p * c, d);
    DivNonneg(p * f, d);
    assert -(p * f) / d == -(p * f / d);
    assert -(p * c) / d == -(p * c / d);
  }

  /** Every sample of both halves lies on the textbook deflection line of
      the whole span: the left half by the closed form, the right half
      because x_right[i] and x_left[n−1−i] are mirror images about L/2. */
  lemma CurveFollowsClassical(ei: real, p: real, l: real, numPoints: nat, i: nat)
    requires ei != 0.0 && numPoints >= 2 && l >= 0.0 && i < numPoints
    ensures ComputeDeflection(ei, p, l, numPoints).deltaLeft[i]
            == ClassicalDeflection(p, l, ei, ComputeDeflection(ei, p, l, numPoints).xLeft[i])
    ensures ComputeDeflection(ei, p, l, numPoints).deltaRight[i]
            == ClassicalDeflection(p, l, ei, ComputeDeflection(ei, p, l, numPoints).xRight[i])
  {
    var c := ComputeDeflection(ei, p, l, numPoints);
    var j := numPoints - 1 - i;
    LeftSampleOnLine(ei, p, l, numPoints, i);
    LeftSampleOnLine(ei, p, l, numPoints, j);
    LinspaceWithin(0.0, l / 2.0, numPoints, j);
    MirrorSamples(l, numPoints, i);
    assert c.xRight[i] == l - c.xLeft[j];
    ClassicalSymmetric(p, l, ei, c.xLeft[j]);
  }

  /** A left sample lies on the textbook line. */
  lemma LeftSampleOnLine(ei: real, p: real, l: real, numPoints: nat, i: nat)
    requires ei != 0.0 && l >= 0.0 && i < numPoints
    ensures ComputeDeflection(ei, p, l, numPoints).deltaLeft[i]
            == ClassicalDeflection(p, l, ei, ComputeDeflection(ei, p, l, numPoints).xLeft[i])
  {
    var c := ComputeDeflection(ei, p, l, numPoints);
    LinspaceWithin(0.0, l / 2.0, numPoints, i);
  }

  /** The textbook deflection line is symmetric about mid-span: δ(x) = δ(L − x). */
  lemma ClassicalSymmetric(p: real, l: real, ei: real, x: real)
    requires ei != 0.0
    ensures ClassicalDeflection(p, l, ei, x) == ClassicalDeflection(p, l, ei, l - x)
  {
  }

  /** x_right[i] + x_left[n−1−i] = L. */
  lemma MirrorSamples(l: real, n: nat, i: nat)
    requires n >= 2 && i < n
    ensures Linspace(l / 2.0, l, n)[i] + Linspace(0.0, l / 2.0, n)[n - 1 - i] == l
  {
    var m := (n - 1) as real;
    var step := (l / 2.0) / m;
    assert l - l / 2.0 == l / 2.0;
    assert Linspace(l / 2.0, l, n)[i] == l / 2.0 + (i as real) * step;
    assert Linspace(0.0, l / 2.0, n)[n - 1 - i] == ((n - 1 - i) as real) * step;
    assert (i as real) * step + ((n - 1 - i) as real) * step == m * step;
    DivMul(l / 2.0, m);
  }

  /** The sampled curve, both halves, lies between the mid-span deflection
      −P·L³/(48·EI) and zero for a downward load and a positive stiffness. */
  lemma CurveBounded(ei: real, p: real, l: real, numPoints: nat, i: nat)
    requires ei > 0.0 && p >= 0.0 && l >= 0.0 && i < numPoints
    ensures -(p * Cube(l)) / (48.0 * ei) <= ComputeDeflection(ei, p, l, numPoints).deltaLeft[i] <= 0.0
    ensures -(p * Cube(l)) / (48.0 * ei) <= ComputeDeflection(ei, p, l, numPoints).deltaRight[i] <= 0.0
  {
    var c := ComputeDeflection(ei, p, l, numPoints);
    if numPoints == 1 {
      assert c.deltaRight[0] == c.deltaLeft[0] == 0.0;
      MidSpanIsLargestDeflection(p, l, ei, 0.0);
    } else {
      CurveFollowsClassical(ei, p, l, numPoints, i);
      LinspaceWithin(0.0, l / 2.0, numPoints, i);
      LinspaceWithin(l / 2.0, l, numPoints, i);
      MidSpanIsLargestDeflection(p, l, ei, c.xLeft[i]);
      MidSpanIsLargestDeflection(p, l, ei, c.xRight[i]);
    }
  }

  /** The mirror needs two samples: with numPoints = 1 the right half is the
      single position x = L/2 paired with the left half's only value, the
      support deflection 0, so for a loaded span that sample is off the
      deflection line. CurveFollowsClassical therefore asks for numPoints ≥ 2. */
  lemma SingleSampleMirrorIsOffTheLine(ei: real, p: real, l: real)
    requires ei > 0.0 && p > 0.0 && l > 0.0
    ensures ComputeDeflection(ei, p, l, 1).xRight == [l / 2.0]
    ensures ComputeDeflection(ei, p, l, 1).deltaRight == [0.0]
    ensures ClassicalDeflection(p, l, ei, l / 2.0) < 0.0
  {
    MidSpanIsLargestDeflection(p, l, ei, l / 2.0);
    var c := ComputeDeflection(ei, p, l, 1);
    assert c.deltaRight[0] == c.deltaLeft[0];
    SqPos(l);
    MulPos(Sq(l), l);
    MulPos(p, Cube(l));
    MulPos(48.0, ei);
    DivPos(p * Cube(l), 48.0 * ei);
  }
}
