/** Position of the composite neutral axis of the gamma method (EN 1995-1-1,
    Annex B): its distance a_timber from the timber centroid and a_concrete
    from the concrete centroid, both measured along the section depth. */
module NeutralAxes {

  import opened Reals

  /** The two centroid-to-neutral-axis distances (m). */
  datatype Offsets = Offsets(offsetTimber: real, offsetConcrete: real)

  /** a_timber = γ·E_c·A_c·(h_c + h_t) / (2·(γ·E_c·A_c + E_t·A_t)), and
      a_concrete closes the gap h_t/2 + h_c/2 between the centroids. The
      only demand is the nonzero divisor. The two offsets are the unique
      split of the centroid distance at which the γ-weighted axial
      stiffnesses balance: E_t·A_t·a_t = γ·E_c·A_c·a_c. */
  function ComputeNeutralAxes(eTimber: real, areaTimber: real, eConcrete: real, areaConcrete: real,
                              hTimber: real, hConcrete: real, gamma: real): (r: Offsets)
    requires gamma * eConcrete * areaConcrete + eTimber * areaTimber != 0.0
    ensures r.offsetTimber + r.offsetConcrete == (hTimber + hConcrete) / 2.0
    ensures eTimber * areaTimber * r.offsetTimber == gamma * eConcrete * areaConcrete * r.offsetConcrete
    ensures gamma > 0.0 && eTimber > 0.0 && areaTimber > 0.0 && eConcrete > 0.0 && areaConcrete > 0.0
            && hTimber > 0.0 && hConcrete > 0.0
            ==> 0.0 < r.offsetTimber < (hTimber + hConcrete) / 2.0 && r.offsetConcrete > 0.0
  {
    var numerator := gamma * eConcrete * areaConcrete * (hConcrete + hTimber);
    var denominator := 2.0 * ((gamma * eConcrete * areaConcrete) + (eTimber * areaTimber));
    var aTimber := numerator / denominator;
    var aConcrete := (hTimber / 2.0) - aTimber + (hConcrete / 2.0);
    StiffnessBalance(gamma * eConcrete * areaConcrete, eTimber * areaTimber, hConcrete + hTimber);
    MulPos(gamma, eConcrete);
    MulPos(gamma * eConcrete, areaConcrete);
    MulPos(eTimber, areaTimber);
    OffsetBetweenCentroids(gamma * eConcrete * areaConcrete, eTimber * areaTimber, hConcrete + hTimber);
    Offsets(aTimber, aConcrete)
  }

  /** With u = γ·E_c·A_c, w = E_t·A_t and d = h_c + h_t, the offset
      a = u·d / (2·(u + w)) and its complement d/2 − a balance: w·a = u·(d/2 − a). */
  lemma StiffnessBalance(u: real, w: real, d: real)
    requires u + w != 0.0
    ensures w * ((u * d) / (2.0 * (u + w))) == u * (d / 2.0 - (u * d) / (2.0 * (u + w)))
  {
    var a := (u * d) / (2.0 * (u + w));
    DivMul(u * d, 2.0 * (u + w));
    assert a * (2.0 * (u + w)) == u * d;
    assert (u + w) * a == u * d / 2.0;
    assert w * a + u * a == u * d / 2.0;
    assert u * (d / 2.0 - a) == u * d / 2.0 - u * a;
  }

  /** For positive u, w, d the offset u·d / (2·(u + w)) lies strictly inside (0, d/2). */
  lemma OffsetBetweenCentroids(u: real, w: real, d: real)
    ensures u > 0.0 && w > 0.0 && d > 0.0 ==> 0.0 < (u * d) / (2.0 * (u + w)) < d / 2.0
  {
    if u > 0.0 && w > 0.0 && d > 0.0 {
      MulPos(u, d);
      DivPos(u * d, 2.0 * (u + w));
      DivAntitone(u * d, 2.0 * u, 2.0 * (u + w));
      assert (u * d) / (2.0 * u) == d / 2.0;
    }
  }

  /** The balance and the centroid distance determine the offsets: any split
      (x, y) of the distance between the centroids with E_t·A_t·x = γ·E_c·A_c·y
      is the one the source computes. */
  lemma NeutralAxisUnique(eTimber: real, areaTimber: real, eConcrete: real, areaConcrete: real,
                          hTimber: real, hConcrete: real, gamma: real, x: real, y: real)
    requires gamma * eConcrete * areaConcrete + eTimber * areaTimber != 0.0
    requires x + y == (hTimber + hConcrete) / 2.0
    requires eTimber * areaTimber * x == gamma * eConcrete * areaConcrete * y
    ensures ComputeNeutralAxes(eTimber, areaTimber, eConcrete, areaConcrete, hTimber, hConcrete, gamma)
            == Offsets(x, y)
  {
    var u := gamma * eConcrete * areaConcrete;
    var w := eTimber * areaTimber;
    var d := hConcrete + hTimber;
    BalanceSolution(u, w, d, x);
  }

  /** w·x = u·(d/2 − x) has the single solution x = u·d / (2·(u + w)). */
  lemma BalanceSolution(u: real, w: real, d: real, x: real)
    requires u + w != 0.0
    requires w * x == u * (d / 2.0 - x)
    ensures x == (u * d) / (2.0 * (u + w))
  {
    assert u * (d / 2.0 - x) == u * d / 2.0 - u * x;
    assert (u + w) * x == u * d / 2.0;
    assert x * (2.0 * (u + w)) == u * d;
  }
}
