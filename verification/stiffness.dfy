/** Effective bending stiffness EI_eff of the gamma method (EN 1995-1-1,
    Annex B): each layer's own E·I plus its axial stiffness times the square
    of its offset from the composite neutral axis (parallel-axis theorem),
    the concrete's share scaled by γ. */
module Stiffness {

  import opened Reals
  import opened NeutralAxes

  /** E_t·I_t + E_c·I_c: the stiffness of the two layers acting without any connection. */
  function BareStiffness(eTimber: real, iTimber: real, eConcrete: real, iConcrete: real): real
  {
    eTimber * iTimber + eConcrete * iConcrete
  }

  /** EI_eff = E_t·I_t + E_t·A_t·a_t² + E_c·I_c + γ·E_c·A_c·a_c². Composite
      action never removes stiffness, and adds some as soon as either layer
      with a positive axial stiffness sits off the neutral axis. */
  function ComputeEffectiveBendingStiffness(eTimber: real, iTimber: real, areaTimber: real, aTimber: real,
                                            eConcrete: real, iConcrete: real, areaConcrete: real, aConcrete: real,
                                            gamma: real): (ei: real)
    ensures eTimber * areaTimber >= 0.0 && gamma * eConcrete * areaConcrete >= 0.0
            ==> ei >= BareStiffness(eTimber, iTimber, eConcrete, iConcrete)
    ensures eTimber * areaTimber > 0.0 && aTimber != 0.0 && gamma * eConcrete * areaConcrete >= 0.0
            ==> ei > BareStiffness(eTimber, iTimber, eConcrete, iConcrete)
    ensures eTimber * areaTimber >= 0.0 && gamma * eConcrete * areaConcrete > 0.0 && aConcrete != 0.0
            ==> ei > BareStiffness(eTimber, iTimber, eConcrete, iConcrete)
    ensures eTimber > 0.0 && iTimber > 0.0 && eConcrete > 0.0 && iConcrete > 0.0
            && eTimber * areaTimber >= 0.0 && gamma * eConcrete * areaConcrete >= 0.0
            ==> ei > 0.0
  {
    var partTimber := eTimber * iTimber + eTimber * areaTimber * Sq(aTimber);
    var partConcrete := eConcrete * iConcrete + gamma * eConcrete * areaConcrete * Sq(aConcrete);
    SteinerTermSign(eTimber * areaTimber, aTimber);
    SteinerTermSign(gamma * eConcrete * areaConcrete, aConcrete);
    MulPos(eTimber, iTimber);
    MulPos(eConcrete, iConcrete);
    partTimber + partConcrete
  }

  /** k·a² is nonnegative for k ≥ 0 and positive for k > 0, a ≠ 0. */
  lemma SteinerTermSign(k: real, a: real)
    ensures k >= 0.0 ==> k * Sq(a) >= 0.0
    ensures k > 0.0 && a != 0.0 ==> k * Sq(a) > 0.0
  {
    SqNonneg(a);
    if k >= 0.0 {
      MulNonneg(k, Sq(a));
    }
    if k > 0.0 && a != 0.0 {
      SqPos(a);
      MulPos(k, Sq(a));
    }
  }

  /** EI_eff with the offsets of the neutral axis that the same γ gives:
      the chain compute_neutral_axes → compute_effective_bending_stiffness. */
  function ChainedStiffness(eTimber: real, iTimber: real, areaTimber: real,
                            eConcrete: real, iConcrete: real, areaConcrete: real,
                            hTimber: real, hConcrete: real, gamma: real): real
    requires gamma * eConcrete * areaConcrete + eTimber * areaTimber != 0.0
  {
    var o := ComputeNeutralAxes(eTimber, areaTimber, eConcrete, areaConcrete, hTimber, hConcrete, gamma);
    ComputeEffectiveBendingStiffness(eTimber, iTimber, areaTimber, o.offsetTimber,
                                     eConcrete, iConcrete, areaConcrete, o.offsetConcrete, gamma)
  }

  /** The composite (Steiner) share of the chained EI_eff in closed form:
      with u = γ·E_c·A_c, w = E_t·A_t and d = h_t + h_c it is u·w·d² / (4·(u + w)),
      the series combination of the two axial stiffnesses times (d/2)². */
  lemma CompositeStiffnessClosedForm(eTimber: real, iTimber: real, areaTimber: real,
                                     eConcrete: real, iConcrete: real, areaConcrete: real,
                                     hTimber: real, hConcrete: real, gamma: real)
    requires gamma * eConcrete * areaConcrete + eTimber * areaTimber != 0.0
    ensures ChainedStiffness(eTimber, iTimber, areaTimber, eConcrete, iConcrete, areaConcrete, hTimber, hConcrete, gamma)
            == BareStiffness(eTimber, iTimber, eConcrete, iConcrete)
               + CompositeShare(gamma * eConcrete * areaConcrete, eTimber * areaTimber, hTimber + hConcrete)
  {
    var u := gamma * eConcrete * areaConcrete;
    var w := eTimber * areaTimber;
    var d := hTimber + hConcrete;
    var o := ComputeNeutralAxes(eTimber, areaTimber, eConcrete, areaConcrete, hTimber, hConcrete, gamma);
    NeutralAxisUnique(eTimber, areaTimber, eConcrete, areaConcrete, hTimber, hConcrete, gamma,
                      o.offsetTimber, o.offsetConcrete);
    SteinerShare(u, w, d, o.offsetTimber, o.offsetConcrete);
  }

  /** u·w·(d/2)² / (u + w). */
  function CompositeShare(u: real, w: real, d: real): real
    requires u + w != 0.0
  {
    u * w * Sq(d / 2.0) / (u + w)
  }

  /** If x + y = d/2, w·x = u·y and x = u·(d/2)/(u + w), then
      w·x² + u·y² = u·w·(d/2)²/(u + w). */
  lemma SteinerShare(u: real, w: real, d: real, x: real, y: real)
    requires u + w != 0.0
    requires x + y == d / 2.0
    requires w * x == u * y
    requires x == (u * d) / (2.0 * (u + w))
    ensures w * Sq(x) + u * Sq(y) == CompositeShare(u, w, d)
  {
    var h := d / 2.0;
    SteinerAsLever(u, w, h, x, y);
    assert x == u * h / (u + w);
    LeverClosedForm(u, w, h, x);
  }

  /** Balanced offsets x + y = h, w·x = u·y: w·x² + u·y² = (w·x)·h. */
  lemma SteinerAsLever(u: real, w: real, h: real, x: real, y: real)
    requires x + y == h
    requires w * x == u * y
    ensures w * Sq(x) + u * Sq(y) == (w * x) * h
  {
    assert w * Sq(x) == (w * x) * x;
    assert u * Sq(y) == (u * y) * y;
    assert (w * x) * x + (w * x) * y == (w * x) * (x + y);
  }

  /** With x = u·h/(u + w): (w·x)·h = u·w·h²/(u + w). */
  lemma LeverClosedForm(u: real, w: real, h: real, x: real)
    requires u + w != 0.0
    requires x == u * h / (u + w)
    ensures (w * x) * h == u * w * Sq(h) / (u + w)
  {
    DivMul(u * h, u + w);
    assert x * (u + w) == u * h;
    assert (w * x) * h * (u + w) == w * h * (x * (u + w));
    assert (w * x) * h * (u + w) == u * w * Sq(h);
  }

  /** A better connection always gives a stiffer composite beam: for
      0 ≤ γ1 < γ2 the chained EI_eff strictly grows. In particular every
      flexible connection (γ < 1) is softer than a rigid one (γ = 1). */
  lemma StiffnessIncreasesWithGamma(eTimber: real, iTimber: real, areaTimber: real,
                                    eConcrete: real, iConcrete: real, areaConcrete: real,
                                    hTimber: real, hConcrete: real, gamma1: real, gamma2: real)
    requires eTimber > 0.0 && areaTimber > 0.0 && eConcrete > 0.0 && areaConcrete > 0.0
    requires hTimber + hConcrete != 0.0
    requires 0.0 <= gamma1 < gamma2
    ensures gamma1 * eConcrete * areaConcrete + eTimber * areaTimber > 0.0
    ensures gamma2 * eConcrete * areaConcrete + eTimber * areaTimber > 0.0
    ensures ChainedStiffness(eTimber, iTimber, areaTimber, eConcrete, iConcrete, areaConcrete, hTimber, hConcrete, gamma1)
            < ChainedStiffness(eTimber, iTimber, areaTimber, eConcrete, iConcrete, areaConcrete, hTimber, hConcrete, gamma2)
  {
    var u1 := gamma1 * eConcrete * areaConcrete;
    var u2 := gamma2 * eConcrete * areaConcrete;
    var w := eTimber * areaTimber;
    MulPos(eTimber, areaTimber);
    MulNonneg(gamma1, eConcrete);
    MulNonneg(gamma1 * eConcrete, areaConcrete);
    MulLess2(gamma1, gamma2, eConcrete, areaConcrete);
    assert 0.0 <= u1 < u2 && w > 0.0;
    CompositeStiffnessClosedForm(eTimber, iTimber, areaTimber, eConcrete, iConcrete, areaConcrete, hTimber, hConcrete, gamma1);
    CompositeStiffnessClosedForm(eTimber, iTimber, areaTimber, eConcrete, iConcrete, areaConcrete, hTimber, hConcrete, gamma2);
    ShareIncreasing(u1, u2, w, hTimber + hConcrete);
  }

  /** Without a working connection (γ = 0) the layers act independently:
      the chained EI_eff is just E_t·I_t + E_c·I_c. */
  lemma NoConnectionNoCompositeAction(eTimber: real, iTimber: real, areaTimber: real,
                                      eConcrete: real, iConcrete: real, areaConcrete: real,
                                      hTimber: real, hConcrete: real)
    requires eTimber * areaTimber != 0.0
    ensures ChainedStiffness(eTimber, iTimber, areaTimber, eConcrete, iConcrete, areaConcrete, hTimber, hConcrete, 0.0)
            == BareStiffness(eTimber, iTimber, eConcrete, iConcrete)
  {
    CompositeStiffnessClosedForm(eTimber, iTimber, areaTimber, eConcrete, iConcrete, areaConcrete, hTimber, hConcrete, 0.0);
    assert 0.0 * eConcrete * areaConcrete == 0.0;
  }

  /** u·w·(d/2)²/(u + w) strictly grows with u ≥ 0 for w > 0, d ≠ 0. */
  lemma ShareIncreasing(u1: real, u2: real, w: real, d: real)
    requires 0.0 <= u1 < u2 && w > 0.0 && d != 0.0
    ensures CompositeShare(u1, w, d) < CompositeShare(u2, w, d)
  {
    var c := w * Sq(d / 2.0);
    SqPos(d / 2.0);
    MulPos(w, Sq(d / 2.0));
    assert CompositeShare(u1, w, d) == c * (u1 / (u1 + w));
    assert CompositeShare(u2, w, d) == c * (u2 / (u2 + w));
    FractionComplement(u1, w);
    FractionComplement(u2, w);
    DivAntitone(w, u1 + w, u2 + w);
    MulLess(u1 / (u1 + w), u2 / (u2 + w), c);
    assert c * (u1 / (u1 + w)) == u1 / (u1 + w) * c;
    assert c * (u2 / (u2 + w)) == u2 / (u2 + w) * c;
  }
}
