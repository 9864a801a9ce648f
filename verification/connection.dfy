/** The connection efficiency factor γ of the gamma method (EN 1995-1-1,
    Annex B): how much of the concrete slab's axial stiffness the flexible
    shear connectors let the composite section use. */
module Connection {

  import opened Reals

  /** π, as numpy's double-precision constant writes it. Only π² > 0 is used. */
  const PI: real := 3.141592653589793

  /** The divisor k_ser·L² of the slip term is nonzero when both factors are. */
  lemma SlipDivisor(kSer: real, l: real)
    requires kSer != 0.0 && l != 0.0
    ensures kSer * Sq(l) != 0.0
    ensures kSer > 0.0 ==> kSer * Sq(l) > 0.0
  {
    SqPos(l);
    MulNonzero(kSer, Sq(l));
  }

  /** π²·E_c·A_c·s / (k_ser·L²), the slip term of the γ formula. It vanishes
      exactly when E_c·A_c·s does, and has the sign of E_c·A_c·s for a
      positive k_ser. */
  function SlipTerm(eConcrete: real, areaConcrete: real, s: real, kSer: real, l: real): (t: real)
    requires kSer != 0.0 && l != 0.0
    ensures t == 0.0 <==> eConcrete * areaConcrete * s == 0.0
    ensures eConcrete * areaConcrete * s >= 0.0 && kSer > 0.0 ==> t >= 0.0
    ensures eConcrete > 0.0 && areaConcrete > 0.0 && s > 0.0 && kSer > 0.0 ==> t > 0.0
  {
    SlipDivisor(kSer, l);
    SqPos(PI);
    QuotientSign(Sq(PI), eConcrete * areaConcrete * s, kSer * Sq(l));
    assert Sq(PI) * eConcrete * areaConcrete * s == Sq(PI) * (eConcrete * areaConcrete * s);
    MulPos(eConcrete, areaConcrete);
    MulPos(eConcrete * areaConcrete, s);
    (Sq(PI) * eConcrete * areaConcrete * s) / (kSer * Sq(l))
  }

  /** The slip term is a positive constant, fixed by the slab, the spacing
      and the span, divided by k_ser. */
  lemma SlipTermIsInverseInK(eConcrete: real, areaConcrete: real, s: real, kSer: real, l: real)
    requires kSer != 0.0 && l != 0.0
    ensures SlipTerm(eConcrete, areaConcrete, s, kSer, l) == SlipConstant(eConcrete, areaConcrete, s, l) / kSer
  {
    SqPos(l);
    DivByProduct(Sq(PI) * eConcrete * areaConcrete * s, kSer, Sq(l));
  }

  /** π²·E_c·A_c·s / L², the part of the slip term that does not depend on k_ser. */
  function SlipConstant(eConcrete: real, areaConcrete: real, s: real, l: real): (c: real)
    requires l != 0.0
    ensures eConcrete > 0.0 && areaConcrete > 0.0 && s > 0.0 ==> c > 0.0
  {
    SqPos(l);
    SqPos(PI);
    MulPos(Sq(PI), eConcrete);
    MulPos(Sq(PI) * eConcrete, areaConcrete);
    MulPos(Sq(PI) * eConcrete * areaConcrete, s);
    DivPos(Sq(PI) * eConcrete * areaConcrete * s, Sq(l));
    Sq(PI) * eConcrete * areaConcrete * s / Sq(l)
  }

  /** γ = 1 / (1 + π²·E_c·A_c·s / (k_ser·L²)).  The source divides without a
      check; here k_ser, L and 1 + slip term must be nonzero. */
  function ComputeGamma(eConcrete: real, areaConcrete: real, s: real, kSer: real, l: real): (gamma: real)
    requires kSer != 0.0 && l != 0.0
    requires SlipTerm(eConcrete, areaConcrete, s, kSer, l) != -1.0
    ensures gamma * (1.0 + SlipTerm(eConcrete, areaConcrete, s, kSer, l)) == 1.0
    ensures gamma == 1.0 <==> eConcrete * areaConcrete * s == 0.0
    ensures eConcrete * areaConcrete * s >= 0.0 && kSer > 0.0 ==> 0.0 < gamma <= 1.0
    ensures eConcrete > 0.0 && areaConcrete > 0.0 && s > 0.0 && kSer > 0.0 ==> 0.0 < gamma < 1.0
  {
    1.0 / (1.0 + SlipTerm(eConcrete, areaConcrete, s, kSer, l))
  }

  /** A stiffer connector always means more composite action. */
  lemma GammaIncreasesWithSlipModulus(eConcrete: real, areaConcrete: real, s: real, k1: real, k2: real, l: real)
    requires eConcrete > 0.0 && areaConcrete > 0.0 && s > 0.0 && l != 0.0
    requires 0.0 < k1 < k2
    ensures ComputeGamma(eConcrete, areaConcrete, s, k1, l) < ComputeGamma(eConcrete, areaConcrete, s, k2, l)
  {
    var c := SlipConstant(eConcrete, areaConcrete, s, l);
    SlipTermIsInverseInK(eConcrete, areaConcrete, s, k1, l);
    SlipTermIsInverseInK(eConcrete, areaConcrete, s, k2, l);
    DivAntitone(c, k1, k2);
    DivPos(c, k2);
    ReciprocalAntitone(c / k2, c / k1);
  }

  /** Rigid-connection limit: for any tolerance ε there is a slip modulus
      beyond which γ is within ε of 1. */
  lemma GammaTendsToOne(eConcrete: real, areaConcrete: real, s: real, l: real, eps: real) returns (kMin: real)
    requires eConcrete > 0.0 && areaConcrete > 0.0 && s > 0.0 && l != 0.0
    requires eps > 0.0
    ensures kMin > 0.0
    ensures forall k :: k >= kMin ==> 1.0 - eps < ComputeGamma(eConcrete, areaConcrete, s, k, l) < 1.0
  {
    var c := SlipConstant(eConcrete, areaConcrete, s, l);
    DivPos(c, eps);
    kMin := c / eps;
    forall k | k >= kMin
      ensures 1.0 - eps < ComputeGamma(eConcrete, areaConcrete, s, k, l) < 1.0
    {
      SlipTermIsInverseInK(eConcrete, areaConcrete, s, k, l);
      DivPos(c, k);
      SlipBelowTolerance(c, eps, k);
      var g := ComputeGamma(eConcrete, areaConcrete, s, k, l);
      GammaGap(g, c / k);
    }
  }

  /** c/k ≤ ε once k ≥ c/ε. */
  lemma SlipBelowTolerance(c: real, eps: real, k: real)
    requires c > 0.0 && eps > 0.0 && k >= c / eps
    ensures c / k <= eps
  {
    DivMul(c, eps);
    assert k * eps >= c;
    DivMul(c, k);
  }

  /** If g·(1 + t) = 1 with t > 0, then 1 − g < t. */
  lemma GammaGap(g: real, t: real)
    requires t > 0.0 && g * (1.0 + t) == 1.0
    ensures 0.0 < g < 1.0 && 1.0 - g < t
  {
    assert g == 1.0 / (1.0 + t);
    ReciprocalAntitone(0.0, t);
    DivPos(1.0, 1.0 + t);
    assert 1.0 - g == t / (1.0 + t);
    DivAntitone(t, 1.0, 1.0 + t);
  }

  /** No-connection limit: for any tolerance ε there is a slip modulus
      below which γ is within ε of 0. */
  lemma GammaTendsToZero(eConcrete: real, areaConcrete: real, s: real, l: real, eps: real) returns (kMax: real)
    requires eConcrete > 0.0 && areaConcrete > 0.0 && s > 0.0 && l != 0.0
    requires eps > 0.0
    ensures kMax > 0.0
    ensures forall k :: 0.0 < k <= kMax ==> 0.0 < ComputeGamma(eConcrete, areaConcrete, s, k, l) < eps
  {
    var c := SlipConstant(eConcrete, areaConcrete, s, l);
    MulPos(eps, c);
    kMax := eps * c;
    forall k | 0.0 < k <= kMax
      ensures 0.0 < ComputeGamma(eConcrete, areaConcrete, s, k, l) < eps
    {
      SlipTermIsInverseInK(eConcrete, areaConcrete, s, k, l);
      DivPos(c, k);
      var g := ComputeGamma(eConcrete, areaConcrete, s, k, l);
      GammaBelow(g, c, k, eps);
    }
  }

  /** If g·(1 + c/k) = 1 with c, k > 0 and k ≤ ε·c, then g < ε. */
  lemma GammaBelow(g: real, c: real, k: real, eps: real)
    requires c > 0.0 && k > 0.0 && eps > 0.0 && k <= eps * c
    requires g * (1.0 + c / k) == 1.0
    ensures g < eps
  {
    DivMul(c, k);
    assert g * k + g * c == k by {
      assert g * k * (1.0 + c / k) == k;
    }
    assert g > 0.0;
    assert g * c < k;
    assert g * c < eps * c;
  }
}
