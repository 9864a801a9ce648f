/** Stresses and internal forces of the gamma method (EN 1995-1-1, Annex B):
    every bending quantity is a modulus times a lever arm times the common
    curvature M_mid / EI_eff, the shear quantities scale with V_max. */
module Stresses {

  import opened Reals
  import opened NeutralAxes

  /** The source's result dictionary, one field per key. */
  datatype StressResults = StressResults(
    sigmaTimber: real,         // axial stress at the timber centroid (Pa)
    sigmaMTimber: real,        // bending stress at the timber edge (Pa)
    utilisationTimber: real,   // σ_m/f_m + σ_t/f_t
    sigmaConcrete: real,       // axial stress at the concrete centroid (Pa)
    sigmaMConcrete: real,      // bending stress at the concrete edge (Pa)
    nConcrete: real,           // normal force in the slab (N)
    mConcrete: real,           // bending moment carried by the slab alone (N·m)
    tauTimberMax: real,        // timber shear stress (Pa)
    fConnector: real,          // force in one connector (N)
    hEcTau: real)              // depth used for the shear stress (m)

  /** compute_stresses_and_forces. The source divides by EI_eff, f_m and f_t
      without a check; here those three must be nonzero. */
  function ComputeStressesAndForces(eTimber: real, areaTimber: real, hTimber: real, fmTimber: real, ftTimber: real,
                                    eConcrete: real, areaConcrete: real, hConcrete: real,
                                    iConcrete: real, mMid: real, vMax: real,
                                    aTimber: real, aConcrete: real, s: real, ei: real, gamma: real): (r: StressResults)
    requires ei != 0.0 && fmTimber != 0.0 && ftTimber != 0.0
    // the slab's normal force is its centroid stress over its area
    ensures r.nConcrete == r.sigmaConcrete * areaConcrete
    // the shear depth runs from the neutral axis to the bottom of the timber
    ensures r.hEcTau == aTimber + hTimber / 2.0
    // combined bending and tension check of the timber
    ensures r.utilisationTimber == Utilisation(r.sigmaMTimber, r.sigmaTimber, fmTimber, ftTimber)
    // no moment, no bending effects
    ensures mMid == 0.0 ==> r.sigmaTimber == 0.0 && r.sigmaMTimber == 0.0 && r.utilisationTimber == 0.0
                            && r.sigmaConcrete == 0.0 && r.sigmaMConcrete == 0.0
                            && r.nConcrete == 0.0 && r.mConcrete == 0.0
    // no shear, no shear effects
    ensures vMax == 0.0 ==> r.tauTimberMax == 0.0 && r.fConnector == 0.0
  {
    var sigmaTimber := (eTimber * aTimber * mMid) / ei;
    var sigmaMTimber := (0.5 * eTimber * hTimber * mMid) / ei;
    var utilisationTimber := Utilisation(sigmaMTimber, sigmaTimber, fmTimber, ftTimber);
    var sigmaConcrete := (gamma * eConcrete * aConcrete * mMid) / ei;
    var sigmaMConcrete := (0.5 * eConcrete * hConcrete * mMid) / ei;
    var nConcrete := sigmaConcrete * areaConcrete;
    var mConcrete := (eConcrete * iConcrete * mMid) / ei;
    var hEcTau := aTimber + 0.5 * hTimber;
    var tauTimberMax := (0.5 * eTimber * Sq(hEcTau) * vMax) / ei;
    var fConnector := (gamma * eConcrete * areaConcrete * aConcrete * s / ei) * vMax;
    StressResults(sigmaTimber, sigmaMTimber, utilisationTimber, sigmaConcrete, sigmaMConcrete,
                  nConcrete, mConcrete, tauTimberMax, fConnector, hEcTau)
  }

  /** The results hang together as the beam theory behind them demands:
      Navier's formula for the slab on its own, one curvature M/EI_eff for
      both layers, the connector force as the slab's shear flow over one
      spacing, and edge stresses in the sign of a sagging moment. */
  lemma StressRelations(eTimber: real, areaTimber: real, hTimber: real, fmTimber: real, ftTimber: real,
                    eConcrete: real, areaConcrete: real, hConcrete: real,
                    iConcrete: real, mMid: real, vMax: real,
                    aTimber: real, aConcrete: real, s: real, ei: real, gamma: real)
    requires ei != 0.0 && fmTimber != 0.0 && ftTimber != 0.0
    ensures var r := ComputeStressesAndForces(eTimber, areaTimber, hTimber, fmTimber, ftTimber, eConcrete, areaConcrete,
                                              hConcrete, iConcrete, mMid, vMax, aTimber, aConcrete, s, ei, gamma);
            // Navier for the slab on its own: σ_m,c·I_c = M_c·h_c/2
            && r.sigmaMConcrete * iConcrete == r.mConcrete * (hConcrete / 2.0)
            // σ_m,t/(E_t·h_t) = σ_m,c/(E_c·h_c)
            && r.sigmaMTimber * (eConcrete * hConcrete) == r.sigmaMConcrete * (eTimber * hTimber)
            // F = (N_c·V/M)·s
            && r.fConnector * mMid == r.nConcrete * s * vMax
            && (ei > 0.0 && mMid > 0.0 && eTimber > 0.0 && hTimber > 0.0 ==> r.sigmaMTimber > 0.0)
            && (ei > 0.0 && mMid > 0.0 && eConcrete > 0.0 && hConcrete > 0.0 ==> r.sigmaMConcrete > 0.0)
  {
    NavierForSlab(eConcrete, hConcrete, iConcrete, mMid, ei);
    EqualCurvature(eTimber, hTimber, eConcrete, hConcrete, mMid, ei);
    ShearFlow(gamma, eConcrete, areaConcrete, aConcrete, s, mMid, vMax, ei);
    EdgeStressSign(eTimber, hTimber, mMid, ei);
    EdgeStressSign(eConcrete, hConcrete, mMid, ei);
  }

  /** (0.5·E·h·M/EI)·I = (E·I·M/EI)·(h/2). */
  lemma NavierForSlab(e: real, h: real, i: real, m: real, ei: real)
    requires ei != 0.0
    ensures ((0.5 * e * h * m) / ei) * i == ((e * i * m) / ei) * (h / 2.0)
  {
    var k := m / ei;
    assert (0.5 * e * h * m) / ei == 0.5 * e * h * k;
    assert (e * i * m) / ei == e * i * k;
  }

  /** (0.5·E_t·h_t·M/EI)·(E_c·h_c) = (0.5·E_c·h_c·M/EI)·(E_t·h_t). */
  lemma EqualCurvature(eTimber: real, hTimber: real, eConcrete: real, hConcrete: real, m: real, ei: real)
    requires ei != 0.0
    ensures ((0.5 * eTimber * hTimber * m) / ei) * (eConcrete * hConcrete)
            == ((0.5 * eConcrete * hConcrete * m) / ei) * (eTimber * hTimber)
  {
    var k := m / ei;
    assert (0.5 * eTimber * hTimber * m) / ei == 0.5 * eTimber * hTimber * k;
    assert (0.5 * eConcrete * hConcrete * m) / ei == 0.5 * eConcrete * hConcrete * k;
  }

  /** (γ·E_c·A_c·a_c·s/EI)·V·M = ((γ·E_c·a_c·M/EI)·A_c)·s·V. */
  lemma ShearFlow(gamma: real, eConcrete: real, areaConcrete: real, aConcrete: real,
                  s: real, m: real, v: real, ei: real)
    requires ei != 0.0
    ensures (gamma * eConcrete * areaConcrete * aConcrete * s / ei) * v * m
            == ((gamma * eConcrete * aConcrete * m) / ei * areaConcrete) * s * v
  {
    DivAsMul(gamma * eConcrete * areaConcrete * aConcrete * s, ei);
    DivAsMul(gamma * eConcrete * aConcrete * m, ei);
  }

  /** 0.5·E·h·M/EI > 0 for positive E, h, M and EI. */
  lemma EdgeStressSign(e: real, h: real, m: real, ei: real)
    requires ei != 0.0
    ensures ei > 0.0 && m > 0.0 && e > 0.0 && h > 0.0 ==> (0.5 * e * h * m) / ei > 0.0
  {
    if ei > 0.0 && m > 0.0 && e > 0.0 && h > 0.0 {
      MulPos(0.5 * e, h);
      MulPos(0.5 * e * h, m);
      DivPos(0.5 * e * h * m, ei);
    }
  }

  /** All bending results are linear in the moment: scaling M_mid by k scales
      each of them by k and leaves the shear results as they were. */
  lemma StressesLinearInMoment(eTimber: real, areaTimber: real, hTimber: real, fmTimber: real, ftTimber: real,
                               eConcrete: real, areaConcrete: real, hConcrete: real,
                               iConcrete: real, mMid: real, vMax: real,
                               aTimber: real, aConcrete: real, s: real, ei: real, gamma: real, k: real)
    requires ei != 0.0 && fmTimber != 0.0 && ftTimber != 0.0
    ensures var r := ComputeStressesAndForces(eTimber, areaTimber, hTimber, fmTimber, ftTimber, eConcrete, areaConcrete,
                                              hConcrete, iConcrete, mMid, vMax, aTimber, aConcrete, s, ei, gamma);
            var rk := ComputeStressesAndForces(eTimber, areaTimber, hTimber, fmTimber, ftTimber, eConcrete, areaConcrete,
                                               hConcrete, iConcrete, k * mMid, vMax, aTimber, aConcrete, s, ei, gamma);
            && rk.sigmaTimber == k * r.sigmaTimber
            && rk.sigmaMTimber == k * r.sigmaMTimber
            && rk.utilisationTimber == k * r.utilisationTimber
            && rk.sigmaConcrete == k * r.sigmaConcrete
            && rk.sigmaMConcrete == k * r.sigmaMConcrete
            && rk.nConcrete == k * r.nConcrete
            && rk.mConcrete == k * r.mConcrete
            && rk.tauTimberMax == r.tauTimberMax
            && rk.fConnector == r.fConnector
            && rk.hEcTau == r.hEcTau
  {
    TimberLinearInMoment(eTimber, areaTimber, hTimber, fmTimber, ftTimber, eConcrete, areaConcrete, hConcrete, iConcrete, mMid, vMax,
                             aTimber, aConcrete, s, ei, gamma, k);
    ConcreteLinearInMoment(eTimber, areaTimber, hTimber, fmTimber, ftTimber, eConcrete, areaConcrete, hConcrete, iConcrete, mMid, vMax,
                             aTimber, aConcrete, s, ei, gamma, k);
  }

  /** The timber part of StressesLinearInMoment. */
  lemma TimberLinearInMoment(eTimber: real, areaTimber: real, hTimber: real, fmTimber: real, ftTimber: real,
                               eConcrete: real, areaConcrete: real, hConcrete: real,
                               iConcrete: real, mMid: real, vMax: real,
                               aTimber: real, aConcrete: real, s: real, ei: real, gamma: real, k: real)
    requires ei != 0.0 && fmTimber != 0.0 && ftTimber != 0.0
    ensures var r := ComputeStressesAndForces(eTimber, areaTimber, hTimber, fmTimber, ftTimber, eConcrete, areaConcrete,
                                              hConcrete, iConcrete, mMid, vMax, aTimber, aConcrete, s, ei, gamma);
            var rk := ComputeStressesAndForces(eTimber, areaTimber, hTimber, fmTimber, ftTimber, eConcrete, areaConcrete,
                                               hConcrete, iConcrete, k * mMid, vMax, aTimber, aConcrete, s, ei, gamma);
            && rk.sigmaTimber == k * r.sigmaTimber
            && rk.sigmaMTimber == k * r.sigmaMTimber
            && rk.utilisationTimber == k * r.utilisationTimber
  {
    var r := ComputeStressesAndForces(eTimber, areaTimber, hTimber, fmTimber, ftTimber, eConcrete, areaConcrete,
                                      hConcrete, iConcrete, mMid, vMax, aTimber, aConcrete, s, ei, gamma);
    var rk := ComputeStressesAndForces(eTimber, areaTimber, hTimber, fmTimber, ftTimber, eConcrete, areaConcrete,
                                       hConcrete, iConcrete, k * mMid, vMax, aTimber, aConcrete, s, ei, gamma);
    TimberStressesLinear(eTimber, areaTimber, hTimber, fmTimber, ftTimber, eConcrete, areaConcrete, hConcrete, iConcrete, mMid, vMax,
                         aTimber, aConcrete, s, ei, gamma, k);
    ScaledUtilisation(r, rk, fmTimber, ftTimber, k);
  }

  /** Two result sets whose timber stresses differ by the factor k have
      utilisations that differ by k. */
  lemma ScaledUtilisation(r: StressResults, rk: StressResults, fm: real, ft: real, k: real)
    requires fm != 0.0 && ft != 0.0
    requires rk.sigmaTimber == k * r.sigmaTimber && rk.sigmaMTimber == k * r.sigmaMTimber
    requires r.utilisationTimber == Utilisation(r.sigmaMTimber, r.sigmaTimber, fm, ft)
    requires rk.utilisationTimber == Utilisation(rk.sigmaMTimber, rk.sigmaTimber, fm, ft)
    ensures rk.utilisationTimber == k * r.utilisationTimber
  {
    UtilisationScales(r.sigmaMTimber, r.sigmaTimber, fm, ft, k);
  }

  /** σ_t and σ_m,t scale with the moment. */
  lemma TimberStressesLinear(eTimber: real, areaTimber: real, hTimber: real, fmTimber: real, ftTimber: real,
                               eConcrete: real, areaConcrete: real, hConcrete: real,
                               iConcrete: real, mMid: real, vMax: real,
                               aTimber: real, aConcrete: real, s: real, ei: real, gamma: real, k: real)
    requires ei != 0.0 && fmTimber != 0.0 && ftTimber != 0.0
    ensures var r := ComputeStressesAndForces(eTimber, areaTimber, hTimber, fmTimber, ftTimber, eConcrete, areaConcrete,
                                              hConcrete, iConcrete, mMid, vMax, aTimber, aConcrete, s, ei, gamma);
            var rk := ComputeStressesAndForces(eTimber, areaTimber, hTimber, fmTimber, ftTimber, eConcrete, areaConcrete,
                                               hConcrete, iConcrete, k * mMid, vMax, aTimber, aConcrete, s, ei, gamma);
            && rk.sigmaTimber == k * r.sigmaTimber
            && rk.sigmaMTimber == k * r.sigmaMTimber
  {
    ScaleQuotient2(eTimber, aTimber, mMid, k, ei);
    ScaleHalfQuotient(eTimber, hTimber, mMid, k, ei);
  }

  /** The timber check σ_m/f_m + σ_t/f_t: bending and tension utilisation added. */
  function Utilisation(sigmaM: real, sigma: real, fm: real, ft: real): (u: real)
    requires fm != 0.0 && ft != 0.0
    ensures sigma == 0.0 ==> u * fm == sigmaM
    ensures sigmaM == 0.0 ==> u * ft == sigma
    ensures fm > 0.0 && ft > 0.0 ==> (u <= 1.0 <==> ft * sigmaM + fm * sigma <= fm * ft)
  {
    UtilisationCleared(sigmaM, sigma, fm, ft);
    MulPos(fm, ft);
    AtMostOne((sigmaM / fm) + (sigma / ft), fm * ft);
    (sigmaM / fm) + (sigma / ft)
  }

  /** (a/f_m + b/f_t)·f_m·f_t = f_t·a + f_m·b. */
  lemma UtilisationCleared(a: real, b: real, fm: real, ft: real)
    requires fm != 0.0 && ft != 0.0
    ensures ((a / fm) + (b / ft)) * (fm * ft) == ft * a + fm * b
  {
    DivMul(a, fm);
    DivMul(b, ft);
    assert (a / fm) * (fm * ft) == ((a / fm) * fm) * ft;
    assert (b / ft) * (fm * ft) == ((b / ft) * ft) * fm;
  }

  /** For k > 0, u ≤ 1 exactly when u·k ≤ k. */
  lemma AtMostOne(u: real, k: real)
    ensures k > 0.0 ==> (u <= 1.0 <==> u * k <= k)
  {
    if k > 0.0 {
      if u <= 1.0 {
        MulLessEq(u, 1.0, k);
      } else {
        MulLess(1.0, u, k);
      }
    }
  }

  /** The utilisation is linear in the two stresses together. */
  lemma UtilisationScales(a: real, b: real, fm: real, ft: real, k: real)
    requires fm != 0.0 && ft != 0.0
    ensures Utilisation(k * a, k * b, fm, ft) == k * Utilisation(a, b, fm, ft)
  {
    ScaleDivisor(a, k, fm);
    ScaleDivisor(b, k, ft);
  }

  /** The slab part of StressesLinearInMoment. */
  lemma ConcreteLinearInMoment(eTimber: real, areaTimber: real, hTimber: real, fmTimber: real, ftTimber: real,
                               eConcrete: real, areaConcrete: real, hConcrete: real,
                               iConcrete: real, mMid: real, vMax: real,
                               aTimber: real, aConcrete: real, s: real, ei: real, gamma: real, k: real)
    requires ei != 0.0 && fmTimber != 0.0 && ftTimber != 0.0
    ensures var r := ComputeStressesAndForces(eTimber, areaTimber, hTimber, fmTimber, ftTimber, eConcrete, areaConcrete,
                                              hConcrete, iConcrete, mMid, vMax, aTimber, aConcrete, s, ei, gamma);
            var rk := ComputeStressesAndForces(eTimber, areaTimber, hTimber, fmTimber, ftTimber, eConcrete, areaConcrete,
                                               hConcrete, iConcrete, k * mMid, vMax, aTimber, aConcrete, s, ei, gamma);
            && rk.sigmaConcrete == k * r.sigmaConcrete
            && rk.sigmaMConcrete == k * r.sigmaMConcrete
            && rk.nConcrete == k * r.nConcrete
            && rk.mConcrete == k * r.mConcrete
  {
    var r := ComputeStressesAndForces(eTimber, areaTimber, hTimber, fmTimber, ftTimber, eConcrete, areaConcrete,
                                      hConcrete, iConcrete, mMid, vMax, aTimber, aConcrete, s, ei, gamma);
    var rk := ComputeStressesAndForces(eTimber, areaTimber, hTimber, fmTimber, ftTimber, eConcrete, areaConcrete,
                                       hConcrete, iConcrete, k * mMid, vMax, aTimber, aConcrete, s, ei, gamma);
    assert rk.sigmaConcrete == k * r.sigmaConcrete by {
      ScaleQuotient3(gamma, eConcrete, aConcrete, mMid, k, ei);
    }
    assert rk.sigmaMConcrete == k * r.sigmaMConcrete by {
      ScaleHalfQuotient(eConcrete, hConcrete, mMid, k, ei);
    }
    assert rk.mConcrete == k * r.mConcrete by {
      ScaleQuotient2(eConcrete, iConcrete, mMid, k, ei);
    }
    assert (k * r.sigmaConcrete) * areaConcrete == k * (r.sigmaConcrete * areaConcrete);
  }

  /** The shear results are linear in the shear force: scaling V_max by k
      scales τ and the connector force by k and leaves the rest as it was. */
  lemma StressesLinearInShear(eTimber: real, areaTimber: real, hTimber: real, fmTimber: real, ftTimber: real,
                              eConcrete: real, areaConcrete: real, hConcrete: real,
                              iConcrete: real, mMid: real, vMax: real,
                              aTimber: real, aConcrete: real, s: real, ei: real, gamma: real, k: real)
    requires ei != 0.0 && fmTimber != 0.0 && ftTimber != 0.0
    ensures var r := ComputeStressesAndForces(eTimber, areaTimber, hTimber, fmTimber, ftTimber, eConcrete, areaConcrete,
                                              hConcrete, iConcrete, mMid, vMax, aTimber, aConcrete, s, ei, gamma);
            var rk := ComputeStressesAndForces(eTimber, areaTimber, hTimber, fmTimber, ftTimber, eConcrete, areaConcrete,
                                               hConcrete, iConcrete, mMid, k * vMax, aTimber, aConcrete, s, ei, gamma);
            && rk.tauTimberMax == k * r.tauTimberMax
            && rk.fConnector == k * r.fConnector
            && rk.sigmaTimber == r.sigmaTimber
            && rk.sigmaMTimber == r.sigmaMTimber
            && rk.utilisationTimber == r.utilisationTimber
            && rk.sigmaConcrete == r.sigmaConcrete
            && rk.sigmaMConcrete == r.sigmaMConcrete
            && rk.nConcrete == r.nConcrete
            && rk.mConcrete == r.mConcrete
            && rk.hEcTau == r.hEcTau
  {
    ScaleHalfQuotient(eTimber, Sq(aTimber + 0.5 * hTimber), vMax, k, ei);
    var c := gamma * eConcrete * areaConcrete * aConcrete * s / ei;
    assert c * (k * vMax) == k * (c * vMax);
  }

  /** (a·b·(k·m))/d = k·((a·b·m)/d). */
  lemma ScaleQuotient2(a: real, b: real, m: real, k: real, d: real)
    requires d != 0.0
    ensures (a * b * (k * m)) / d == k * ((a * b * m) / d)
  {
    DivAsMul(a * b * (k * m), d);
    DivAsMul(a * b * m, d);
  }

  /** (a·b·c·(k·m))/d = k·((a·b·c·m)/d). */
  lemma ScaleQuotient3(a: real, b: real, c: real, m: real, k: real, d: real)
    requires d != 0.0
    ensures (a * b * c * (k * m)) / d == k * ((a * b * c * m) / d)
  {
    DivAsMul(a * b * c * (k * m), d);
    DivAsMul(a * b * c * m, d);
  }

  /** (0.5·b·c·(k·m))/d = k·((0.5·b·c·m)/d). */
  lemma ScaleHalfQuotient(b: real, c: real, m: real, k: real, d: real)
    requires d != 0.0
    ensures (0.5 * b * c * (k * m)) / d == k * ((0.5 * b * c * m) / d)
  {
    DivAsMul(0.5 * b * c * (k * m), d);
    DivAsMul(0.5 * b * c * m, d);
  }

  /** (k·x)/d = k·(x/d). */
  lemma ScaleDivisor(x: real, k: real, d: real)
    requires d != 0.0
    ensures (k * x) / d == k * (x / d)
  {
    DivAsMul(k * x, d);
    DivAsMul(x, d);
  }

  /** With the offsets of compute_neutral_axes the axial forces of the two
      layers balance: the timber's tension σ_t·A_t equals the slab's
      compression N_c, so the section carries no net normal force. */
  lemma AxialForcesBalance(eTimber: real, areaTimber: real, hTimber: real, fmTimber: real, ftTimber: real,
                           eConcrete: real, areaConcrete: real, hConcrete: real,
                           iConcrete: real, mMid: real, vMax: real, s: real, ei: real, gamma: real)
    requires ei != 0.0 && fmTimber != 0.0 && ftTimber != 0.0
    requires gamma * eConcrete * areaConcrete + eTimber * areaTimber != 0.0
    ensures var o := ComputeNeutralAxes(eTimber, areaTimber, eConcrete, areaConcrete, hTimber, hConcrete, gamma);
            var r := ComputeStressesAndForces(eTimber, areaTimber, hTimber, fmTimber, ftTimber, eConcrete, areaConcrete,
                                              hConcrete, iConcrete, mMid, vMax, o.offsetTimber, o.offsetConcrete,
                                              s, ei, gamma);
            r.sigmaTimber * areaTimber == r.nConcrete
  {
    var o := ComputeNeutralAxes(eTimber, areaTimber, eConcrete, areaConcrete, hTimber, hConcrete, gamma);
    BalancedForces(eTimber, areaTimber, o.offsetTimber, gamma, eConcrete, areaConcrete, o.offsetConcrete, mMid, ei);
  }

  /** If E_t·A_t·x = γ·E_c·A_c·y then (E_t·x·M/EI)·A_t = (γ·E_c·y·M/EI)·A_c. */
  lemma BalancedForces(eTimber: real, areaTimber: real, x: real, gamma: real, eConcrete: real, areaConcrete: real,
                       y: real, m: real, ei: real)
    requires ei != 0.0
    requires eTimber * areaTimber * x == gamma * eConcrete * areaConcrete * y
    ensures ((eTimber * x * m) / ei) * areaTimber == ((gamma * eConcrete * y * m) / ei) * areaConcrete
  {
    var q := 1.0 / ei;
    DivAsMul(eTimber * x * m, ei);
    DivAsMul(gamma * eConcrete * y * m, ei);
    assert eTimber * x * m * q * areaTimber == (eTimber * areaTimber * x) * (m * q);
    assert gamma * eConcrete * y * m * q * areaConcrete == (gamma * eConcrete * areaConcrete * y) * (m * q);
  }
}
