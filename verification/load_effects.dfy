/** Internal forces of a simply supported single span under one point load
    P at mid-span. */
module LoadEffects {

  /** Mid-span bending moment (N·m) and maximum shear force (N). */
  datatype InternalForces = InternalForces(mMid: real, vMax: real)

  /** M_mid = P·L/4, V_max = P/2: each support reaction takes half the load,
      and the moment at mid-span is that reaction times the half span. */
  function ComputeBendingMomentAndShear(p: real, l: real): (r: InternalForces)
    ensures 2.0 * r.vMax == p
    ensures r.mMid == r.vMax * (l / 2.0)
  {
    InternalForces((p * l) / 4.0, p / 2.0)
  }

  /** Bending moment at x ∈ [0, L] from statics alone: the reaction P/2 times
      the distance to the nearer support. */
  function MomentAt(p: real, l: real, x: real): real
  {
    if x <= l / 2.0 then p / 2.0 * x else p / 2.0 * (l - x)
  }

  /** Shear force at x ∈ [0, L]: +P/2 left of the load, −P/2 right of it. */
  function ShearAt(p: real, l: real, x: real): real
  {
    if x < l / 2.0 then p / 2.0 else -(p / 2.0)
  }

  /** M_mid is the moment the statics give under the load, and no section
      of the span carries more for a downward (nonnegative) load. */
  lemma MidSpanMomentIsPeak(p: real, l: real, x: real)
    requires p >= 0.0 && 0.0 <= x <= l
    ensures ComputeBendingMomentAndShear(p, l).mMid == MomentAt(p, l, l / 2.0)
    ensures 0.0 <= MomentAt(p, l, x) <= ComputeBendingMomentAndShear(p, l).mMid
  {
    if x <= l / 2.0 {
      assert p / 2.0 * x <= p / 2.0 * (l / 2.0);
    } else {
      assert p / 2.0 * (l - x) <= p / 2.0 * (l / 2.0);
    }
  }

  /** V_max is the magnitude of the shear at every section of the span. */
  lemma MaxShearIsShearMagnitude(p: real, l: real, x: real)
    requires 0.0 <= x <= l
    ensures ShearAt(p, l, x) == ComputeBendingMomentAndShear(p, l).vMax
            || ShearAt(p, l, x) == -ComputeBendingMomentAndShear(p, l).vMax
  {
  }

  /** The moment diagram's slope is the shear (dM/dx = V) on each half of the
      span: +V_max left of the load, −V_max right of it. */
  lemma MomentSlopeIsShear(p: real, l: real, x1: real, x2: real)
    requires 0.0 <= x1 <= x2 <= l
    ensures x2 <= l / 2.0 ==> MomentAt(p, l, x2) - MomentAt(p, l, x1)
                              == ComputeBendingMomentAndShear(p, l).vMax * (x2 - x1)
    ensures l / 2.0 <= x1 ==> MomentAt(p, l, x2) - MomentAt(p, l, x1)
                              == -ComputeBendingMomentAndShear(p, l).vMax * (x2 - x1)
    ensures x2 <= l / 2.0 || l / 2.0 <= x1 ==> MomentAt(p, l, x2) - MomentAt(p, l, x1) == ShearAt(p, l, x1) * (x2 - x1)
  {
  }
}
