/** The whole gamma-method calculation as one stateless pipeline: section
    properties → γ → neutral axes → EI_eff → load effects → deflection curve
    → stresses and forces, each step fed by the outputs of the earlier ones
    exactly as the parameter lists of the step functions chain them. Inputs
    outside the physical domain are rejected before anything is computed. */
module Calculator {

  import opened Reals
  import opened Section
  import opened Connection
  import opened NeutralAxes
  import opened Stiffness
  import opened LoadEffects
  import opened Deflection
  import opened Stresses

  /** The scalar inputs, all in SI units (Pa, m, N/m, N). */
  datatype Inputs = Inputs(
    bTimber: real, hTimber: real, bConcrete: real, hConcrete: real,
    eTimber: real, eConcrete: real,
    fmTimber: real, ftTimber: real,
    s: real, kSer: real,
    l: real, p: real)

  /** The inputs that must be strictly positive; the load P is unconstrained. */
  datatype InputField =
    | BTimber | HTimber | BConcrete | HConcrete
    | ETimber | EConcrete
    | FmTimber | FtTimber
    | Spacing | SlipModulus
    | Span

  function FieldValue(inp: Inputs, f: InputField): real
  {
    match f
    case BTimber => inp.bTimber
    case HTimber => inp.hTimber
    case BConcrete => inp.bConcrete
    case HConcrete => inp.hConcrete
    case ETimber => inp.eTimber
    case EConcrete => inp.eConcrete
    case FmTimber => inp.fmTimber
    case FtTimber => inp.ftTimber
    case Spacing => inp.s
    case SlipModulus => inp.kSer
    case Span => inp.l
  }

  /** The order in which the inputs are checked. */
  const CheckOrder: seq<InputField> :=
    [BTimber, HTimber, BConcrete, HConcrete, ETimber, EConcrete, FmTimber, FtTimber, Spacing, SlipModulus, Span]

  /** Physically valid inputs: every geometric, material, connector and span
      quantity is positive. */
  predicate Valid(inp: Inputs)
  {
    forall f: InputField :: FieldValue(inp, f) > 0.0
  }

  datatype Option<T> = None | Some(value: T)

  /** The first field of fields whose value is not positive, if there is one. */
  function FirstNonPositive(inp: Inputs, fields: seq<InputField>): (r: Option<InputField>)
    ensures r.None? <==> forall i :: 0 <= i < |fields| ==> FieldValue(inp, fields[i]) > 0.0
    ensures r.Some? ==> exists j :: 0 <= j < |fields| && fields[j] == r.value
                                    && FieldValue(inp, r.value) <= 0.0
                                    && forall i :: 0 <= i < j ==> FieldValue(inp, fields[i]) > 0.0
  {
    if |fields| == 0 then
      None
    else if FieldValue(inp, fields[0]) <= 0.0 then
      Some(fields[0])
    else
      var r := FirstNonPositive(inp, fields[1..]);
      if r.Some? then
        var j :| 0 <= j < |fields[1..]| && fields[1..][j] == r.value
                 && FieldValue(inp, r.value) <= 0.0
                 && forall i :: 0 <= i < j ==> FieldValue(inp, fields[1..][i]) > 0.0;
        assert fields[j + 1] == r.value;
        assert forall i :: 0 <= i < j + 1 ==> FieldValue(inp, fields[i]) > 0.0 by {
          forall i | 0 <= i < j + 1
            ensures FieldValue(inp, fields[i]) > 0.0
          {
            if i > 0 {
              assert fields[i] == fields[1..][i - 1];
            }
          }
        }
        r
      else
        assert forall i :: 0 <= i < |fields| ==> FieldValue(inp, fields[i]) > 0.0 by {
          forall i | 0 <= i < |fields|
            ensures FieldValue(inp, fields[i]) > 0.0
          {
            if i > 0 {
              assert fields[i] == fields[1..][i - 1];
            }
          }
        }
        r
  }

  /** Domain check: None for valid inputs, otherwise the first offending
      field in CheckOrder, whose value is not positive. */
  function Validate(inp: Inputs): (err: Option<InputField>)
    ensures err.None? <==> Valid(inp)
    ensures err.Some? ==> FieldValue(inp, err.value) <= 0.0
  {
    CheckOrderCovers(inp);
    FirstNonPositive(inp, CheckOrder)
  }

  /** Every field is in CheckOrder, so passing every check there is validity. */
  lemma CheckOrderCovers(inp: Inputs)
    ensures (forall i :: 0 <= i < |CheckOrder| ==> FieldValue(inp, CheckOrder[i]) > 0.0) ==> Valid(inp)
  {
    if forall i :: 0 <= i < |CheckOrder| ==> FieldValue(inp, CheckOrder[i]) > 0.0 {
      forall f: InputField
        ensures FieldValue(inp, f) > 0.0
      {
        assert CheckOrder[CheckIndex(f)] == f;
      }
    }
  }

  /** The position of f in CheckOrder: every field is checked. */
  function CheckIndex(f: InputField): (i: nat)
    ensures i < |CheckOrder| && CheckOrder[i] == f
  {
    match f
    case BTimber => 0
    case HTimber => 1
    case BConcrete => 2
    case HConcrete => 3
    case ETimber => 4
    case EConcrete => 5
    case FmTimber => 6
    case FtTimber => 7
    case Spacing => 8
    case SlipModulus => 9
    case Span => 10
  }

  /** The derived composite state: section properties, γ, the neutral-axis
      offsets and EI_eff. */
  datatype Composite = Composite(section: SectionProperties, gamma: real, offsets: Offsets, ei: real)

  /** Everything one run produces. */
  datatype Analysis = Analysis(composite: Composite, forces: InternalForces, curve: DeflectionCurve,
                               results: StressResults)

  datatype Outcome = Rejected(field: InputField) | Computed(analysis: Analysis)

  /** What a physically valid composite state satisfies: 0 < γ < 1, the
      offsets split the centroid distance into two positive parts, and
      EI_eff lies above the bare stiffness of the layers and above zero. */
  predicate CompositeSound(inp: Inputs, c: Composite)
  {
    && 0.0 < c.gamma < 1.0
    && c.offsets.offsetTimber + c.offsets.offsetConcrete == (inp.hTimber + inp.hConcrete) / 2.0
    && 0.0 < c.offsets.offsetTimber && 0.0 < c.offsets.offsetConcrete
    && c.ei > BareStiffness(inp.eTimber, c.section.inertiaTimber, inp.eConcrete, c.section.inertiaConcrete)
    && c.ei > 0.0
  }

  /** What a completed run satisfies on top of a sound composite state: the
      load effects of the mid-span load, a curve of numPoints samples per
      half with the classical mid-span deflection, and balanced axial forces
      in the two layers. */
  predicate AnalysisSound(inp: Inputs, numPoints: nat, a: Analysis)
  {
    && CompositeSound(inp, a.composite)
    && 2.0 * a.forces.vMax == inp.p
    && a.forces.mMid == a.forces.vMax * (inp.l / 2.0)
    && |a.curve.deltaLeft| == |a.curve.deltaRight| == numPoints
    && (numPoints >= 2 && a.composite.ei != 0.0 ==>
          a.curve.deltaLeft[numPoints - 1] == -(inp.p * Cube(inp.l)) / (48.0 * a.composite.ei))
    && a.results.sigmaTimber * a.composite.section.areaTimber == a.results.nConcrete
  }

  /** Runs the pipeline on valid inputs and reports an offending field
      otherwise; a completed run is sound. */
  function Analyse(inp: Inputs, numPoints: nat): (out: Outcome)
    ensures out.Rejected? <==> !Valid(inp)
    ensures out.Rejected? ==> FieldValue(inp, out.field) <= 0.0
    ensures out.Computed? ==> AnalysisSound(inp, numPoints, out.analysis)
  {
    match Validate(inp)
    case Some(f) => Rejected(f)
    case None => Computed(Run(inp, numPoints))
  }

  /** Analyse with compute_deflection's default of DefaultNumPoints samples
      per half: a completed run ends its left half at the classical
      mid-span deflection. */
  function AnalyseDefault(inp: Inputs): (out: Outcome)
    ensures out.Rejected? <==> !Valid(inp)
    ensures out.Computed? ==> && out.analysis.composite.ei > 0.0
                              && |out.analysis.curve.deltaLeft| == DefaultNumPoints
                              && out.analysis.curve.deltaLeft[DefaultNumPoints - 1]
                                 == -(inp.p * Cube(inp.l)) / (48.0 * out.analysis.composite.ei)
  {
    Analyse(inp, DefaultNumPoints)
  }

  /** Steps 1 to 4: section properties, γ, neutral axes and EI_eff. */
  function ComputeComposite(inp: Inputs): (c: Composite)
    requires Valid(inp)
    ensures CompositeSound(inp, c)
    ensures c.section == ComputeSectionProperties(inp.bTimber, inp.hTimber, inp.bConcrete, inp.hConcrete)
    ensures c.section.areaTimber > 0.0 && c.section.areaConcrete > 0.0
    ensures c.gamma * inp.eConcrete * c.section.areaConcrete + inp.eTimber * c.section.areaTimber != 0.0
    ensures c.offsets == ComputeNeutralAxes(inp.eTimber, c.section.areaTimber, inp.eConcrete, c.section.areaConcrete,
                                            inp.hTimber, inp.hConcrete, c.gamma)
  {
    assert FieldValue(inp, BTimber) > 0.0 && FieldValue(inp, HTimber) > 0.0;
    assert FieldValue(inp, BConcrete) > 0.0 && FieldValue(inp, HConcrete) > 0.0;
    assert FieldValue(inp, ETimber) > 0.0 && FieldValue(inp, EConcrete) > 0.0;
    assert FieldValue(inp, Spacing) > 0.0 && FieldValue(inp, SlipModulus) > 0.0 && FieldValue(inp, Span) > 0.0;
    var sec := ComputeSectionProperties(inp.bTimber, inp.hTimber, inp.bConcrete, inp.hConcrete);
    var gamma := ComputeGamma(inp.eConcrete, sec.areaConcrete, inp.s, inp.kSer, inp.l);
    AxialStiffnessesPositive(gamma, inp.eConcrete, sec.areaConcrete, inp.eTimber, sec.areaTimber);
    var offsets := ComputeNeutralAxes(inp.eTimber, sec.areaTimber, inp.eConcrete, sec.areaConcrete,
                                      inp.hTimber, inp.hConcrete, gamma);
    var ei := ComputeEffectiveBendingStiffness(inp.eTimber, sec.inertiaTimber, sec.areaTimber, offsets.offsetTimber,
                                               inp.eConcrete, sec.inertiaConcrete, sec.areaConcrete,
                                               offsets.offsetConcrete, gamma);
    Composite(sec, gamma, offsets, ei)
  }

  /** γ·E_c·A_c > 0 and E_t·A_t > 0 for positive factors. */
  lemma AxialStiffnessesPositive(gamma: real, eConcrete: real, areaConcrete: real, eTimber: real, areaTimber: real)
    requires gamma > 0.0 && eConcrete > 0.0 && areaConcrete > 0.0 && eTimber > 0.0 && areaTimber > 0.0
    ensures gamma * eConcrete * areaConcrete > 0.0 && eTimber * areaTimber > 0.0
  {
    MulPos(gamma, eConcrete);
    MulPos(gamma * eConcrete, areaConcrete);
    MulPos(eTimber, areaTimber);
  }

  /** The whole pipeline, on inputs already known to be valid. */
  function Run(inp: Inputs, numPoints: nat): (a: Analysis)
    requires Valid(inp)
    ensures AnalysisSound(inp, numPoints, a)
  {
    assert FieldValue(inp, FmTimber) > 0.0 && FieldValue(inp, FtTimber) > 0.0;
    var c := ComputeComposite(inp);
    var forces := ComputeBendingMomentAndShear(inp.p, inp.l);
    var curve := ComputeDeflection(c.ei, inp.p, inp.l, numPoints);
    var results := ComputeStressesAndForces(inp.eTimber, c.section.areaTimber, inp.hTimber, inp.fmTimber, inp.ftTimber,
                                            inp.eConcrete, c.section.areaConcrete, inp.hConcrete,
                                            c.section.inertiaConcrete, forces.mMid, forces.vMax,
                                            c.offsets.offsetTimber, c.offsets.offsetConcrete, inp.s, c.ei, c.gamma);
    AxialForcesBalance(inp.eTimber, c.section.areaTimber, inp.hTimber, inp.fmTimber, inp.ftTimber,
                       inp.eConcrete, c.section.areaConcrete, inp.hConcrete, c.section.inertiaConcrete,
                       forces.mMid, forces.vMax, inp.s, c.ei, c.gamma);
    Analysis(c, forces, curve, results)
  }

  /** A worked example: a 120 × 160 mm timber joist under a 400 × 100 mm
      slab, k_ser = 9·10⁷ N/m at 0.8 m, P = 80 kN on a 1.6 m span. */
  const Example: Inputs := Inputs(0.12, 0.16, 0.40, 0.10, 11.0e9, 33.0e9, 24.0e6, 14.0e6, 0.8, 9.0e7, 1.6, 8.0e4)

  /** The example passes the domain check, its section properties and load
      effects come out as a hand calculation gives them, and 0 < γ < 1. */
  lemma ExampleScenario()
    ensures Valid(Example)
    ensures ComputeSectionProperties(0.12, 0.16, 0.40, 0.10) == SectionProperties(0.0192, 0.00004096, 0.04, 1.0 / 30000.0)
    ensures ComputeBendingMomentAndShear(8.0e4, 1.6) == InternalForces(32000.0, 40000.0)
    ensures 0.0 < ComputeGamma(33.0e9, 0.04, 0.8, 9.0e7, 1.6) < 1.0
  {
    assert Valid(Example) by {
      forall f: InputField
        ensures FieldValue(Example, f) > 0.0
      {
      }
    }
    assert Cube(0.16) == 0.004096;
    assert Cube(0.10) == 0.001;
  }
}
