# Timber-concrete composite beam: the gamma method, verified

This project models the calculator in `TCC_EC5_calc.py` and proves properties of it. The calculator checks a timber-concrete composite (TCC) beam with the "gamma method" of EN 1995-1-1 (Eurocode 5), Annex B. The beam is a rectangular timber joist under a rectangular concrete slab. The two layers are joined by shear connectors at spacing `s`, each with slip modulus `k_ser`. The beam spans `L` on simple supports and carries a point load `P` at mid-span.

The calculator is a fixed chain of seven closed-form steps. Each is modelled as a pure Dafny function over `real`:

| step | source function | Dafny |
|---|---|---|
| 1 | `compute_section_properties` | `Section.ComputeSectionProperties` |
| 2 | `compute_gamma_concrete` | `Connection.ComputeGamma` |
| 3 | `compute_neutral_axes` | `NeutralAxes.ComputeNeutralAxes` |
| 4 | `compute_effective_bending_stiffness` | `Stiffness.ComputeEffectiveBendingStiffness` |
| 5 | `compute_bending_moment_and_shear` | `LoadEffects.ComputeBendingMomentAndShear` |
| 6 | `compute_deflection` | `Deflection.ComputeDeflection` |
| 7 | `compute_stresses_and_forces` | `Stresses.ComputeStressesAndForces` |

Each step's tuple or dictionary result becomes a datatype:

- `SectionProperties`
- `Offsets` (`a_timber`, `a_concrete`)
- `InternalForces` (`M_mid`, `V_max`)
- `DeflectionCurve`
- `StressResults`, with one field per dictionary key:
  - `sigma_m_timber` → `sigmaMTimber`
  - `N_concrete` → `nConcrete`
  - `h_EC_tau` → `hEcTau`
  - and so on for the other keys.

Modules:

- `Reals` holds small facts of real arithmetic that the proofs share. It also defines `Sq` and `Cube`, which are the source's `**2` and `**3`.
- `Calculator` composes the seven steps the way their parameter lists chain them. Steps 1–4 are `ComputeComposite`; the whole run is `Run`, behind a domain check (`Analyse`). `TCC_EC5_calc.py` checks none of its inputs, and none of the files modelled here calls the chain; the domain check in `Analyse` is the model's own. The positivity domain used by `Analyse` is the physical one: every dimension, modulus, strength, the spacing, the slip modulus and the span are positive. The load `P` is unconstrained.

Conventions:

- Python floats are exact reals.
- `np.pi` is the constant `3.141592653589793`. The proofs only use `π² > 0`.
- Every function that divides requires its divisors to be nonzero, and requires nothing else. The source divides without checking.
- `np.linspace(start, stop, n)` is `Deflection.Linspace`, defined for every `n`:
  - `n = 0` gives the empty sequence;
  - `n = 1` gives `[start]`;
  - `n ≥ 2` gives `start + i·(stop − start)/(n − 1)`.
- The slice `a[::-1]` is `Deflection.Reverse`.
- `compute_deflection`'s default of 50 samples per half is `Deflection.DefaultNumPoints`. `Calculator.AnalyseDefault` runs the chain with it.

Every operation has a partner that it is checked against:

- **Section properties:** the parallel-axis theorem for the centroidal inertia.
- **γ:** its defining equation `γ·(1 + slip) = 1`, its monotonicity in `k_ser`, and both limits (rigid connection and no connection).
- **Neutral axes:** the axial-stiffness balance `E_t·A_t·a_t = γ·E_c·A_c·a_c`. This balance characterises the offsets uniquely.
- **EI_eff:** an independent closed form, `E_t·I_t + E_c·I_c + u·w·(d/2)²/(u + w)`, together with its monotonicity in γ.
- **Load effects:** the statics of the span.
- **Deflection:** the textbook line `−P·x'·(3L² − 4x'²)/(48·EI)` over the whole span.
- **Stresses:** Navier's formula, equal curvature of the layers, the shear flow in the connectors, linearity in `M` and `V`, and the balance of the axial forces.

## Model

| member | source | states |
|---|---|---|
| Section.RectArea | TCC_EC5_calc.py:9-10 | The area `b·h` of a layer is positive when both its dimensions are. |
| Section.RectInertia | TCC_EC5_calc.py:12-13 | The centroidal second moment `b·h³/12` equals `A·h²/12` and is positive for positive dimensions. |
| Section.ComputeSectionProperties | TCC_EC5_calc.py:3-15 | Each layer gets area `b·h` and inertia `A·h²/12`. Both are positive when the width and height are. Nothing is rejected. |
| Section.InertiaAboutBase | TCC_EC5_calc.py:12-13 | Shifting the centroidal inertia by `A·(h/2)²` gives the second moment about the base, `b·h³/3`. This cross-checks the `/12` formula. |
| Connection.SlipTerm | TCC_EC5_calc.py:23-25 | The slip term `π²·E_c·A_c·s/(k_ser·L²)` is zero exactly when `E_c·A_c·s` is. It is nonnegative for `E_c·A_c·s ≥ 0` and `k_ser > 0`, and positive for positive inputs. |
| Connection.SlipTermIsInverseInK | TCC_EC5_calc.py:23-25 | The slip term is a constant that does not depend on `k_ser`, divided by `k_ser`. |
| Connection.SlipConstant | TCC_EC5_calc.py:23-25 | The `k_ser`-free part `π²·E_c·A_c·s/L²` is positive for positive `E_c`, `A_c`, `s`. |
| Connection.ComputeGamma | TCC_EC5_calc.py:17-25 | γ solves `γ·(1 + slip) = 1`. `γ = 1` exactly when `E_c·A_c·s = 0`. `0 < γ ≤ 1` for `E_c·A_c·s ≥ 0` and `k_ser > 0`. `0 < γ < 1` strictly when all inputs are positive. |
| Connection.GammaIncreasesWithSlipModulus | TCC_EC5_calc.py:23-25 | A stiffer connector (larger `k_ser`) gives a strictly larger γ. |
| Connection.GammaTendsToOne | TCC_EC5_calc.py:23-25 | For every `ε > 0` there is a `k_ser` beyond which `1 − ε < γ < 1`. This is the rigid-connection limit. |
| Connection.GammaTendsToZero | TCC_EC5_calc.py:23-25 | For every `ε > 0` there is a `k_ser > 0` below which `0 < γ < ε`. This is the no-connection limit. |
| NeutralAxes.ComputeNeutralAxes | TCC_EC5_calc.py:27-49 | The offsets sum to the centroid distance `(h_t + h_c)/2`. They balance the axial stiffnesses: `E_t·A_t·a_t = γ·E_c·A_c·a_c`. For positive γ, moduli, areas and heights, `0 < a_t < (h_t + h_c)/2` and `a_c > 0`. |
| NeutralAxes.NeutralAxisUnique | TCC_EC5_calc.py:38-47 | Any split of the centroid distance that balances the axial stiffnesses is exactly the pair the source computes. |
| Stiffness.ComputeEffectiveBendingStiffness | TCC_EC5_calc.py:51-62 | Two conditions: `E_t·A_t ≥ 0` and `γ·E_c·A_c ≥ 0`. When both hold, `EI_eff` is at least `E_t·I_t + E_c·I_c`. It is strictly greater when either layer with positive axial stiffness sits off the neutral axis. It is positive when, in addition, the moduli and inertias are positive. |
| Stiffness.CompositeStiffnessClosedForm | TCC_EC5_calc.py:38-62 | Chained with the offsets of step 3, `EI_eff` is `E_t·I_t + E_c·I_c + u·w·((h_t + h_c)/2)²/(u + w)`, with `u = γ·E_c·A_c` and `w = E_t·A_t`. |
| Stiffness.StiffnessIncreasesWithGamma | TCC_EC5_calc.py:38-62 | Take positive moduli and areas and `h_t + h_c ≠ 0`. Then the chained `EI_eff` grows strictly with γ on `γ ≥ 0`. Every flexible connection is softer than a rigid one. |
| Stiffness.NoConnectionNoCompositeAction | TCC_EC5_calc.py:38-62 | With `γ = 0` the chained `EI_eff` is just `E_t·I_t + E_c·I_c`. |
| LoadEffects.ComputeBendingMomentAndShear | TCC_EC5_calc.py:64-75 | `V_max` is half the load. `M_mid = V_max·L/2`, the support reaction times the half span. |
| LoadEffects.MidSpanMomentIsPeak | TCC_EC5_calc.py:73-74 | Take `P ≥ 0`. `M_mid` is the statical moment under the load, and no section of the span carries more. |
| LoadEffects.MaxShearIsShearMagnitude | TCC_EC5_calc.py:73-74 | The shear has magnitude `V_max` at every section of `[0, L]`. |
| LoadEffects.MomentSlopeIsShear | TCC_EC5_calc.py:73-74 | The slope of the moment diagram is the shear (`dM/dx = V`). It is `+V_max` on the left half and `−V_max` on the right half. |
| Deflection.Linspace | TCC_EC5_calc.py:90 | `n` samples. The first is `start`, and for `n ≥ 2` the last is `stop`. |
| Deflection.LinspaceEvenlySpaced | TCC_EC5_calc.py:90 | Consecutive samples are `(stop − start)/(n − 1)` apart. |
| Deflection.LinspaceWithin | TCC_EC5_calc.py:100 | For `start ≤ stop` every sample lies in `[start, stop]`. |
| Deflection.Reverse | TCC_EC5_calc.py:102 | Defined by moving the head behind the reversed tail. Proved: the result has the argument's length, and its `i`-th element is the argument's `i`-th from the back. |
| Deflection.ReverseInvolution | TCC_EC5_calc.py:102 | Reversing twice gives the sequence back. |
| Deflection.ReversePermutes | TCC_EC5_calc.py:102 | Reversing keeps the same elements with the same multiplicities. |
| Deflection.ComputeDeflection | TCC_EC5_calc.py:77-104 | All four sequences have `num_points` entries. Each left value is the closed form at its position. `delta_right[i] = delta_left[n − 1 − i]`. The first left sample is `x = 0` with deflection 0. For `n ≥ 2` the last left sample is `x = L/2` with deflection `−P·L³/(48·EI)`. |
| Deflection.MidSpanDeflection | TCC_EC5_calc.py:97 | The closed form at `L/2` is `−P·L³/(48·EI)`. |
| Deflection.DeflectionAt | TCC_EC5_calc.py:97 | On the left half `x ≤ L/2`, the source's closed form `(P·x³/12 − P·L²·x/16)/EI` equals the textbook deflection line `−P·x·(3L² − 4x²)/(48·EI)`. |
| Deflection.MidSpanIsLargestDeflection | TCC_EC5_calc.py:97 | Take `P ≥ 0` and `EI > 0`. The textbook line lies between `−P·L³/(48·EI)` and 0 on `[0, L]`, and it reaches the lower bound at mid-span. |
| Deflection.CurveFollowsClassical | TCC_EC5_calc.py:90-102 | Take `n ≥ 2` and `L ≥ 0`. Every sample of both halves lies on the textbook deflection line of the whole span, so the mirrored right half is the true right half. |
| Deflection.ClassicalSymmetric | TCC_EC5_calc.py:99-102 | The textbook deflection line is symmetric about mid-span: `δ(x) = δ(L − x)` for every `x`. This symmetry is what justifies mirroring the left half. |
| Deflection.MirrorSamples | TCC_EC5_calc.py:90-100 | `x_right[i]` and `x_left[n − 1 − i]` are mirror images about `L/2`. |
| Deflection.CurveBounded | TCC_EC5_calc.py:90-102 | Take `P ≥ 0`, `EI > 0` and `L ≥ 0`, for any number of samples. Every sample of both halves lies between the mid-span deflection `−P·L³/(48·EI)` and 0. With one sample both halves are `[0]`. |
| Deflection.SingleSampleMirrorIsOffTheLine | TCC_EC5_calc.py:90-102 | With `num_points = 1` the right half pairs `x = L/2` with deflection 0. A loaded span deflects there, so the mirror needs `n ≥ 2`. |
| Stresses.ComputeStressesAndForces | TCC_EC5_calc.py:106-160 | `N_c = σ_c·A_c`, `h_EC_tau = a_t + h_t/2`, and `utilisation = σ_m,t/f_m + σ_t/f_t`. All seven moment results vanish when `M_mid = 0`. `τ` and `F_connector` vanish when `V_max = 0`. |
| Stresses.Utilisation | TCC_EC5_calc.py:120 | Without tension, the utilisation times `f_m` is `σ_m`. Without bending, the utilisation times `f_t` is `σ_t`. For positive strengths, the utilisation is at most 1 exactly when `f_t·σ_m + f_m·σ_t ≤ f_m·f_t`. |
| Stresses.UtilisationScales | TCC_EC5_calc.py:120 | Scaling both stresses by `k` scales the utilisation by `k`. |
| Stresses.StressRelations | TCC_EC5_calc.py:117-145 | Four relations hold. Navier's formula for the slab: `σ_m,c·I_c = M_c·h_c/2`. Both layers bend with one curvature: `σ_m,t·E_c·h_c = σ_m,c·E_t·h_t`. The connector force is the slab's shear flow over one spacing: `F·M = N_c·s·V`. Edge stresses follow the sign of a sagging moment. |
| Stresses.StressesLinearInMoment | TCC_EC5_calc.py:117-130 | Scaling `M_mid` by `k` scales all seven moment results by `k` and leaves `τ`, `F_connector` and `h_EC_tau` unchanged. |
| Stresses.StressesLinearInShear | TCC_EC5_calc.py:134-145 | Scaling `V_max` by `k` scales `τ` and `F_connector` by `k` and leaves every other result unchanged. |
| Stresses.AxialForcesBalance | TCC_EC5_calc.py:117-128 | With the offsets of step 3, the timber's axial force `σ_t·A_t` equals the slab's `N_c`, so the section carries no net normal force. |
| Calculator.ComputeComposite | TCC_EC5_calc.py:3-62 | Steps 1–4 on valid inputs give `0 < γ < 1` and offsets that split the centroid distance into two positive parts. `EI_eff` is positive and above `E_t·I_t + E_c·I_c`. |
| Calculator.Run | TCC_EC5_calc.py:3-160 | The whole chain on valid inputs. It gives a sound composite state and `2·V_max = P` with `M_mid = V_max·L/2`. Both halves of the curve have `n` samples. For `n ≥ 2` the mid-span value is the classical `−P·L³/(48·EI_eff)`. The axial forces balance. |
| Calculator.Analyse | TCC_EC5_calc.py:3-160 | A run is rejected exactly when some input is out of domain, and the rejection names a non-positive input. A completed run satisfies everything `Run` states. |
| Calculator.AnalyseDefault | TCC_EC5_calc.py:77-104 | With the default of 50 samples, a run is rejected exactly when some input is out of domain. A completed run has `EI_eff > 0`, 50 left samples, and a last left sample equal to the classical `−P·L³/(48·EI_eff)`. |
| Calculator.ExampleScenario | TCC_EC5_calc.py:3-75 | The worked example (120×160 mm joist, 400×100 mm slab, `P` = 80 kN, `L` = 1.6 m) gives `A_t = 0.0192`, `I_t = 4.096e-5`, `A_c = 0.04`, `I_c = 1/30000`, `M_mid = 32000`, `V_max = 40000` and `0 < γ < 1`. |

## Left out

- Floating point: the model computes over exact reals. It does not model IEEE rounding, overflow, `inf`, or `nan` from a division by zero. Instead, each function requires its divisors to be nonzero.
- π: `Connection.PI` is numpy's decimal value `3.141592653589793`, taken as an exact real. The proofs rely only on `π² > 0`.
- numpy internals: `linspace` and `[::-1]` are plain sequences, and their float rounding is not modelled.
- Deflection.ComputeDeflection: `num_points` is a `nat`. `np.linspace` raises `ValueError` for a negative count, and that error path is excluded by the type rather than modelled.
- The rest of the repository is presentation and I/O, not calculation:
  - the SVG drawings (`TCC_graphics.py`, `graphics_defs.py`);
  - the PDF/LaTeX reports (`TCC_Report.py`, `TCC_report.py`);
  - the matplotlib plots (`TCC_plots.py`);
  - the Streamlit front-end (`TCC_app.py`), whose own ad-hoc stress formulas are a separate variant and not the calculator.
- Shear stress: `τ` is modelled exactly as written, `0.5·E_t·h²·V_max/EI_eff` with `h = a_t + h_t/2`. This is the two-layer form of equation (B.9) of EN 1995-1-1, in which `b_timber` cancels. The model states only the zero-shear and linearity facts about it.
- Units: unit conversion belongs to the front-end. All quantities here are SI.
- Calculator.Analyse: `TCC_EC5_calc.py` validates none of its inputs, so the domain check is the model's own. The steps themselves accept any inputs with nonzero divisors.
