/** Cross-section properties of the two rectangular layers of a
    timber-concrete composite (TCC) beam: a timber web below a concrete slab.
    All quantities are SI (m, m², m⁴). */
module Section {

  import opened Reals

  /** Area and second moment of area of each layer about its own centroid. */
  datatype SectionProperties = SectionProperties(
    areaTimber: real,
    inertiaTimber: real,
    areaConcrete: real,
    inertiaConcrete: real)

  /** Area b·h of a rectangle. */
  function RectArea(b: real, h: real): (a: real)
    ensures b > 0.0 && h > 0.0 ==> a > 0.0
  {
    b * h
  }

  /** Second moment of area of a b×h rectangle about its own centroidal axis. */
  function RectInertia(b: real, h: real): (i: real)
    ensures i == RectArea(b, h) * Sq(h) / 12.0
    ensures b > 0.0 && h > 0.0 ==> i > 0.0
  {
    b * Cube(h) / 12.0
  }

  /** Both layers' properties; no input is rejected (the source divides only by 12). */
  function ComputeSectionProperties(bTimber: real, hTimber: real, bConcrete: real, hConcrete: real)
    : (r: SectionProperties)
    ensures r.areaTimber == RectArea(bTimber, hTimber)
    ensures r.areaConcrete == RectArea(bConcrete, hConcrete)
    ensures r.inertiaTimber == r.areaTimber * Sq(hTimber) / 12.0
    ensures r.inertiaConcrete == r.areaConcrete * Sq(hConcrete) / 12.0
    ensures bTimber > 0.0 && hTimber > 0.0 ==> r.areaTimber > 0.0 && r.inertiaTimber > 0.0
    ensures bConcrete > 0.0 && hConcrete > 0.0 ==> r.areaConcrete > 0.0 && r.inertiaConcrete > 0.0
  {
    SectionProperties(
      RectArea(bTimber, hTimber), RectInertia(bTimber, hTimber),
      RectArea(bConcrete, hConcrete), RectInertia(bConcrete, hConcrete))
  }

  /** Independent check of the centroidal formula: moving the axis from the
      centroid to the base by h/2 (parallel-axis theorem) gives the textbook
      second moment about the base, b·h³/3. */
  lemma InertiaAboutBase(b: real, h: real)
    ensures RectInertia(b, h) + RectArea(b, h) * Sq(h / 2.0) == b * Cube(h) / 3.0
  {
    assert Sq(h / 2.0) == Sq(h) / 4.0;
    assert RectArea(b, h) * Sq(h) == b * Cube(h);
  }
}
