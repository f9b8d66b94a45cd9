/**
 The affine memory model that gates the second engine's legs, refitted from its own measurements.
 */
module MemoryModel {

  const FALLBACK_BASE := 4.0
  const FALLBACK_SLOPE := 24000.0
  const GIB := 1073741824.0
  const HEADROOM := 0.5

  /** A measured leg: peak terms and resident GiB. */
  datatype Sample = Sample(terms: nat, gib: real)

  /** Bytes per term times terms, in GiB. */
  function Bulk(slope: real, terms: int): real {
    slope * terms as real / GIB
  }

  datatype Model = Model(base: real, slope: real, fitted: bool) {
    predicate Valid() {
      base >= 0.0 && slope > 0.0
    }

    /** `projected_gib`. */
    function Projected(terms: nat): real {
      base + Bulk(slope, terms)
    }

    /** `refit`: one usable sample raises the base; two set the slope, unless it would not rise. */
    function Refit(samples: seq<Sample>): Model {
      var usable := Usable(samples);
      var n := |usable|;
      if n == 0 then this
      else if n == 1 then
        Model(Larger(usable[0].gib - Bulk(slope, usable[0].terms), FALLBACK_BASE), slope, false)
      else
        var (a, b) := (usable[n - 2], usable[n - 1]);
        if b.terms == a.terms || FitSlope(a, b) <= 0.0 then this
        else Model(Larger(b.gib - Bulk(FitSlope(a, b), b.terms), 0.0), FitSlope(a, b), true)
    }
  }

  function Larger(a: real, b: real): real {
    if a < b then b else a
  }

  /** Samples with a positive footprint, in order. */
  function Usable(samples: seq<Sample>): seq<Sample> {
    if |samples| == 0 then []
    else
      var k := |samples| - 1;
      Usable(samples[..k]) + if samples[k].gib > 0.0 then [samples[k]] else []
  }

  /** Slope through two samples, in bytes per term. */
  function FitSlope(a: Sample, b: Sample): real
    requires a.terms != b.terms
  {
    Steepness(b.gib - a.gib, (b.terms - a.terms) as real)
  }

  /** GiB over terms, in bytes per term. */
  function Steepness(gib: real, terms: real): real
    requires terms != 0.0
  {
    gib * GIB / terms
  }

  /** Above its base a projection is the slope in bytes times the terms, at `2^30` bytes to the GiB. */
  lemma ProjectedUnits(m: Model, terms: nat)
    ensures (m.Projected(terms) - m.base) * 1073741824.0 == m.slope * terms as real
    ensures m.Projected(0) == m.base
  {
  }

  const PRIOR := Model(FALLBACK_BASE, FALLBACK_SLOPE, false)

  // ---- One refit ----

  lemma SteepnessBack(g: real, d: real)
    requires d != 0.0
    ensures Span(Steepness(g, d), d) == g
  {
    var x := g * GIB / d;
    assert x * d == g * GIB;
  }

  /** What a slope adds over a difference of sizes. */
  function Span(slope: real, d: real): real {
    slope * d / GIB
  }

  lemma BulkDifference(slope: real, t: int, u: int)
    ensures Bulk(slope, u) - Bulk(slope, t) == Span(slope, (u - t) as real)
  {
    assert slope * u as real - slope * t as real == slope * (u - t) as real;
  }

  /** The fitted slope accounts for the difference of its two samples. */
  lemma FitLaw(a: Sample, b: Sample)
    requires a.terms != b.terms
    ensures Bulk(FitSlope(a, b), b.terms) - Bulk(FitSlope(a, b), a.terms) == b.gib - a.gib
  {
    hide Bulk, Span, Steepness;
    BulkDifference(FitSlope(a, b), a.terms, b.terms);
    SteepnessBack(b.gib - a.gib, (b.terms - a.terms) as real);
  }

  lemma BulkMonotone(slope: real, t: nat, u: nat)
    requires slope > 0.0 && t <= u
    ensures 0.0 <= Bulk(slope, t) <= Bulk(slope, u)
  {
    assert slope * t as real <= slope * u as real;
  }

  /** Slope stays positive and base non-negative through every refit. */
  lemma RefitValid(m: Model, samples: seq<Sample>)
    requires m.Valid()
    ensures m.Refit(samples).Valid()
  {
    hide Bulk, FitSlope, Usable;
  }

  /** Projections grow with the term count, and never fall below the base. */
  lemma ProjectedMonotone(m: Model, t: nat, u: nat)
    requires m.Valid() && t <= u
    ensures m.base <= m.Projected(t) <= m.Projected(u)
  {
    hide Bulk;
    BulkMonotone(m.slope, t, u);
  }

  /** Without a usable sample the model stays; one keeps the slope and takes the least base, from the prior's up, that covers it. */
  lemma RefitFromOne(m: Model, samples: seq<Sample>)
    requires |Usable(samples)| <= 1
    ensures |Usable(samples)| == 0 ==> m.Refit(samples) == m
    ensures |Usable(samples)| == 1 ==>
              var r, s := m.Refit(samples), Usable(samples)[0];
              && r.slope == m.slope && !r.fitted && r.base >= FALLBACK_BASE && r.Projected(s.terms) >= s.gib
              && (r.base == FALLBACK_BASE || r.Projected(s.terms) == s.gib)
  {
    hide Bulk, Usable;
  }

  /**
   Two or more keep the model unless size and footprint of the last two moved the same way; then the slope is
   theirs, and the line passes through both unless that needs a negative base, which becomes zero.
   */
  lemma RefitFromTwo(m: Model, samples: seq<Sample>)
    requires |Usable(samples)| >= 2
    ensures
      var usable, r := Usable(samples), m.Refit(samples);
      var (a, b) := (usable[|usable| - 2], usable[|usable| - 1]);
      if (b.terms > a.terms && b.gib > a.gib) || (b.terms < a.terms && b.gib < a.gib) then
        && r.fitted && r.slope > 0.0 && r.base >= 0.0
        && r.Projected(b.terms) - r.Projected(a.terms) == b.gib - a.gib
        && (r.base == 0.0 || (r.Projected(a.terms) == a.gib && r.Projected(b.terms) == b.gib))
        && r.Projected(a.terms) >= a.gib && r.Projected(b.terms) >= b.gib
      else r == m
  {
    hide Bulk, FitSlope, Usable;
    var usable := Usable(samples);
    var (a, b) := (usable[|usable| - 2], usable[|usable| - 1]);
    if a.terms != b.terms {
      SlopeSign(a, b);
      FitLaw(a, b);
    }
  }

  lemma {:induction false} UsableConcat(a: seq<Sample>, b: seq<Sample>)
    ensures Usable(a + b) == Usable(a) + Usable(b)
  {
    if |b| == 0 {
      assert a + b == a;
    } else {
      assert (a + b)[..|a + b| - 1] == a + b[..|b| - 1];
      UsableConcat(a, b[..|b| - 1]);
    }
  }

  /** Wherever a sample stands, it is used exactly when its footprint is positive, and the others keep their order. */
  lemma UsableSplits(before: seq<Sample>, sample: Sample, after: seq<Sample>)
    ensures Usable(before + [sample] + after) == Usable(before) + (if sample.gib > 0.0 then [sample] else []) + Usable(after)
  {
    hide Usable;
    UsableConcat(before + [sample], after);
    UsableConcat(before, [sample]);
    UsableOne(sample);
  }

  lemma UsableOne(s: Sample)
    ensures Usable([s]) == if s.gib > 0.0 then [s] else []
  {
    assert [s][..0] == [];
  }

  /** The samples a refit builds its result from: none when it returns the old model. */
  function BuiltFrom(samples: seq<Sample>): seq<Sample> {
    var usable := Usable(samples);
    var n := |usable|;
    if n == 0 then []
    else if n == 1 then usable
    else if usable[n - 1].terms == usable[n - 2].terms || FitSlope(usable[n - 2], usable[n - 1]) <= 0.0 then []
    else usable[n - 2..]
  }

  /** A newly built model projects at least the measured memory at every sample it was built from. */
  lemma RefitCovers(m: Model, samples: seq<Sample>, i: nat)
    requires m.Valid() && i < |BuiltFrom(samples)|
    ensures m.Refit(samples).Projected(BuiltFrom(samples)[i].terms) >= BuiltFrom(samples)[i].gib
  {
    hide Bulk, FitSlope, Usable;
    var usable := Usable(samples);
    var n := |usable|;
    if n >= 2 {
      var (a, b) := (usable[n - 2], usable[n - 1]);
      FitLaw(a, b);
    }
  }

  /**
   The last measurement is covered after a refit exactly when the refit built a model from it or the old
   model already covered it: two legs of equal size, or a falling footprint, leave the old projection.
   */
  lemma LastCovered(m: Model, samples: seq<Sample>)
    requires m.Valid() && |Usable(samples)| >= 2
    ensures
      var usable := Usable(samples);
      var n := |usable|;
      var (a, b) := (usable[n - 2], usable[n - 1]);
      m.Refit(samples).Projected(b.terms) >= b.gib
      <==> (b.terms > a.terms && b.gib > a.gib) || (b.terms < a.terms && b.gib < a.gib) || m.Projected(b.terms) >= b.gib
  {
    hide Bulk, FitSlope, Usable;
    var usable := Usable(samples);
    var n := |usable|;
    var (a, b) := (usable[n - 2], usable[n - 1]);
    if a.terms != b.terms {
      SlopeSign(a, b);
    }
    var built := BuiltFrom(samples);
    if built != [] {
      RefitCovers(m, samples, 1);
    }
  }

  lemma SlopeSign(a: Sample, b: Sample)
    requires a.terms != b.terms
    ensures FitSlope(a, b) > 0.0 <==> (b.terms > a.terms && b.gib > a.gib) || (b.terms < a.terms && b.gib < a.gib)
  {
    hide Steepness;
    SteepnessSign(b.gib - a.gib, (b.terms - a.terms) as real);
  }

  lemma SteepnessSign(g: real, d: real)
    requires d != 0.0
    ensures Steepness(g, d) > 0.0 <==> (d > 0.0 && g > 0.0) || (d < 0.0 && g < 0.0)
  {
    var x := g * GIB / d;
    assert x * d == g * GIB;
    SignOfProduct(x, d);
  }

  lemma SignOfProduct(x: real, d: real)
    requires d != 0.0
    ensures x * d > 0.0 <==> (x > 0.0 && d > 0.0) || (x < 0.0 && d < 0.0)
    ensures x * d < 0.0 <==> (x > 0.0 && d < 0.0) || (x < 0.0 && d > 0.0)
  {
  }

  // ---- The loop over legs ----

  datatype Option<T> = None | Some(value: T)

  /** One leg: its size, the memory free when it is about to run, and what it would measure if it ran. */
  datatype Leg = Leg(terms: nat, available: Option<real>, measured: Option<real>)

  /** The gate: the projection must fit inside half of what is free, when that is known. */
  predicate Admitted(m: Model, leg: Leg) {
    leg.available.None? || m.Projected(leg.terms) <= HEADROOM * leg.available.value
  }

  /** What a leg appends to the samples. */
  function Taken(m: Model, leg: Leg): seq<Sample> {
    if Admitted(m, leg) && leg.measured.Some? && leg.measured.value != 0.0 then [Sample(leg.terms, leg.measured.value)] else []
  }

  /** The model and samples after some legs. */
  datatype State = State(model: Model, samples: seq<Sample>)

  function After(legs: seq<Leg>): State {
    if |legs| == 0 then State(PRIOR, [])
    else
      var before := After(legs[..|legs| - 1]);
      var taken := Taken(before.model, legs[|legs| - 1]);
      if taken == [] then before
      else State(before.model.Refit(before.samples + taken), before.samples + taken)
  }

  /** Every model in every history is valid. */
  lemma {:induction false} HistoryValid(legs: seq<Leg>)
    ensures After(legs).model.Valid()
  {
    hide Bulk, FitSlope, Usable, Model.Refit, Admitted;
    if |legs| > 0 {
      var before := After(legs[..|legs| - 1]);
      HistoryValid(legs[..|legs| - 1]);
      RefitValid(before.model, before.samples + Taken(before.model, legs[|legs| - 1]));
    }
  }

  /** In every history, a leg that yields a new model yields one covering every sample it was built from. */
  lemma HistoryCovers(legs: seq<Leg>, i: nat)
    requires |legs| > 0 && Taken(After(legs[..|legs| - 1]).model, legs[|legs| - 1]) != []
    requires i < |BuiltFrom(After(legs).samples)|
    ensures
      var sample := BuiltFrom(After(legs).samples)[i];
      After(legs).model.Projected(sample.terms) >= sample.gib
  {
    hide Bulk, FitSlope, Usable, Model.Refit, Admitted, Model.Projected, BuiltFrom;
    var before := After(legs[..|legs| - 1]);
    HistoryValid(legs[..|legs| - 1]);
    RefitCovers(before.model, After(legs).samples, i);
  }

  lemma AfterStep(legs: seq<Leg>, k: nat)
    requires k < |legs|
    ensures
      var before, taken := After(legs[..k]), Taken(After(legs[..k]).model, legs[k]);
      After(legs[..k + 1])
      == if taken == [] then before else State(before.model.Refit(before.samples + taken), before.samples + taken)
  {
    hide Taken, Model.Refit;
    assert legs[..k + 1][..k] == legs[..k];
  }

  lemma AfterNone()
    ensures After([]) == State(PRIOR, [])
  {
  }

  /** Which legs ran: exactly those the model of their history admitted. */
  ghost predicate Gated(legs: seq<Leg>, ran: seq<bool>) {
    |ran| == |legs| && forall i :: 0 <= i < |legs| ==> ran[i] == Admitted(After(legs[..i]).model, legs[i])
  }

  /** One leg of a history: skipped or unmeasured, it changes nothing; measured, it adds its sample and refits on all of them. */
  lemma LegStep(legs: seq<Leg>, ran: seq<bool>, i: nat)
    requires Gated(legs, ran) && i < |legs|
    ensures
      var before, after, leg := After(legs[..i]), After(legs[..i + 1]), legs[i];
      if ran[i] && leg.measured.Some? && leg.measured.value != 0.0 then
        && after.samples == before.samples + [Sample(leg.terms, leg.measured.value)]
        && after.model == before.model.Refit(after.samples)
      else after == before
  {
    hide Admitted, After, Model.Refit;
    AfterStep(legs, i);
  }

  /** The parity legs of `main`: gate, run, record, refit. */
  method RunLegs(legs: seq<Leg>) returns (end: State, ran: seq<bool>)
    ensures end == After(legs) && end.model.Valid()
    ensures Gated(legs, ran)
  {
    hide Model.Refit, Model.Projected, Model.Valid, Admitted, After;
    var model, samples := PRIOR, [];
    ran := [];
    AfterNone();
    for k := 0 to |legs|
      invariant State(model, samples) == After(legs[..k]) && |ran| == k
      invariant forall i :: 0 <= i < k ==> ran[i] == Admitted(After(legs[..i]).model, legs[i])
    {
      var leg := legs[k];
      AfterStep(legs, k);
      var admitted := Admitted(model, leg);
      ran := ran + [admitted];
      if admitted && leg.measured.Some? && leg.measured.value != 0.0 {
        samples := samples + [Sample(leg.terms, leg.measured.value)];
        model := model.Refit(samples);
      }
    }
    assert legs[..|legs|] == legs;
    HistoryValid(legs);
    return State(model, samples), ran;
  }

  /** Two legs of one size: the loop keeps the model of the first, and the second footprint goes unmodelled. */
  lemma EqualLegsUncovered(first: seq<Leg>, both: seq<Leg>)
    requires first == [Leg(1, None, Some(5.0))] && both == first + [Leg(1, None, Some(50.0))]
    ensures After(both).samples == [Sample(1, 5.0), Sample(1, 50.0)]
    ensures After(both).model.Projected(1) == 5.0
  {
    hide Bulk, After, Usable, FitSlope, Model.Projected;
    OneLeg(first);
    AfterStep(both, 1);
    assert both[..1] == first && both[..2] == both;
    var samples := [Sample(1, 5.0), Sample(1, 50.0)];
    assert [Sample(1, 5.0)] + [Sample(1, 50.0)] == samples;
    AllUsable(samples);
  }

  lemma OneLeg(first: seq<Leg>)
    requires first == [Leg(1, None, Some(5.0))]
    ensures After(first).samples == [Sample(1, 5.0)] && After(first).model.Projected(1) == 5.0
  {
    hide Bulk, After, Usable, FitSlope;
    AfterNone();
    AfterStep(first, 0);
    assert first[..0] == [] && first[..1] == first;
    assert [] + [Sample(1, 5.0)] == [Sample(1, 5.0)];
    AllUsable([Sample(1, 5.0)]);
    OneTerm();
  }

  lemma OneTerm()
    ensures 0.0 < Bulk(FALLBACK_SLOPE, 1) < 1.0
  {
  }

  lemma {:induction false} AllUsable(samples: seq<Sample>)
    requires forall i :: 0 <= i < |samples| ==> samples[i].gib > 0.0
    ensures Usable(samples) == samples
  {
    if |samples| > 0 {
      var k := |samples| - 1;
      AllUsable(samples[..k]);
      assert samples == samples[..k] + [samples[k]];
    }
  }

  // ---- What the gate guarantees ----

  /** An engine whose memory really is affine in the term count. */
  datatype Engine = Engine(base: real, slope: real) {
    predicate Valid() {
      base >= 0.0 && slope > 0.0
    }

    function Footprint(terms: nat): real {
      base + Bulk(slope, terms)
    }
  }

  /** Every measurement is the engine's footprint. */
  predicate Measures(e: Engine, legs: seq<Leg>) {
    forall i :: 0 <= i < |legs| && legs[i].measured.Some? ==> legs[i].measured.value == e.Footprint(legs[i].terms)
  }

  predicate SamplesOf(e: Engine, samples: seq<Sample>) {
    forall i :: 0 <= i < |samples| ==> samples[i].gib == e.Footprint(samples[i].terms) && samples[i].gib > 0.0
  }

  ghost predicate TwoSizes(samples: seq<Sample>) {
    exists i, j :: 0 <= i < |samples| && 0 <= j < |samples| && samples[i].terms != samples[j].terms
  }

  lemma FootprintNonnegative(e: Engine, terms: nat)
    requires e.Valid()
    ensures e.Footprint(terms) >= 0.0
  {
    hide Bulk;
    BulkMonotone(e.slope, terms, terms);
  }

  lemma {:induction false} HistorySamples(e: Engine, legs: seq<Leg>)
    requires e.Valid() && Measures(e, legs)
    ensures SamplesOf(e, After(legs).samples)
  {
    hide Bulk, Engine.Footprint, Model.Refit, Admitted;
    if |legs| > 0 {
      var k := |legs| - 1;
      HistorySamples(e, legs[..k]);
      FootprintNonnegative(e, legs[k].terms);
    }
  }

  lemma SpanBack(s: real, d: real)
    requires d != 0.0
    ensures Steepness(Span(s, d), d) == s
  {
    var x := s * d / GIB;
    assert x * GIB == s * d;
  }

  /** Two samples of different sizes determine the engine. */
  lemma FitRecovers(e: Engine, a: Sample, b: Sample)
    requires a.terms != b.terms && a.gib == e.Footprint(a.terms) && b.gib == e.Footprint(b.terms)
    ensures FitSlope(a, b) == e.slope && b.gib - Bulk(e.slope, b.terms) == e.base
  {
    hide Bulk, Span, Steepness;
    BulkDifference(e.slope, a.terms, b.terms);
    SpanBack(e.slope, (b.terms - a.terms) as real);
  }

  /** A refit finds the engine when its last two samples differ in size, and keeps the model when they do not. */
  lemma RefitRecovers(e: Engine, m: Model, samples: seq<Sample>)
    requires e.Valid() && SamplesOf(e, samples) && |samples| >= 2
    ensures
      var n := |samples|;
      m.Refit(samples) == if samples[n - 2].terms == samples[n - 1].terms then m else Model(e.base, e.slope, true)
  {
    hide Bulk, FitSlope, Usable, Engine.Footprint;
    AllUsable(samples);
    var n := |samples|;
    if samples[n - 2].terms != samples[n - 1].terms {
      FitRecovers(e, samples[n - 2], samples[n - 1]);
    }
  }

  lemma OneMoreSize(samples: seq<Sample>, x: Sample)
    requires |samples| > 0 && !TwoSizes(samples) && TwoSizes(samples + [x])
    ensures samples[|samples| - 1].terms != x.terms
  {
    var all := samples + [x];
    var i, j :| 0 <= i < |all| && 0 <= j < |all| && all[i].terms != all[j].terms;
    var last := |samples| - 1;
    assert forall k :: 0 <= k < |samples| ==> samples[k].terms == samples[last].terms;
  }

  /** Once legs of two sizes have been measured the model is the engine, and it stays so. */
  lemma {:induction false} HistorySettles(e: Engine, legs: seq<Leg>)
    requires e.Valid() && Measures(e, legs) && TwoSizes(After(legs).samples)
    ensures After(legs).model == Model(e.base, e.slope, true)
  {
    hide Bulk, Engine.Footprint, Model.Refit, Admitted, TwoSizes;
    HistorySamples(e, legs);
    if |legs| == 0 {
      NoSizes([]);
    } else {
      var k := |legs| - 1;
      var before := After(legs[..k]);
      var taken := Taken(before.model, legs[k]);
      if TwoSizes(before.samples) {
        HistorySettles(e, legs[..k]);
        TwoSizesLong(before.samples);
        if taken != [] {
          RefitRecovers(e, before.model, before.samples + taken);
        }
      } else {
        if |before.samples| == 0 {
          NoSizes(before.samples + taken);
        }
        OneMoreSize(before.samples, taken[0]);
        RefitRecovers(e, before.model, before.samples + taken);
      }
    }
  }

  lemma NoSizes(samples: seq<Sample>)
    ensures |samples| < 2 ==> !TwoSizes(samples)
  {
  }

  lemma TwoSizesLong(samples: seq<Sample>)
    requires TwoSizes(samples)
    ensures |samples| >= 2
  {
  }

  /** From then on the gate is exact: a leg with known free memory runs if and only if its footprint fits the headroom. */
  lemma GateIsExact(e: Engine, legs: seq<Leg>, ran: seq<bool>, i: nat)
    requires e.Valid() && Measures(e, legs) && Gated(legs, ran) && i < |legs|
    requires TwoSizes(After(legs[..i]).samples) && legs[i].available.Some?
    ensures ran[i] <==> e.Footprint(legs[i].terms) <= HEADROOM * legs[i].available.value
  {
    hide After, TwoSizes, Bulk;
    HistorySettles(e, legs[..i]);
  }

  lemma BulkSlopes(s: real, t: real, terms: nat)
    requires s <= t
    ensures Bulk(s, terms) <= Bulk(t, terms)
  {
    assert s * terms as real <= t * terms as real;
  }

  /** While one size has been measured, the slope is the prior's and the base at least the prior's. */
  lemma {:induction false} HistoryPrior(e: Engine, legs: seq<Leg>)
    requires e.Valid() && Measures(e, legs) && !TwoSizes(After(legs).samples)
    ensures After(legs).model.slope == FALLBACK_SLOPE && After(legs).model.base >= FALLBACK_BASE
  {
    hide Bulk, Engine.Footprint, Admitted, TwoSizes, FitSlope, Usable;
    HistorySamples(e, legs);
    if |legs| > 0 {
      var k := |legs| - 1;
      var before := After(legs[..k]);
      var taken := Taken(before.model, legs[k]);
      if taken != [] {
        if TwoSizes(before.samples) {
          MoreSizes(before.samples, taken[0]);
        }
        AllUsable(before.samples + taken);
        if |before.samples| >= 1 {
          SameSizes(before.samples + taken);
          RefitRecovers(e, before.model, before.samples + taken);
        }
      }
      HistoryPrior(e, legs[..k]);
    }
  }

  lemma MoreSizes(samples: seq<Sample>, x: Sample)
    requires TwoSizes(samples)
    ensures TwoSizes(samples + [x])
  {
    var i, j :| 0 <= i < |samples| && 0 <= j < |samples| && samples[i].terms != samples[j].terms;
    assert (samples + [x])[i].terms != (samples + [x])[j].terms;
  }

  lemma SameSizes(samples: seq<Sample>)
    requires |samples| >= 2 && !TwoSizes(samples)
    ensures samples[|samples| - 2].terms == samples[|samples| - 1].terms
  {
  }

  /** The gate never admits a leg that would overrun the headroom. */
  ghost predicate GateSafe(e: Engine) {
    forall legs: seq<Leg>, leg: Leg ::
      Measures(e, legs) && Admitted(After(legs).model, leg) && leg.available.Some? ==>
        e.Footprint(leg.terms) <= HEADROOM * leg.available.value
  }

  lemma PessimisticCovers(e: Engine, legs: seq<Leg>, terms: nat)
    requires e.Valid() && Measures(e, legs) && e.base <= FALLBACK_BASE && e.slope <= FALLBACK_SLOPE
    ensures After(legs).model.Projected(terms) >= e.Footprint(terms)
  {
    hide After, TwoSizes, Bulk, Measures;
    if TwoSizes(After(legs).samples) {
      HistorySettles(e, legs);
    } else {
      HistoryPrior(e, legs);
      BulkSlopes(e.slope, FALLBACK_SLOPE, terms);
    }
  }

  /** A size at which a steeper engine outgrows the prior. */
  lemma Outgrown(e: Engine) returns (terms: nat)
    requires e.Valid() && (e.base > FALLBACK_BASE || e.slope > FALLBACK_SLOPE)
    ensures e.Footprint(terms) > PRIOR.Projected(terms)
  {
    if e.base > FALLBACK_BASE {
      terms := 0;
    } else {
      var d, g := e.slope - FALLBACK_SLOPE, (FALLBACK_BASE - e.base) * GIB;
      terms := (g / d).Floor + 1;
      SteeperWins(d, g, terms);
      BulkGap(e.slope, terms);
    }
  }

  lemma SteeperWins(d: real, g: real, terms: int)
    requires d > 0.0 && g >= 0.0 && terms == (g / d).Floor + 1
    ensures terms >= 0 && d * terms as real > g
  {
    var q := g / d;
    assert q * d == g;
    assert terms as real > q;
    assert d * (terms as real - q) > 0.0;
  }

  lemma BulkGap(slope: real, terms: nat)
    ensures Bulk(slope, terms) - Bulk(FALLBACK_SLOPE, terms) == (slope - FALLBACK_SLOPE) * terms as real / GIB
  {
  }

  /** Over every history of legs, the gate is safe exactly for engines the prior is pessimistic about. */
  lemma GateSafety(e: Engine)
    requires e.Valid()
    ensures GateSafe(e) <==> e.base <= FALLBACK_BASE && e.slope <= FALLBACK_SLOPE
  {
    hide After, Bulk, Measures, Model.Projected, Engine.Footprint;
    if e.base <= FALLBACK_BASE && e.slope <= FALLBACK_SLOPE {
      forall legs: seq<Leg>, leg: Leg | Measures(e, legs) && Admitted(After(legs).model, leg) && leg.available.Some?
        ensures e.Footprint(leg.terms) <= HEADROOM * leg.available.value
      {
        PessimisticCovers(e, legs, leg.terms);
      }
    } else {
      var terms := Outgrown(e);
      var leg := Leg(terms, Some(2.0 * PRIOR.Projected(terms)), None);
      AfterNone();
      NothingMeasured(e);
      assert Measures(e, []) && Admitted(After([]).model, leg);
    }
  }

  lemma NothingMeasured(e: Engine)
    ensures Measures(e, [])
  {
  }
}
