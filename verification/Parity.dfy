/**
 Two engines with different boundary rules: one drops a coefficient at or below the cutoff, the other only
 strictly below it.  Handing the second the next representable cutoff makes whole runs identical.
 */
module Parity {
  import opened Complexes
  import opened Paulis
  import opened PauliSums
  import opened Propagation

  // ---- Nonnegative doubles ----

  /** The bit pattern of a nonnegative double; patterns are ordered as the values are. */
  type Double = nat

  const FRACTION_BITS: nat := 52

  /** The value of a bit pattern in units of the smallest subnormal: subnormals as they are, then one binade after another. */
  function Scaled(bits: Double): nat {
    ScaledBy(Pow2(FRACTION_BITS), bits)
  }

  function ScaledBy(top: nat, bits: Double): nat
    requires top > 0
  {
    var binade := BinadeBy(top, bits);
    if binade == 0 then bits else MulNat(top + bits % top, Pow2(binade - 1))
  }

  function MulNat(a: nat, b: nat): nat {
    a * b
  }

  /** `math.nextafter(x, inf)`. */
  function NextAfter(bits: Double): Double {
    bits + 1
  }

  lemma Carry(bits: nat, top: nat)
    requires top > 0
    ensures (bits + 1) % top == if bits % top + 1 == top then 0 else bits % top + 1
    ensures (bits + 1) / top == if bits % top + 1 == top then bits / top + 1 else bits / top
  {
    var q, r := bits / top, bits % top;
    assert bits == top * q + r;
    if r + 1 == top {
      assert bits + 1 == top * (q + 1);
      DivMod(q + 1, 0, top);
    } else {
      assert bits + 1 == top * q + (r + 1);
      DivMod(q, r + 1, top);
    }
  }

  lemma DivMod(q: nat, r: nat, top: nat)
    requires r < top
    ensures (top * q + r) / top == q && (top * q + r) % top == r
  {
    var n := top * q + r;
    var d, m := n / top, n % top;
    assert n == top * d + m && 0 <= m < top;
    Multiples(top, d - q, r - m);
  }

  lemma Multiples(top: int, k: int, e: int)
    requires top * k == e && 0 - top < e < top
    ensures k == 0
  {
    if k >= 1 {
      AtLeast(top, k);
    } else if k <= -1 {
      AtMost(top, k);
    }
  }

  lemma AtMost(top: int, k: int)
    requires k <= -1 && top >= 0
    ensures top * k <= 0 - top
  {
    AtLeast(top, -k);
    assert top * k == 0 - top * -k;
  }

  lemma AtLeast(top: int, k: int)
    requires k >= 1 && top >= 0
    ensures top * k >= top
  {
    assert top * k == top + top * (k - 1);
  }

  /** The next pattern has a larger value, also across a binade. */
  lemma NextIsLarger(bits: Double)
    ensures Scaled(bits) < Scaled(NextAfter(bits))
  {
    hide Pow2, ScaledBy;
    NextIsLargerBy(Pow2(FRACTION_BITS), bits);
  }

  lemma NextIsLargerBy(top: nat, bits: Double)
    requires top > 0
    ensures ScaledBy(top, bits) < ScaledBy(top, bits + 1)
  {
    hide Pow2, MulNat;
    Carry(bits, top);
    var q, r := bits / top, bits % top;
    if q == 0 {
      DivModLaw(bits, top);
      PowZero();
      if r + 1 == top {
        Units(top);
      }
    } else {
      var u := Pow2(q - 1);
      if r + 1 == top {
        PowStep(q);
        Doubled(top, r, u);
      } else {
        Stepped(top, r, u);
      }
    }
  }

  lemma DivModLaw(bits: nat, top: nat)
    requires top > 0 && bits / top == 0
    ensures bits % top == bits
  {
    assert bits == top * (bits / top) + bits % top;
  }

  lemma Units(top: nat)
    ensures MulNat(top, 1) == top == MulNat(top + 0, 1)
  {
  }

  lemma PowZero()
    ensures Pow2(0) == 1
  {
  }

  lemma PowStep(q: nat)
    requires q >= 1
    ensures Pow2(q) == 2 * Pow2(q - 1)
  {
  }

  lemma Doubled(top: nat, r: nat, u: nat)
    requires u > 0 && r < top
    ensures MulNat(top + r, u) < MulNat(top + 0, 2 * u)
  {
    assert MulNat(top + 0, 2 * u) == top * u + top * u;
    assert MulNat(top + r, u) == top * u + r * u;
    LessTimes(r, top, u);
  }

  lemma LessTimes(r: nat, top: nat, u: nat)
    requires u > 0 && r < top
    ensures r * u < top * u
  {
  }

  lemma Stepped(top: nat, r: nat, u: nat)
    requires u > 0
    ensures MulNat(top + r, u) < MulNat(top + (r + 1), u)
  {
    assert (top + (r + 1)) * u == (top + r) * u + u;
  }

  /** What separates a double from the next: one unit in the subnormals and the first binade, doubling with every binade after. */
  lemma SpacingDoubles(bits: Double)
    ensures Scaled(0) == 0
    ensures Scaled(NextAfter(bits)) == Scaled(bits) + Unit(Binade(bits))
  {
    hide Pow2, ScaledBy, Unit;
    SpacingBy(Pow2(FRACTION_BITS), bits);
    SpacingBy(Pow2(FRACTION_BITS), 0);
  }

  /** The exponent field. */
  function Binade(bits: Double): nat {
    BinadeBy(Pow2(FRACTION_BITS), bits)
  }

  function BinadeBy(top: nat, bits: Double): nat
    requires top > 0
  {
    bits / top
  }

  function Unit(binade: nat): nat {
    if binade == 0 then 1 else Pow2(binade - 1)
  }

  lemma SpacingBy(top: nat, bits: Double)
    requires top > 0
    ensures ScaledBy(top, 0) == 0
    ensures ScaledBy(top, bits + 1) == ScaledBy(top, bits) + Unit(BinadeBy(top, bits))
  {
    hide Pow2, MulNat;
    Carry(bits, top);
    DivMod(0, 0, top);
    var q, r := bits / top, bits % top;
    if q == 0 {
      DivModLaw(bits, top);
      PowZero();
      Units(top);
    } else {
      var u := Pow2(q - 1);
      if r + 1 == top {
        PowStep(q);
        WholeBinade(top, r, u);
      } else {
        OneUnit(top, r, u);
      }
    }
  }

  lemma WholeBinade(top: nat, r: nat, u: nat)
    requires r + 1 == top
    ensures MulNat(top + 0, 2 * u) == MulNat(top + r, u) + u
  {
    assert (top + r) * u + u == (top + top) * u;
  }

  lemma OneUnit(top: nat, r: nat, u: nat)
    ensures MulNat(top + (r + 1), u) == MulNat(top + r, u) + u
  {
  }

  lemma {:induction false} ScaledIncreases(a: Double, b: Double)
    requires a < b
    ensures Scaled(a) < Scaled(b)
    decreases b - a
  {
    hide Scaled;
    NextIsLarger(a);
    if a + 1 < b {
      ScaledIncreases(a + 1, b);
    }
  }

  /** No double lies strictly between a cutoff and its successor: strictly below the successor is at or below the cutoff. */
  lemma SuccessorClosesGap(c: Double, eps: Double)
    ensures Scaled(c) < Scaled(NextAfter(eps)) <==> Scaled(c) <= Scaled(eps)
  {
    hide Scaled;
    NextIsLarger(eps);
    if c < eps {
      ScaledIncreases(c, eps);
    } else if eps < c {
      ScaledIncreases(eps, c);
      if eps + 1 < c {
        ScaledIncreases(eps + 1, c);
      }
    }
  }

  /** A double with its sign. */
  datatype Signed = Signed(negative: bool, bits: Double)

  datatype Cutoff = Cutoff(bits: Double) | NotPositive

  /** `julia_min_abs_coeff`: refuses a cutoff that is negative or zero. */
  function JuliaMinAbsCoeff(eps: Signed): (r: Cutoff)
    ensures r.NotPositive? <==> eps.negative || Scaled(eps.bits) == 0
    ensures r.Cutoff? ==> forall c: Double :: Scaled(c) < Scaled(r.bits) <==> Scaled(c) <= Scaled(eps.bits)
  {
    assert (forall c: Double :: Scaled(c) < Scaled(NextAfter(eps.bits)) <==> Scaled(c) <= Scaled(eps.bits)) by {
      hide Scaled;
      forall c: Double ensures Scaled(c) < Scaled(NextAfter(eps.bits)) <==> Scaled(c) <= Scaled(eps.bits) {
        SuccessorClosesGap(c, eps.bits);
      }
    }
    if eps.negative || Scaled(eps.bits) == 0 then NotPositive else Cutoff(NextAfter(eps.bits))
  }

  // ---- Two engines ----

  /** This engine keeps magnitudes above the cutoff. */
  function InclusiveDrop(magnitude: Complex -> Double, eps: Double): Term -> bool {
    (t: Term) => !(Scaled(magnitude(t.c)) <= Scaled(eps))
  }

  /** The other engine drops magnitudes strictly below its cutoff. */
  function StrictDrop(magnitude: Complex -> Double, eps: Double): Term -> bool {
    (t: Term) => !(Scaled(magnitude(t.c)) < Scaled(eps))
  }

  /** The rules on bit patterns: one engine keeps what lies above its cutoff, the other also what lies at it. */
  lemma RulesMean(magnitude: Complex -> Double, eps: Double, t: Term)
    ensures InclusiveDrop(magnitude, eps)(t) <==> magnitude(t.c) > eps
    ensures StrictDrop(magnitude, eps)(t) <==> magnitude(t.c) >= eps
  {
    hide Scaled;
    var m := magnitude(t.c);
    if m < eps {
      ScaledIncreases(m, eps);
    } else if eps < m {
      ScaledIncreases(eps, m);
    }
  }

  /** After a gate, either engine holds exactly the merged rows its rule keeps. */
  lemma GateKeeps(n: nat, gs: seq<Rotation>, ts: seq<Term>, magnitude: Complex -> Double, eps: Double, t: Term)
    requires CircuitOn(n, gs) && OnQubits(n, ts) && Distinct(ts) && |gs| > 0
    ensures
      var keep := InclusiveDrop(magnitude, eps);
      var inner := Run(n, gs[1..], keep, ts);
      t in Run(n, gs, keep, ts) <==> t in Merge(Emit(gs[0], inner)) && t.c != ZERO && magnitude(t.c) > eps
    ensures
      var keep := StrictDrop(magnitude, eps);
      var inner := Run(n, gs[1..], keep, ts);
      t in Run(n, gs, keep, ts) <==> t in Merge(Emit(gs[0], inner)) && t.c != ZERO && magnitude(t.c) >= eps
  {
    hide Merge, Emit, Kept, InclusiveDrop, StrictDrop, OnQubits, Distinct;
    RulesMean(magnitude, eps, t);
    var low, high := InclusiveDrop(magnitude, eps), StrictDrop(magnitude, eps);
    InKept(low, Merge(Emit(gs[0], Run(n, gs[1..], low, ts))), t);
    InKept(high, Merge(Emit(gs[0], Run(n, gs[1..], high, ts))), t);
  }

  lemma {:induction false} SameKept(keep: Term -> bool, keep': Term -> bool, ts: seq<Term>)
    requires forall t :: keep(t) == keep'(t)
    ensures Kept(keep, ts) == Kept(keep', ts)
  {
    if |ts| > 0 {
      SameKept(keep, keep', ts[1..]);
    }
  }

  /** Term counts after every gate, in application order. */
  function LayerCounts(n: nat, gs: seq<Rotation>, keep: Term -> bool, ts: seq<Term>): seq<nat>
    requires CircuitOn(n, gs) && OnQubits(n, ts) && Distinct(ts)
  {
    if |gs| == 0 then [] else LayerCounts(n, gs[1..], keep, ts) + [|Run(n, gs, keep, ts)|]
  }

  /** Entry `i` is the number of terms after `i + 1` gates, the last gate first. */
  lemma {:induction false} LayerCountAt(n: nat, gs: seq<Rotation>, keep: Term -> bool, ts: seq<Term>, i: nat)
    requires CircuitOn(n, gs) && OnQubits(n, ts) && Distinct(ts) && i < |gs|
    ensures |LayerCounts(n, gs, keep, ts)| == |gs|
    ensures CircuitOn(n, gs[|gs| - 1 - i..])
    ensures LayerCounts(n, gs, keep, ts)[i] == |Run(n, gs[|gs| - 1 - i..], keep, ts)|
  {
    hide Run, OnQubits, Distinct, Rotation.On;
    CountsSize(n, gs, keep, ts);
    CountsSize(n, gs[1..], keep, ts);
    if i == |gs| - 1 {
      assert gs[0..] == gs;
    } else {
      LayerCountAt(n, gs[1..], keep, ts, i);
      assert gs[1..][|gs| - 2 - i..] == gs[|gs| - 1 - i..];
    }
  }

  lemma {:induction false} CountsSize(n: nat, gs: seq<Rotation>, keep: Term -> bool, ts: seq<Term>)
    requires CircuitOn(n, gs) && OnQubits(n, ts) && Distinct(ts)
    ensures |LayerCounts(n, gs, keep, ts)| == |gs|
  {
    hide Run, OnQubits, Distinct, Rotation.On;
    if |gs| > 0 {
      CountsSize(n, gs[1..], keep, ts);
    }
  }

  lemma {:induction false} SameRun(n: nat, gs: seq<Rotation>, keep: Term -> bool, keep': Term -> bool, ts: seq<Term>)
    requires CircuitOn(n, gs) && OnQubits(n, ts) && Distinct(ts) && forall t :: keep(t) == keep'(t)
    ensures Run(n, gs, keep, ts) == Run(n, gs, keep', ts)
    ensures LayerCounts(n, gs, keep, ts) == LayerCounts(n, gs, keep', ts)
  {
    hide Merge, Emit, Kept, OnQubits, Distinct;
    if |gs| > 0 {
      SameRun(n, gs[1..], keep, keep', ts);
      var inner := Run(n, gs[1..], keep, ts);
      LayerKeys(n, gs[0], keep, inner);
      SameKept(keep, keep', Merge(Emit(gs[0], inner)));
    }
  }

  // ---- The parity check ----

  datatype Option<T> = None | Some(value: T)

  datatype Problem = NoCounts | LayerCount(rust: nat, julia: nat) | CountsDiffer(bad: nat, layers: nat)

  /** Positions where two equally long lists differ. */
  function Differences(a: seq<nat>, b: seq<nat>): nat
    requires |a| == |b|
  {
    if |a| == 0 then 0 else Differences(a[..|a| - 1], b[..|a| - 1]) + Bit(a[|a| - 1] != b[|a| - 1])
  }

  /** As a set of positions. */
  function Differing(a: seq<nat>, b: seq<nat>): set<nat>
    requires |a| == |b|
  {
    set i | 0 <= i < |a| && a[i] != b[i]
  }

  lemma {:induction false} DifferencesCounted(a: seq<nat>, b: seq<nat>)
    requires |a| == |b|
    ensures Differences(a, b) == |Differing(a, b)|
  {
    if |a| > 0 {
      var k := |a| - 1;
      var c, d := a[..k], b[..k];
      DifferencesCounted(c, d);
      var before, all := Differing(c, d), Differing(a, b);
      assert forall i :: 0 <= i < k ==> c[i] == a[i] && d[i] == b[i];
      if a[k] != b[k] {
        assert all == before + {k};
      } else {
        assert all == before;
      }
    }
  }

  lemma DifferencesStep(a: seq<nat>, b: seq<nat>, i: nat)
    requires |a| == |b| && i <= |a|
    ensures Differences(a[..0], b[..0]) == 0
    ensures i < |a| ==> Differences(a[..i + 1], b[..i + 1]) == Differences(a[..i], b[..i]) + if a[i] != b[i] then 1 else 0
  {
    if i < |a| {
      assert a[..i + 1][..i] == a[..i] && b[..i + 1][..i] == b[..i];
    }
  }

  /** `check_parity`: no problem is reported exactly when the second engine reported the same counts. */
  method CheckParity(rust: seq<nat>, julia: Option<seq<nat>>) returns (problems: seq<Problem>)
    ensures problems == [] <==> julia == Some(rust)
    ensures julia == None ==> problems == [NoCounts]
    ensures julia.Some? && |julia.value| != |rust| ==> problems == [LayerCount(|rust|, |julia.value|)]
    ensures julia.Some? && |julia.value| == |rust| && julia.value != rust ==>
              problems == [CountsDiffer(|Differing(rust, julia.value)|, |rust|)]
  {
    hide Differing, Differences;
    if julia == None {
      return [NoCounts];
    }
    var counts := julia.value;
    if |rust| != |counts| {
      return [LayerCount(|rust|, |counts|)];
    }
    var bad := 0;
    DifferencesStep(rust, counts, 0);
    for i := 0 to |rust|
      invariant bad == Differences(rust[..i], counts[..i])
      invariant bad == 0 <==> rust[..i] == counts[..i]
    {
      DifferencesStep(rust, counts, i);
      assert rust[..i + 1] == rust[..i] + [rust[i]] && counts[..i + 1] == counts[..i] + [counts[i]];
      if rust[i] != counts[i] {
        bad := bad + 1;
      }
    }
    assert rust[..|rust|] == rust && counts[..|rust|] == counts;
    DifferencesCounted(rust, counts);
    if bad > 0 {
      return [CountsDiffer(bad, |rust|)];
    }
    return [];
  }

  /**
   With the shifted cutoff both engines' runs, truncating after every gate, have identical sums and
   identical per-layer counts, for every circuit, observable and way of rounding magnitudes.
   */
  lemma ShiftedRunsAgree(n: nat, gs: seq<Rotation>, ts: seq<Term>, magnitude: Complex -> Double, eps: Signed)
    requires CircuitOn(n, gs) && OnQubits(n, ts) && Distinct(ts) && JuliaMinAbsCoeff(eps).Cutoff?
    ensures
      var here, there := InclusiveDrop(magnitude, eps.bits), StrictDrop(magnitude, JuliaMinAbsCoeff(eps).bits);
      && Run(n, gs, here, ts) == Run(n, gs, there, ts)
      && LayerCounts(n, gs, here, ts) == LayerCounts(n, gs, there, ts)
  {
    hide Scaled, Run, LayerCounts, CircuitOn, OnQubits, Distinct;
    var here, there := InclusiveDrop(magnitude, eps.bits), StrictDrop(magnitude, JuliaMinAbsCoeff(eps).bits);
    forall t ensures here(t) == there(t) {
      assert Scaled(magnitude(t.c)) < Scaled(JuliaMinAbsCoeff(eps).bits) <==> Scaled(magnitude(t.c)) <= Scaled(eps.bits);
    }
    SameRun(n, gs, here, there, ts);
  }

  datatype Leg = Compared(problems: seq<Problem>) | BadCutoff

  /** A parity leg: run both engines, the second with the shifted cutoff, and compare their layers; it never finds a problem. */
  method ParityLeg(n: nat, gs: seq<Rotation>, ts: seq<Term>, magnitude: Complex -> Double, eps: Signed) returns (leg: Leg)
    requires CircuitOn(n, gs) && OnQubits(n, ts) && Distinct(ts)
    ensures leg == BadCutoff <==> eps.negative || Scaled(eps.bits) == 0
    ensures leg.Compared? ==> leg.problems == []
  {
    hide Scaled, Run, LayerCounts, CircuitOn, OnQubits, Distinct;
    var shifted := JuliaMinAbsCoeff(eps);
    if shifted.NotPositive? {
      return BadCutoff;
    }
    var rust := LayerCounts(n, gs, InclusiveDrop(magnitude, eps.bits), ts);
    var julia := LayerCounts(n, gs, StrictDrop(magnitude, shifted.bits), ts);
    ShiftedRunsAgree(n, gs, ts, magnitude, eps);
    var problems := CheckParity(rust, Some(julia));
    return Compared(problems);
  }

  /** The two engines' rules at one shared cutoff differ exactly on coefficients at that cutoff. */
  lemma UnshiftedRulesDiffer(magnitude: Complex -> Double, eps: Double, t: Term)
    ensures InclusiveDrop(magnitude, eps)(t) != StrictDrop(magnitude, eps)(t) <==> magnitude(t.c) == eps
  {
    hide Scaled;
    var m := magnitude(t.c);
    if m < eps {
      ScaledIncreases(m, eps);
    } else if eps < m {
      ScaledIncreases(eps, m);
    }
  }
}
