/**
 Clifford gates as the signed permutations of Pauli strings that `clifford.rs` tabulates, and random
 identity padding.
 */
module Cliffords {
  import opened Paulis

  /** A Pauli string with a sign. */
  datatype Signed = Signed(p: Pauli, neg: bool)

  datatype Gate = H(q: nat) | S(q: nat) | Cnot(a: nat, b: nat) | Cz(a: nat, b: nat) {
    /** In range, and the two targets of a two-qubit gate differ. */
    predicate On(n: nat) {
      match this
      case H(q) => q < n
      case S(q) => q < n
      case Cnot(a, b) => a < n && b < n && a != b
      case Cz(a, b) => a < n && b < n && a != b
    }
  }

  predicate GatesOn(n: nat, gs: seq<Gate>) {
    forall i :: 0 <= i < |gs| ==> gs[i].On(n)
  }

  // ---- Tables ----

  /** The Pauli index `x | z << 1` of one qubit. */
  function Index1(x: bool, z: bool): (r: nat)
    ensures r < 4
  {
    Bit(x) + 2 * Bit(z)
  }

  /** `clifford_1q`: the image table and the set of negated inputs. */
  datatype Table = Table(image: seq<nat>, negated: set<nat>)

  const HADAMARD := Table([0, 2, 1, 3], {3})
  const PHASE_GATE := Table([0, 3, 2, 1], {3})

  /** A two-qubit Pauli `(x0, z0, x1, z1)`. */
  datatype Pair = Pair(x0: bool, z0: bool, x1: bool, z1: bool)

  const CNOT_IMAGES := [Pair(true, false, true, false), Pair(false, true, false, false), Pair(false, false, true, false), Pair(false, true, false, true)]
  const CZ_IMAGES := [Pair(true, false, false, true), Pair(false, true, false, false), Pair(false, true, true, false), Pair(false, false, false, true)]

  function Times(a: Pair, b: Pair): Pair {
    Pair(a.x0 != b.x0, a.z0 != b.z0, a.x1 != b.x1, a.z1 != b.z1)
  }

  /** The phase exponent `mul_assign` returns on two qubits. */
  function TimesPhase(a: Pair, b: Pair): int {
    Phase1(a.x0, a.z0, b.x0, b.z0) + Phase1(a.x1, a.z1, b.x1, b.z1)
  }

  datatype Phased = Phased(pair: Pair, phase: int) {
    function Then(use: bool, image: Pair): Phased {
      if use then Phased(Times(pair, image), phase + TimesPhase(pair, image)) else this
    }
  }

  /** `clifford_2q`: the images of `X0, Z0, X1, Z1` multiplied out, one `i` per input `Y`. */
  function Image2(images: seq<Pair>, input: Pair): Phased
    requires |images| == 4
  {
    var product := Phased(Pair(false, false, false, false), 0)
      .Then(input.x0, images[0]).Then(input.z0, images[1]).Then(input.x1, images[2]).Then(input.z1, images[3]);
    Phased(product.pair, product.phase + Bit(input.x0 && input.z0) + Bit(input.x1 && input.z1))
  }

  lemma PhaseTable(a: bool, b: bool)
    ensures Phase1(a, b, false, false) == 0
    ensures Phase1(a, b, false, true) == if !a then 0 else if b then 1 else -1
    ensures Phase1(a, b, true, false) == if !b then 0 else if a then 3 else 1
  {
  }

  /** Multiplying by `X` or `Z` on either qubit, or by one on each. */
  lemma TimesRule(p: Phased, use: bool, image: Pair)
    requires !(image.x0 && image.z0) && !(image.x1 && image.z1)
    ensures
      var r, q := p.Then(use, image), p.pair;
      && r.pair == Pair(q.x0 != (use && image.x0), q.z0 != (use && image.z0), q.x1 != (use && image.x1), q.z1 != (use && image.z1))
      && r.phase == p.phase
           + (if use && image.z0 && q.x0 then (if q.z0 then 1 else -1) else 0) + (if use && image.x0 && q.z0 then (if q.x0 then 3 else 1) else 0)
           + (if use && image.z1 && q.x1 then (if q.z1 then 1 else -1) else 0) + (if use && image.x1 && q.z1 then (if q.x1 then 3 else 1) else 0)
  {
    hide Phase1;
    PhaseTable(p.pair.x0, p.pair.z0); PhaseTable(p.pair.x1, p.pair.z1);
  }

  /** CZ: each `X` puts a `Z` on the other qubit; the sign is real. */
  lemma CzImage(i: Pair)
    ensures
      var r := Image2(CZ_IMAGES, i);
      && r.pair == Pair(i.x0, i.z0 != i.x1, i.x1, i.z1 != i.x0)
      && r.phase % 4 == if i.x0 && i.x1 && i.z0 != i.z1 then 2 else 0
  {
    hide Phased.Then;
    var e := Phased(Pair(false, false, false, false), 0);
    TimesRule(e, i.x0, CZ_IMAGES[0]);
    var a := e.Then(i.x0, CZ_IMAGES[0]);
    TimesRule(a, i.z0, CZ_IMAGES[1]);
    var b := a.Then(i.z0, CZ_IMAGES[1]);
    TimesRule(b, i.x1, CZ_IMAGES[2]);
    TimesRule(b.Then(i.x1, CZ_IMAGES[2]), i.z1, CZ_IMAGES[3]);
  }

  /** CNOT: `X` spreads to the target and `Z` to the control; the sign is real. */
  lemma CnotImage(i: Pair)
    ensures
      var r := Image2(CNOT_IMAGES, i);
      && r.pair == Pair(i.x0, i.z0 != i.z1, i.x1 != i.x0, i.z1)
      && r.phase % 4 == if i.x0 && i.z1 && i.x1 == i.z0 then 2 else 0
  {
    hide Phased.Then;
    var e := Phased(Pair(false, false, false, false), 0);
    TimesRule(e, i.x0, CNOT_IMAGES[0]);
    var a := e.Then(i.x0, CNOT_IMAGES[0]);
    TimesRule(a, i.z0, CNOT_IMAGES[1]);
    var b := a.Then(i.z0, CNOT_IMAGES[1]);
    TimesRule(b, i.x1, CNOT_IMAGES[2]);
    TimesRule(b.Then(i.x1, CNOT_IMAGES[2]), i.z1, CNOT_IMAGES[3]);
  }

  // ---- Pushing a signed string through a gate ----

  function With(p: Pauli, q: nat, x: bool, z: bool): (r: Pauli)
    requires p.On(|p.x|) && q < |p.x|
    ensures r.On(|p.x|)
  {
    Pauli(p.x[q := x], p.z[q := z])
  }

  function Apply1(t: Table, q: nat, s: Signed): (r: Signed)
    requires |t.image| == 4 && s.p.On(|s.p.x|) && q < |s.p.x|
    ensures r.p.On(|s.p.x|)
  {
    var i := Index1(s.p.x[q], s.p.z[q]);
    var o := t.image[i];
    Signed(With(s.p, q, o % 2 == 1, o / 2 % 2 == 1), s.neg != (i in t.negated))
  }

  function Apply2(images: seq<Pair>, a: nat, b: nat, s: Signed): (r: Signed)
    requires |images| == 4 && s.p.On(|s.p.x|) && a < |s.p.x| && b < |s.p.x|
    ensures r.p.On(|s.p.x|)
  {
    var o := Image2(images, Pair(s.p.x[a], s.p.z[a], s.p.x[b], s.p.z[b]));
    Signed(With(With(s.p, a, o.pair.x0, o.pair.z0), b, o.pair.x1, o.pair.z1), s.neg != (o.phase % 4 == 2))
  }

  function ApplyGate(g: Gate, s: Signed): (r: Signed)
    requires s.p.On(|s.p.x|) && g.On(|s.p.x|)
    ensures r.p.On(|s.p.x|)
  {
    match g
    case H(q) => Apply1(HADAMARD, q, s)
    case S(q) => Apply1(PHASE_GATE, q, s)
    case Cnot(a, b) => Apply2(CNOT_IMAGES, a, b, s)
    case Cz(a, b) => Apply2(CZ_IMAGES, a, b, s)
  }

  /** A whole circuit in time order. */
  function Push(gs: seq<Gate>, s: Signed): (r: Signed)
    requires s.p.On(|s.p.x|) && GatesOn(|s.p.x|, gs)
    ensures r.p.On(|s.p.x|)
  {
    if |gs| == 0 then s else ApplyGate(gs[|gs| - 1], Push(gs[..|gs| - 1], s))
  }

  lemma {:induction false} PushConcat(gs: seq<Gate>, hs: seq<Gate>, s: Signed)
    requires s.p.On(|s.p.x|) && GatesOn(|s.p.x|, gs) && GatesOn(|s.p.x|, hs)
    ensures Push(gs + hs, s) == Push(hs, Push(gs, s))
    decreases |hs|
  {
    hide ApplyGate;
    if |hs| == 0 {
      assert gs + hs == gs;
    } else {
      var k := |hs| - 1;
      assert (gs + hs)[..|gs + hs| - 1] == gs + hs[..k];
      PushConcat(gs, hs[..k], s);
    }
  }

  lemma PushTwo(g: Gate, h: Gate, s: Signed)
    requires s.p.On(|s.p.x|) && g.On(|s.p.x|) && h.On(|s.p.x|)
    ensures Push([g, h], s) == ApplyGate(h, ApplyGate(g, s))
  {
    hide ApplyGate, Push;
    PushStep([], g, s); PushStep([g], h, s);
    assert [] + [g] == [g] && [g] + [h] == [g, h];
  }

  lemma PushStep(gs: seq<Gate>, g: Gate, s: Signed)
    requires s.p.On(|s.p.x|) && GatesOn(|s.p.x|, gs) && g.On(|s.p.x|)
    ensures GatesOn(|s.p.x|, gs + [g])
    ensures Push(gs + [g], s) == ApplyGate(g, Push(gs, s))
    ensures Push([], s) == s
  {
    hide ApplyGate;
    assert (gs + [g])[..|gs|] == gs;
  }

  /** The rules of the four gates, bit by bit. */
  lemma GateRule(g: Gate, s: Signed)
    requires s.p.On(|s.p.x|) && g.On(|s.p.x|)
    ensures
      var p, r := s.p, ApplyGate(g, s);
      match g
      case H(q) => r == Signed(With(p, q, p.z[q], p.x[q]), s.neg != (p.x[q] && p.z[q]))
      case S(q) => r == Signed(With(p, q, p.x[q], p.z[q] != p.x[q]), s.neg != (p.x[q] && p.z[q]))
      case Cnot(a, b) => r == Signed(With(With(p, a, p.x[a], p.z[a] != p.z[b]), b, p.x[b] != p.x[a], p.z[b]),
                                     s.neg != (p.x[a] && p.z[b] && p.x[b] == p.z[a]))
      case Cz(a, b) => r == Signed(With(With(p, a, p.x[a], p.z[a] != p.x[b]), b, p.x[b], p.z[b] != p.x[a]),
                                   s.neg != (p.x[a] && p.x[b] && p.z[a] != p.z[b]))
  {
    hide Image2, With, ApplyGate;
    match g
    case H(q) => HadamardRule(q, s);
    case S(q) => PhaseRule(q, s);
    case Cnot(a, b) => CnotRule(a, b, s);
    case Cz(a, b) => CzRule(a, b, s);
  }

  lemma HadamardRule(q: nat, s: Signed)
    requires s.p.On(|s.p.x|) && q < |s.p.x|
    ensures ApplyGate(H(q), s) == Signed(With(s.p, q, s.p.z[q], s.p.x[q]), s.neg != (s.p.x[q] && s.p.z[q]))
  {
    hide With;
  }

  lemma PhaseRule(q: nat, s: Signed)
    requires s.p.On(|s.p.x|) && q < |s.p.x|
    ensures ApplyGate(S(q), s) == Signed(With(s.p, q, s.p.x[q], s.p.z[q] != s.p.x[q]), s.neg != (s.p.x[q] && s.p.z[q]))
  {
    hide With;
  }

  lemma CnotRule(a: nat, b: nat, s: Signed)
    requires s.p.On(|s.p.x|) && a < |s.p.x| && b < |s.p.x| && a != b
    ensures
      var p := s.p;
      ApplyGate(Cnot(a, b), s)
      == Signed(With(With(p, a, p.x[a], p.z[a] != p.z[b]), b, p.x[b] != p.x[a], p.z[b]), s.neg != (p.x[a] && p.z[b] && p.x[b] == p.z[a]))
  {
    hide Image2, With;
    CnotImage(Pair(s.p.x[a], s.p.z[a], s.p.x[b], s.p.z[b]));
  }

  lemma CzRule(a: nat, b: nat, s: Signed)
    requires s.p.On(|s.p.x|) && a < |s.p.x| && b < |s.p.x| && a != b
    ensures
      var p := s.p;
      ApplyGate(Cz(a, b), s)
      == Signed(With(With(p, a, p.x[a], p.z[a] != p.x[b]), b, p.x[b], p.z[b] != p.x[a]), s.neg != (p.x[a] && p.x[b] && p.z[a] != p.z[b]))
  {
    hide Image2, With;
    CzImage(Pair(s.p.x[a], s.p.z[a], s.p.x[b], s.p.z[b]));
  }

  // ---- Identity padding ----

  /** H, CNOT and CZ undo themselves. */
  lemma Involution(g: Gate, s: Signed)
    requires s.p.On(|s.p.x|) && g.On(|s.p.x|) && !g.S?
    ensures ApplyGate(g, ApplyGate(g, s)) == s
  {
    hide ApplyGate;
    match g
    case H(_) => HadamardTwice(g, s);
    case Cnot(_, _) => CnotTwice(g, s);
    case Cz(_, _) => CzTwice(g, s);
  }

  lemma HadamardTwice(g: Gate, s: Signed)
    requires s.p.On(|s.p.x|) && g.On(|s.p.x|) && g.H?
    ensures ApplyGate(g, ApplyGate(g, s)) == s
  {
    hide ApplyGate;
    GateRule(g, s); GateRule(g, ApplyGate(g, s));
    SameString(ApplyGate(g, ApplyGate(g, s)).p, s.p);
  }

  lemma CnotTwice(g: Gate, s: Signed)
    requires s.p.On(|s.p.x|) && g.On(|s.p.x|) && g.Cnot?
    ensures ApplyGate(g, ApplyGate(g, s)) == s
  {
    hide ApplyGate;
    GateRule(g, s); GateRule(g, ApplyGate(g, s));
    SameString(ApplyGate(g, ApplyGate(g, s)).p, s.p);
  }

  lemma CzTwice(g: Gate, s: Signed)
    requires s.p.On(|s.p.x|) && g.On(|s.p.x|) && g.Cz?
    ensures ApplyGate(g, ApplyGate(g, s)) == s
  {
    hide ApplyGate;
    GateRule(g, s); GateRule(g, ApplyGate(g, s));
    SameString(ApplyGate(g, ApplyGate(g, s)).p, s.p);
  }

  lemma SameString(p: Pauli, q: Pauli)
    requires p.On(|q.x|) && q.On(|q.x|)
    requires forall i :: 0 <= i < |q.x| ==> p.x[i] == q.x[i] && p.z[i] == q.z[i]
    ensures p == q
  {
    assert p.x == q.x && p.z == q.z;
  }

  /** Two phase gates are a Pauli `Z`: they only change signs. */
  lemma PhaseTwice(q: nat, s: Signed)
    requires s.p.On(|s.p.x|) && q < |s.p.x|
    ensures ApplyGate(S(q), ApplyGate(S(q), s)) == Signed(s.p, s.neg != s.p.x[q])
  {
    hide ApplyGate;
    var t := ApplyGate(S(q), s);
    GateRule(S(q), s); GateRule(S(q), t);
    SameString(ApplyGate(S(q), t).p, s.p);
  }

  datatype PaddingError = NegativeRounds | TooFewQubits

  datatype Result<T> = Ok(value: T) | Err(error: PaddingError)

  /** What one round draws: the pattern, a target, and a second target out of one value fewer. */
  datatype Draw = Draw(kind: nat, a: nat, b: nat) {
    predicate On(n: nat) {
      kind < 4 && a < n && b < n - 1
    }
  }

  /** One padding round. */
  function Round(d: Draw): seq<Gate> {
    var b := if d.b >= d.a then d.b + 1 else d.b;
    if d.kind == 0 then [H(d.a), H(d.a)]
    else if d.kind == 1 then [S(d.a), S(d.a), S(d.a), S(d.a)]
    else if d.kind == 2 then [Cnot(d.a, b), Cnot(d.a, b)]
    else [Cz(d.a, b), Cz(d.a, b)]
  }

  /**
   The draw decides the round: Hadamards, phase gates, CNOTs or CZs, all on the drawn qubit; a second target is
   number `b` among the other qubits.
   */
  lemma RoundGates(n: nat, d: Draw, i: nat)
    requires d.On(n) && i < |Round(d)|
    ensures |Round(d)| == if d.kind == 1 then 4 else 2
    ensures
      match Round(d)[i]
      case H(q) => d.kind == 0 && q == d.a
      case S(q) => d.kind == 1 && q == d.a
      case Cnot(q, t) => d.kind == 2 && q == d.a && t != d.a && d.b == if t < d.a then t else t - 1
      case Cz(q, t) => d.kind == 3 && q == d.a && t != d.a && d.b == if t < d.a then t else t - 1
  {
  }

  /** The rounds of all draws, in order. */
  function Rounds(draws: seq<Draw>): seq<Gate> {
    if |draws| == 0 then [] else Rounds(draws[..|draws| - 1]) + Round(draws[|draws| - 1])
  }

  /** Every round has valid, distinct targets and acts as the identity. */
  lemma RoundIsIdentity(n: nat, d: Draw, s: Signed)
    requires d.On(n) && s.p.On(n)
    ensures GatesOn(n, Round(d)) && Push(Round(d), s) == s
  {
    hide ApplyGate, Push;
    var b := if d.b >= d.a then d.b + 1 else d.b;
    if d.kind == 1 {
      var g := S(d.a);
      assert Round(d) == [g, g] + [g, g];
      PushConcat([g, g], [g, g], s);
      PushTwo(g, g, s); PhaseTwice(d.a, s);
      var t := Push([g, g], s);
      PushTwo(g, g, t); PhaseTwice(d.a, t);
    } else {
      var g := if d.kind == 0 then H(d.a) else if d.kind == 2 then Cnot(d.a, b) else Cz(d.a, b);
      assert Round(d) == [g, g];
      PushTwo(g, g, s);
      Involution(g, s);
    }
  }

  /** The identity on every signed string. */
  ghost predicate ActsAsIdentity(n: nat, gs: seq<Gate>)
    requires GatesOn(n, gs)
  {
    forall s: Signed :: s.p.On(n) ==> Push(gs, s) == s
  }

  /** `identity_padding`: whatever is drawn, the circuit is valid and leaves every signed string unchanged. */
  method IdentityPadding(n: int, rounds: int, draws: seq<Draw>) returns (r: Result<seq<Gate>>)
    requires n >= 2 && rounds >= 0 ==> |draws| == rounds && forall i :: 0 <= i < |draws| ==> draws[i].On(n)
    ensures r == Err(NegativeRounds) <==> rounds < 0
    ensures r == Err(TooFewQubits) <==> rounds >= 0 && n < 2
    ensures r.Ok? ==> GatesOn(n, r.value) && ActsAsIdentity(n, r.value)
    ensures r.Ok? ==> r.value == Rounds(draws)
    ensures r.Ok? ==> 2 * rounds <= |r.value| <= 4 * rounds
  {
    if rounds < 0 {
      return Err(NegativeRounds);
    }
    if n < 2 {
      return Err(TooFewQubits);
    }
    hide ActsAsIdentity, GatesOn, Round;
    var gs: seq<Gate> := [];
    NoPadding(n);
    for k := 0 to rounds
      invariant GatesOn(n, gs) && ActsAsIdentity(n, gs) && 2 * k <= |gs| <= 4 * k
      invariant gs == Rounds(draws[..k])
    {
      assert draws[..k + 1][..k] == draws[..k];
      PaddingStep(n, gs, draws[k]);
      gs := gs + Round(draws[k]);
    }
    assert draws[..rounds] == draws;
    return Ok(gs);
  }

  lemma NoPadding(n: nat)
    ensures GatesOn(n, []) && ActsAsIdentity(n, [])
  {
  }

  lemma PaddingStep(n: nat, gs: seq<Gate>, d: Draw)
    requires GatesOn(n, gs) && ActsAsIdentity(n, gs) && d.On(n)
    ensures GatesOn(n, gs + Round(d)) && ActsAsIdentity(n, gs + Round(d)) && 2 <= |Round(d)| <= 4
  {
    RoundIsIdentity(n, d, Signed(IdentityKey(n), false));
    RoundSize(d);
    hide ApplyGate, Push, Round;
    forall s: Signed | s.p.On(n) ensures Push(gs + Round(d), s) == s {
      PushConcat(gs, Round(d), s);
      RoundIsIdentity(n, d, s);
    }
  }

  lemma RoundSize(d: Draw)
    ensures 2 <= |Round(d)| <= 4
  {
  }

  /** Appending padding to any circuit changes no generator it produces. */
  lemma PaddingKeepsGenerators(n: nat, prep: seq<Gate>, padding: seq<Gate>, s: Signed)
    requires GatesOn(n, prep) && GatesOn(n, padding) && ActsAsIdentity(n, padding) && s.p.On(n)
    ensures Push(prep + padding, s) == Push(prep, s)
  {
    hide Push;
    PushConcat(prep, padding, s);
  }
}
