/**
 The causal cone of the kicked-Ising Trotter circuit: one commuting ZZ layer per step moves the
 boundary of an operator by at most one bond.
 */
module CausalCone {
  import opened Paulis
  import opened PauliSums
  import opened Propagation

  type Edge = (nat, nat)

  predicate EdgesOn(n: nat, edges: seq<Edge>) {
    forall i :: 0 <= i < |edges| ==> edges[i].0 < n && edges[i].1 < n && edges[i].0 != edges[i].1
  }

  /** `s` and every endpoint of a bond that touches `s`. */
  function Grow(edges: seq<Edge>, s: set<nat>): set<nat> {
    s + (set i | 0 <= i < |edges| && edges[i].0 in s :: edges[i].1)
      + (set i | 0 <= i < |edges| && edges[i].1 in s :: edges[i].0)
  }

  /** The sites within graph distance `t` of `seed`. */
  function Ball(edges: seq<Edge>, seed: set<nat>, t: nat): set<nat> {
    if t == 0 then seed else Grow(edges, Ball(edges, seed, t - 1))
  }

  predicate SupportIn(p: Pauli, s: set<nat>) {
    forall q :: 0 <= q < |p.x| && q < |p.z| && (p.x[q] || p.z[q]) ==> q in s
  }

  predicate FlipsIn(p: Pauli, s: set<nat>) {
    forall q :: 0 <= q < |p.x| && p.x[q] ==> q in s
  }

  function Bits(n: nat, a: nat, b: nat): (r: Row)
    ensures |r| == n && forall i :: 0 <= i < n ==> r[i] == (i == a || i == b)
  {
    seq(n, i => i == a || i == b)
  }

  // ---- The circuit ----

  datatype Angles = Angles(xc: real, xs: real, zc: real, zs: real) {
    predicate Valid() {
      xc * xc + xs * xs == 1.0 && zc * zc + zs * zs == 1.0
    }
  }

  /** `circuit.rx(theta_h, q)`. */
  function KickGate(n: nat, a: Angles, q: nat): Rotation {
    Rotation(Pauli(Bits(n, q, q), NoBits(n)), a.xc, a.xs)
  }

  /** `circuit.pauli_rotation("ZZ", [e.0, e.1], theta_zz)`. */
  function BondGate(n: nat, a: Angles, e: Edge): Rotation {
    Rotation(Pauli(NoBits(n), Bits(n, e.0, e.1)), a.zc, a.zs)
  }

  function KickLayer(n: nat, a: Angles, k: nat): seq<Rotation> {
    if k == 0 then [] else KickLayer(n, a, k - 1) + [KickGate(n, a, k - 1)]
  }

  function BondLayer(n: nat, a: Angles, edges: seq<Edge>): seq<Rotation> {
    if |edges| == 0 then [] else BondLayer(n, a, edges[..|edges| - 1]) + [BondGate(n, a, edges[|edges| - 1])]
  }

  /** One Trotter step: the kick on every qubit, then one bond rotation per edge. */
  function Step(n: nat, a: Angles, edges: seq<Edge>): seq<Rotation> {
    KickLayer(n, a, n) + BondLayer(n, a, edges)
  }

  function Trotter(n: nat, a: Angles, edges: seq<Edge>, steps: nat): seq<Rotation> {
    if steps == 0 then [] else Trotter(n, a, edges, steps - 1) + Step(n, a, edges)
  }

  datatype Built = Gates(gs: seq<Rotation>) | NegativeSteps

  /** `noisy_kicked_ising` at the noiseless model; a negative number of steps is refused. */
  method KickedIsing(n: nat, a: Angles, edges: seq<Edge>, steps: int) returns (r: Built)
    ensures r == NegativeSteps <==> steps < 0
    ensures steps >= 0 ==> r.Gates? && r.gs == Trotter(n, a, edges, steps) && |r.gs| == steps * (n + |edges|)
    ensures r.Gates? ==> forall t, q :: 0 <= t < steps && 0 <= q < n ==>
              KickPlace(n, |edges|, t, q) < |r.gs| && IsKick(n, a.xc, a.xs, q, r.gs[KickPlace(n, |edges|, t, q)])
    ensures r.Gates? ==> forall t, e :: 0 <= t < steps && 0 <= e < |edges| ==>
              BondPlace(n, |edges|, t, e) < |r.gs| && IsBond(n, a.zc, a.zs, edges[e], r.gs[BondPlace(n, |edges|, t, e)])
  {
    hide KickGate, BondGate, KickPlace, BondPlace, IsKick, IsBond;
    if steps < 0 {
      return NegativeSteps;
    }
    var gs: seq<Rotation> := [];
    for t := 0 to steps
      invariant gs == Trotter(n, a, edges, t)
      invariant |gs| == t * (n + |edges|)
    {
      var step := PushStep(n, a, edges);
      gs := gs + step;
      LengthStep(t, n + |edges|);
    }
    forall t, q | 0 <= t < steps && 0 <= q < n
      ensures KickPlace(n, |edges|, t, q) < |gs| && IsKick(n, a.xc, a.xs, q, gs[KickPlace(n, |edges|, t, q)])
    {
      KickSlot(n, a, edges, steps, t, q);
    }
    forall t, e | 0 <= t < steps && 0 <= e < |edges|
      ensures BondPlace(n, |edges|, t, e) < |gs| && IsBond(n, a.zc, a.zs, edges[e], gs[BondPlace(n, |edges|, t, e)])
    {
      BondSlot(n, a, edges, steps, t, e);
    }
    return Gates(gs);
  }

  /** Step `t` has a gate per qubit, then a gate per bond. */
  function KickPlace(n: nat, bonds: nat, t: nat, q: nat): nat {
    t * (n + bonds) + q
  }

  function BondPlace(n: nat, bonds: nat, t: nat, e: nat): nat {
    t * (n + bonds) + n + e
  }

  /** The place of gate `i` of step `t` in a circuit of steps of one width. */
  function Slot(width: nat, t: nat, i: nat): nat {
    t * width + i
  }

  /** A rotation by the pair `(c, s)` about `X` on `q` alone. */
  predicate IsKick(n: nat, c: real, s: real, q: nat, r: Rotation) {
    r.c == c && r.s == s && |r.g.x| == |r.g.z| == n && forall i :: 0 <= i < n ==> !r.g.z[i] && (r.g.x[i] <==> i == q)
  }

  /** A rotation by the pair `(c, s)` about `Z` on exactly the two ends of a bond. */
  predicate IsBond(n: nat, c: real, s: real, e: Edge, r: Rotation) {
    r.c == c && r.s == s && |r.g.x| == |r.g.z| == n && forall i :: 0 <= i < n ==> !r.g.x[i] && (r.g.z[i] <==> i == e.0 || i == e.1)
  }

  lemma {:induction false} StepSlot(n: nat, a: Angles, edges: seq<Edge>, steps: nat, t: nat, i: nat)
    requires t < steps && i < n + |edges|
    ensures |Step(n, a, edges)| == n + |edges|
    ensures |Trotter(n, a, edges, steps)| == Slot(n + |edges|, steps, 0)
    ensures Slot(n + |edges|, t, i) < Slot(n + |edges|, steps, 0)
    ensures Trotter(n, a, edges, steps)[Slot(n + |edges|, t, i)] == Step(n, a, edges)[i]
  {
    hide Step, Slot;
    StepWidth(n, a, edges);
    var width := n + |edges|;
    SlotNext(width, steps - 1); SlotNext(width, 0);
    if t < steps - 1 {
      StepSlot(n, a, edges, steps - 1, t, i);
    } else {
      TrotterSize(n, a, edges, steps - 1);
      SlotOffset(width, t, i);
    }
  }

  lemma {:induction false} TrotterSize(n: nat, a: Angles, edges: seq<Edge>, steps: nat)
    ensures |Trotter(n, a, edges, steps)| == Slot(n + |edges|, steps, 0)
  {
    hide Step, Slot;
    SlotNext(n + |edges|, 0);
    if steps > 0 {
      StepWidth(n, a, edges);
      TrotterSize(n, a, edges, steps - 1);
      SlotNext(n + |edges|, steps - 1);
    }
  }

  lemma SlotNext(width: nat, t: nat)
    ensures Slot(width, 0, 0) == 0 && Slot(width, t + 1, 0) == Slot(width, t, 0) + width
  {
  }

  lemma SlotOffset(width: nat, t: nat, i: nat)
    ensures Slot(width, t, i) == Slot(width, t, 0) + i
  {
  }

  lemma StepWidth(n: nat, a: Angles, edges: seq<Edge>)
    ensures |KickLayer(n, a, n)| == n && |BondLayer(n, a, edges)| == |edges| && |Step(n, a, edges)| == n + |edges|
  {
    hide KickGate, BondGate;
    KickLayerSize(n, a, n);
    BondLayerSize(n, a, edges);
  }

  lemma {:induction false} KickLayerSize(n: nat, a: Angles, k: nat)
    ensures |KickLayer(n, a, k)| == k && forall i :: 0 <= i < k ==> KickLayer(n, a, k)[i] == KickGate(n, a, i)
  {
    hide KickGate;
    if k > 0 {
      KickLayerSize(n, a, k - 1);
    }
  }

  lemma {:induction false} BondLayerSize(n: nat, a: Angles, edges: seq<Edge>)
    ensures |BondLayer(n, a, edges)| == |edges| && forall i :: 0 <= i < |edges| ==> BondLayer(n, a, edges)[i] == BondGate(n, a, edges[i])
  {
    hide BondGate;
    if |edges| > 0 {
      BondLayerSize(n, a, edges[..|edges| - 1]);
    }
  }

  /** Gate `q` of every step turns `X` on qubit `q` alone, by the kick angle. */
  lemma KickSlot(n: nat, a: Angles, edges: seq<Edge>, steps: nat, t: nat, q: nat)
    requires t < steps && q < n
    ensures KickPlace(n, |edges|, t, q) < |Trotter(n, a, edges, steps)|
    ensures IsKick(n, a.xc, a.xs, q, Trotter(n, a, edges, steps)[KickPlace(n, |edges|, t, q)])
  {
    assert KickPlace(n, |edges|, t, q) == Slot(n + |edges|, t, q);
    hide Slot, Trotter, KickPlace;
    StepSlot(n, a, edges, steps, t, q);
    StepWidth(n, a, edges);
    KickLayerSize(n, a, n);
  }

  /** Gate `n + e` of every step turns `Z Z` on the ends of bond `e`, by the bond angle. */
  lemma BondSlot(n: nat, a: Angles, edges: seq<Edge>, steps: nat, t: nat, e: nat)
    requires t < steps && e < |edges|
    ensures BondPlace(n, |edges|, t, e) < |Trotter(n, a, edges, steps)|
    ensures IsBond(n, a.zc, a.zs, edges[e], Trotter(n, a, edges, steps)[BondPlace(n, |edges|, t, e)])
  {
    assert BondPlace(n, |edges|, t, e) == Slot(n + |edges|, t, n + e);
    hide Slot, Trotter, BondPlace;
    StepSlot(n, a, edges, steps, t, n + e);
    StepWidth(n, a, edges);
    BondLayerSize(n, a, edges);
  }

  lemma LengthStep(t: nat, k: nat)
    ensures t * k + k == (t + 1) * k
  {
  }

  /** The body of the Trotter loop. */
  method PushStep(n: nat, a: Angles, edges: seq<Edge>) returns (gs: seq<Rotation>)
    ensures gs == Step(n, a, edges) && |gs| == n + |edges|
  {
    hide KickGate, BondGate;
    gs := [];
    for q := 0 to n
      invariant gs == KickLayer(n, a, q) && |gs| == q
    {
      gs := gs + [KickGate(n, a, q)];
    }
    var kicks := gs;
    assert edges[..0] == [];
    for i := 0 to |edges|
      invariant gs == kicks + BondLayer(n, a, edges[..i]) && |gs| == n + i
    {
      assert edges[..i + 1][..i] == edges[..i];
      gs := gs + [BondGate(n, a, edges[i])];
    }
    assert edges[..|edges|] == edges;
  }

  lemma KickLayerGates(n: nat, a: Angles, k: nat)
    requires a.Valid() && k <= n
    ensures |KickLayer(n, a, k)| == k
    ensures forall i :: 0 <= i < k ==> KickLayer(n, a, k)[i] == KickGate(n, a, i)
    ensures CircuitOn(n, KickLayer(n, a, k))
  {
    KickLayerSize(n, a, k);
  }

  lemma BondLayerGates(n: nat, a: Angles, edges: seq<Edge>)
    requires a.Valid() && EdgesOn(n, edges)
    ensures |BondLayer(n, a, edges)| == |edges|
    ensures forall i :: 0 <= i < |edges| ==> BondLayer(n, a, edges)[i] == BondGate(n, a, edges[i])
    ensures CircuitOn(n, BondLayer(n, a, edges))
  {
    BondLayerSize(n, a, edges);
  }

  lemma {:induction false} TrotterOn(n: nat, a: Angles, edges: seq<Edge>, steps: nat)
    requires a.Valid() && EdgesOn(n, edges)
    ensures CircuitOn(n, Trotter(n, a, edges, steps))
  {
    KickLayerGates(n, a, n);
    BondLayerGates(n, a, edges);
    if steps > 0 {
      TrotterOn(n, a, edges, steps - 1);
    }
  }

  // ---- What one gate does to the support ----

  lemma ZeroFormCommutes(p: Pauli, g: Pauli)
    requires p.On(|g.x|) && g.On(|g.x|)
    requires forall q :: 0 <= q < |g.x| ==> !(p.x[q] && g.z[q]) && !(p.z[q] && g.x[q])
    ensures Commutes(p, g)
  {
    var n := |g.x|;
    assert Xor(And(p.x, g.z), And(p.z, g.x)) == NoBits(n);
    PopcountNone(n);
  }

  /** A kick branches only where the string already acts, and acts only there. */
  lemma KickKeepsSupport(n: nat, a: Angles, q: nat, s: set<nat>)
    requires a.Valid() && q < n
    ensures KickGate(n, a, q).On(n)
    ensures Preserves(n, KickGate(n, a, q), p => SupportIn(p, s))
  {
    hide Commutes;
    var g := KickGate(n, a, q).g;
    forall p: Pauli | p.On(n) && SupportIn(p, s) && !Commutes(p, g) ensures SupportIn(ProductKey(p, g), s) {
      if !p.z[q] {
        ZeroFormCommutes(p, g);
      }
      var r := ProductKey(p, g);
      forall i | 0 <= i < n && (r.x[i] || r.z[i]) ensures i in s {
        assert r.z[i] == p.z[i];
        assert i != q ==> r.x[i] == p.x[i];
      }
    }
  }

  /** A bond branches only when one end carries an x-bit, and then only adds Z factors on its ends. */
  lemma BondKeepsCone(n: nat, a: Angles, edges: seq<Edge>, e: nat, s: set<nat>)
    requires a.Valid() && EdgesOn(n, edges) && e < |edges|
    ensures BondGate(n, a, edges[e]).On(n)
    ensures Preserves(n, BondGate(n, a, edges[e]), p => FlipsIn(p, s) && SupportIn(p, Grow(edges, s)))
  {
    hide Commutes;
    var g := BondGate(n, a, edges[e]).g;
    var u, v := edges[e].0, edges[e].1;
    forall p: Pauli | p.On(n) && FlipsIn(p, s) && SupportIn(p, Grow(edges, s)) && !Commutes(p, g)
      ensures FlipsIn(ProductKey(p, g), s) && SupportIn(ProductKey(p, g), Grow(edges, s))
    {
      if !p.x[u] && !p.x[v] {
        ZeroFormCommutes(p, g);
      }
      assert u in s || v in s;
      assert u in Grow(edges, s) && v in Grow(edges, s);
      var r := ProductKey(p, g);
      forall i | 0 <= i < n ensures r.x[i] == p.x[i] && (i != u && i != v ==> r.z[i] == p.z[i]) {
        assert r.x[i] == (p.x[i] != g.x[i]);
      }
    }
  }

  // ---- Whole runs ----

  lemma {:induction false} RunConcat(n: nat, a: seq<Rotation>, b: seq<Rotation>, keep: Term -> bool, ts: seq<Term>)
    requires CircuitOn(n, a) && CircuitOn(n, b) && CircuitOn(n, a + b) && OnQubits(n, ts) && Distinct(ts)
    ensures Run(n, a + b, keep, ts) == Run(n, a, keep, Run(n, b, keep, ts))
  {
    hide Layer;
    if |a| == 0 {
      assert a + b == b;
    } else {
      assert (a + b)[1..] == a[1..] + b;
      RunConcat(n, a[1..], b, keep, ts);
    }
  }

  lemma StepCone(n: nat, a: Angles, edges: seq<Edge>, keep: Term -> bool, ts: seq<Term>, s: set<nat>)
    requires a.Valid() && EdgesOn(n, edges) && OnQubits(n, ts) && Distinct(ts)
    requires AllKeys(p => SupportIn(p, s), ts)
    ensures CircuitOn(n, Step(n, a, edges))
    ensures AllKeys(p => SupportIn(p, Grow(edges, s)), Run(n, Step(n, a, edges), keep, ts))
  {
    hide Run, Preserves, Grow;
    var kicks, bonds := KickLayer(n, a, n), BondLayer(n, a, edges);
    KickLayerGates(n, a, n);
    BondLayerGates(n, a, edges);
    RunConcat(n, kicks, bonds, keep, ts);
    var cone := (p: Pauli) => FlipsIn(p, s) && SupportIn(p, Grow(edges, s));
    forall i | 0 <= i < |bonds| ensures Preserves(n, bonds[i], cone) {
      BondKeepsCone(n, a, edges, i, s);
      assert bonds[i] == BondGate(n, a, edges[i]);
      PreservesSame(n, bonds[i], cone, p => FlipsIn(p, s) && SupportIn(p, Grow(edges, s)));
    }
    GrowGrows(edges, s);
    RunKeeps(n, bonds, keep, cone, ts);
    var mid := Run(n, bonds, keep, ts);
    var wide := (p: Pauli) => SupportIn(p, Grow(edges, s));
    forall i | 0 <= i < |kicks| ensures Preserves(n, kicks[i], wide) {
      KickKeepsSupport(n, a, i, Grow(edges, s));
      assert kicks[i] == KickGate(n, a, i);
      PreservesSame(n, kicks[i], wide, p => SupportIn(p, Grow(edges, s)));
    }
    assert AllKeys(wide, mid);
    RunKeeps(n, kicks, keep, wide, mid);
  }

  lemma GrowGrows(edges: seq<Edge>, s: set<nat>)
    ensures s <= Grow(edges, s)
  {
  }

  lemma PreservesSame(n: nat, r: Rotation, f: Pauli -> bool, g: Pauli -> bool)
    requires r.On(n) && Preserves(n, r, g) && forall p :: f(p) == g(p)
    ensures Preserves(n, r, f)
  {
    hide Commutes, ProductKey;
  }

  /**
   For every graph, edge order, number of steps and truncation policy, every string of the evolved
   sum lies within graph distance `steps` of the seed.
   */
  lemma {:induction false} ConeOfRun(n: nat, a: Angles, edges: seq<Edge>, steps: nat, keep: Term -> bool,
                                     ts: seq<Term>, seed: set<nat>)
    requires a.Valid() && EdgesOn(n, edges) && OnQubits(n, ts) && Distinct(ts)
    requires AllKeys(p => SupportIn(p, seed), ts)
    ensures CircuitOn(n, Trotter(n, a, edges, steps))
    ensures AllKeys(p => SupportIn(p, Ball(edges, seed, steps)), Run(n, Trotter(n, a, edges, steps), keep, ts))
  {
    hide Run, Step, SupportIn, Grow, Preserves;
    TrotterOn(n, a, edges, steps);
    if steps == 0 {
      RunNone(n, keep, ts);
    } else {
      StepOn(n, a, edges);
      var mid := Run(n, Step(n, a, edges), keep, ts);
      TrotterOn(n, a, edges, steps - 1);
      StepCone(n, a, edges, keep, ts, seed);
      RunConcat(n, Trotter(n, a, edges, steps - 1), Step(n, a, edges), keep, ts);
      ConeOfRun(n, a, edges, steps - 1, keep, mid, Grow(edges, seed));
      BallShift(edges, seed, steps - 1);
    }
  }

  lemma RunNone(n: nat, keep: Term -> bool, ts: seq<Term>)
    requires OnQubits(n, ts) && Distinct(ts)
    ensures Run(n, [], keep, ts) == ts
  {
  }

  lemma StepOn(n: nat, a: Angles, edges: seq<Edge>)
    requires a.Valid() && EdgesOn(n, edges)
    ensures CircuitOn(n, Step(n, a, edges))
  {
    KickLayerGates(n, a, n);
    BondLayerGates(n, a, edges);
  }

  lemma {:induction false} BallShift(edges: seq<Edge>, seed: set<nat>, t: nat)
    ensures Ball(edges, Grow(edges, seed), t) == Ball(edges, seed, t + 1)
  {
    hide Grow;
    if t > 0 {
      BallShift(edges, seed, t - 1);
    }
  }
}
