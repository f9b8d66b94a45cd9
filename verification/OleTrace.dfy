/**
 What the echo kernel means: for every pair of strings and every list of distinct probe sites it is
 `2^-n Tr(P V^dagger Q V)`, with `V` the dense product of the single-qubit rotations.
 */
module OleTrace {
  import opened Complexes
  import opened Dense
  import opened Paulis
  import opened PauliSums
  import opened Propagation
  import opened OleKernel

  // ---- Single-qubit generators ----

  /** The string acting on qubit `q` alone. */
  function Single(n: nat, q: nat, gx: bool, gz: bool): (p: Pauli)
    ensures p.On(n)
    ensures forall i :: 0 <= i < n ==> p.x[i] == (i == q && gx) && p.z[i] == (i == q && gz)
  {
    Pauli(seq(n, i => i == q && gx), seq(n, i => i == q && gz))
  }

  lemma SingleTail(n: nat, q: nat, gx: bool, gz: bool)
    requires n > 0
    ensures q > 0 ==> Tail(Single(n, q, gx, gz)) == Single(n - 1, q - 1, gx, gz)
    ensures q == 0 ==> Tail(Single(n, q, gx, gz)) == IdentityKey(n - 1)
  {
    var t := Tail(Single(n, q, gx, gz));
    if q > 0 {
      assert t.x == Single(n - 1, q - 1, gx, gz).x && t.z == Single(n - 1, q - 1, gx, gz).z;
    } else {
      assert t.x == NoBits(n - 1) && t.z == NoBits(n - 1);
    }
  }

  /** Number of symplectic overlaps, whose parity `Commutes` reads. */
  function FormWeight(p: Pauli, g: Pauli): nat
    requires p.On(|g.x|) && g.On(|g.x|)
  {
    Popcount(Xor(And(p.x, g.z), And(p.z, g.x)))
  }

  lemma FormStep(p: Pauli, g: Pauli)
    requires p.On(|g.x|) && g.On(|g.x|) && |g.x| > 0
    ensures FormWeight(p, g) == Bit((p.x[0] && g.z[0]) != (p.z[0] && g.x[0])) + FormWeight(Tail(p), Tail(g))
  {
    RowTails(p.x, g.z); RowTails(p.z, g.x);
    RowTails(And(p.x, g.z), And(p.z, g.x));
  }

  lemma {:induction false} WithIdentity(n: nat, p: Pauli)
    requires p.On(n)
    ensures PhaseOf(p, IdentityKey(n)) == 0 && FormWeight(p, IdentityKey(n)) == 0
    decreases n
  {
    if n > 0 {
      hide PhaseOf, FormWeight;
      var g := IdentityKey(n);
      PhaseStep(p, g); FormStep(p, g);
      assert NoBits(n)[1..] == NoBits(n - 1);
      assert Tail(g) == IdentityKey(n - 1);
      WithIdentity(n - 1, Tail(p));
    }
  }

  /** The phase and the commutation of a single-qubit generator are decided on its qubit. */
  lemma {:induction false} WithSingle(n: nat, p: Pauli, q: nat, gx: bool, gz: bool)
    requires p.On(n) && q < n
    ensures PhaseOf(p, Single(n, q, gx, gz)) == Phase1(p.x[q], p.z[q], gx, gz)
    ensures FormWeight(p, Single(n, q, gx, gz)) == Bit((p.x[q] && gz) != (p.z[q] && gx))
    decreases n
  {
    hide PhaseOf, FormWeight;
    var g := Single(n, q, gx, gz);
    PhaseStep(p, g); FormStep(p, g);
    SingleTail(n, q, gx, gz);
    if q == 0 {
      WithIdentity(n - 1, Tail(p));
    } else {
      WithSingle(n - 1, Tail(p), q - 1, gx, gz);
    }
  }

  // ---- The rotation about one site ----

  /** `exp(-i delta G_q)`: the half angle of the rotation by `2 delta`. */
  function SiteGate(zAxis: bool, n: nat, q: nat, c: real, s: real): Rotation {
    Rotation(Single(n, q, !zAxis, zAxis), c, s)
  }

  function Flipped(b: Halves, q: nat): (r: Halves)
    requires b.On(|b.flip|) && q < |b.flip|
    ensures r.On(|b.flip|)
  {
    Halves(b.sel, b.flip[q := !b.flip[q]])
  }

  /** `P Q` against the kernel of no rotation at all. */
  lemma {:induction false} KernelNoSites(v: Probe, n: nat, a: Halves, b: Halves)
    requires a.On(n) && b.On(n)
    ensures Kernel(v, NoBits(n), a, b) == if a == b then 1.0 else 0.0
    decreases n
  {
    hide Prod;
    if n == 0 {
      assert a.sel == b.sel && a.flip == b.flip;
    } else {
      assert NoBits(n)[1..] == NoBits(n - 1);
      KernelNoSites(v, n - 1, TailOf(a), TailOf(b));
      HeadTail(a.sel, b.sel); HeadTail(a.flip, b.flip);
      ProdUnits(1.0, 1.0); ProdUnits(0.0, 0.0); ProdUnits(1.0, 0.0);
    }
  }

  /** The sign of the branch that flips `f`. */
  function BranchWeight(v: Probe, f: bool): real {
    Signed(if v.zAxis then !f else f, v.sin)
  }

  /** Adding a site to the mask splits the kernel into the stay branch and the flip branch. */
  lemma {:induction false} KernelAddSite(v: Probe, mask: Row, q: nat, a: Halves, b: Halves)
    requires a.On(|mask|) && b.On(|mask|) && q < |mask| && !mask[q]
    ensures Kernel(v, mask[q := true], a, b)
         == if !b.sel[q] then Kernel(v, mask, a, b)
            else Prod(v.cos, Kernel(v, mask, a, b)) + Prod(BranchWeight(v, b.flip[q]), Kernel(v, mask, a, Flipped(b, q)))
    decreases |mask|
  {
    hide Prod, Kernel, SiteFactor, BranchWeight;
    var mask' := mask[q := true];
    var b' := Flipped(b, q);
    KernelStep(v, mask', a, b); KernelStep(v, mask, a, b); KernelStep(v, mask, a, b');
    var rest := Kernel(v, mask[1..], TailOf(a), TailOf(b));
    if q == 0 {
      assert mask'[1..] == mask[1..];
      assert TailOf(b') == TailOf(b);
      FactorSplit(v, a.sel[0], a.flip[0], b.sel[0], b.flip[0], rest);
    } else {
      assert mask'[1..] == mask[1..][q - 1 := true];
      assert TailOf(b') == Flipped(TailOf(b), q - 1);
      KernelAddSite(v, mask[1..], q - 1, TailOf(a), TailOf(b));
      var h := SiteFactor(v, mask[0], a.sel[0], a.flip[0], b.sel[0], b.flip[0]);
      var rest' := Kernel(v, mask[1..], TailOf(a), TailOf(b'));
      var w := BranchWeight(v, b.flip[q]);
      ProdLaws(h, Prod(v.cos, rest), Prod(w, rest'));
      ProdLaws(h, v.cos, rest); ProdLaws(v.cos, h, rest);
      ProdLaws(h, w, rest'); ProdLaws(w, h, rest');
    }
  }

  lemma FactorSplit(v: Probe, s: bool, f: bool, s': bool, f': bool, rest: real)
    ensures Prod(SiteFactor(v, true, s, f, s', f'), rest)
         == if !s' then Prod(SiteFactor(v, false, s, f, s', f'), rest)
            else Prod(v.cos, Prod(SiteFactor(v, false, s, f, s', f'), rest))
                 + Prod(BranchWeight(v, f'), Prod(SiteFactor(v, false, s, f, s', !f'), rest))
  {
    hide Prod;
    ProdUnits(rest, rest);
    ProdUnits(v.cos, rest); ProdUnits(BranchWeight(v, f'), rest);
  }

  /** One site rotation on one string: it stays, or splits with the kernel's own weights. */
  lemma SiteBranches(n: nat, zAxis: bool, q: nat, c: real, s: real, p: Pauli)
    requires p.On(n) && q < n && c * c + s * s == 1.0
    ensures
      var r := SiteGate(zAxis, n, q, c, s);
      var v := Probe(zAxis, r.Cos(), r.Sin());
      var h := HalvesOf(zAxis, p);
      && r.On(n)
      && (!h.sel[q] ==> ApplyAdjoint(r, Term(p, ONE)) == [Term(p, ONE)])
      && (h.sel[q] ==>
            && HalvesOf(zAxis, ProductKey(p, r.g)) == Flipped(h, q)
            && ApplyAdjoint(r, Term(p, ONE))
               == [Term(p, Real(v.cos)), Term(ProductKey(p, r.g), Real(BranchWeight(v, h.flip[q])))])
  {
    var r := SiteGate(zAxis, n, q, c, s);
    var h := HalvesOf(zAxis, p);
    WithSingle(n, p, q, !zAxis, zAxis);
    assert Commutes(p, r.g) <==> FormWeight(p, r.g) % 2 == 0;
    if h.sel[q] {
      hide PhaseOf, Commutes, FormWeight, Complex.Times, Rotation.Cos, Rotation.Sin;
      FlipProduct(n, zAxis, q, p);
      BranchCoefficient(r.Cos(), r.Sin(), Phase1(p.x[q], p.z[q], !zAxis, zAxis), zAxis, h.flip[q]);
    }
  }

  lemma FlipProduct(n: nat, zAxis: bool, q: nat, p: Pauli)
    requires p.On(n) && q < n
    ensures HalvesOf(zAxis, ProductKey(p, Single(n, q, !zAxis, zAxis))) == Flipped(HalvesOf(zAxis, p), q)
  {
    var g := Single(n, q, !zAxis, zAxis);
    var h := HalvesOf(zAxis, p);
    assert Xor(p.x, g.x) == if zAxis then p.x else p.x[q := !p.x[q]];
    assert Xor(p.z, g.z) == if zAxis then p.z[q := !p.z[q]] else p.z;
  }

  lemma BranchCoefficient(cos: real, sin: real, k: int, zAxis: bool, f: bool)
    requires k == if zAxis then Phase1(true, f, false, true) else Phase1(f, true, true, false)
    ensures Real(cos).Times(ONE) == Real(cos)
    ensures Real(-sin).Times(Turn(1 + k, ONE)) == Real(Signed(if zAxis then !f else f, sin))
  {
    hide Complex.Times;
    TimesUnits(Real(cos)); TimesUnits(Real(-sin));
    IPowTimes(1 + k, Real(-sin));
  }

  // ---- The product over all sites ----

  predicate SitesOn(n: nat, sites: seq<nat>) {
    && (forall i :: 0 <= i < |sites| ==> sites[i] < n)
    && (forall i, j :: 0 <= i < j < |sites| ==> sites[i] != sites[j])
  }

  function MaskOf(n: nat, sites: seq<nat>): (r: Row)
    ensures |r| == n && forall i :: 0 <= i < n ==> r[i] == (i in sites)
  {
    seq(n, i => i in sites)
  }

  /** `V = prod_q exp(-i delta G_q)` as a circuit. */
  function SiteCircuit(zAxis: bool, n: nat, sites: seq<nat>, c: real, s: real): seq<Rotation> {
    if |sites| == 0 then []
    else SiteCircuit(zAxis, n, sites[..|sites| - 1], c, s) + [SiteGate(zAxis, n, sites[|sites| - 1], c, s)]
  }

  lemma {:induction false} SiteCircuitOn(zAxis: bool, n: nat, sites: seq<nat>, c: real, s: real)
    requires c * c + s * s == 1.0
    ensures CircuitOn(n, SiteCircuit(zAxis, n, sites, c, s))
  {
    if |sites| > 0 {
      SiteCircuitOn(zAxis, n, sites[..|sites| - 1], c, s);
    }
  }

  lemma {:induction false} CircuitSnoc(n: nat, gs: seq<Rotation>, g: Rotation)
    requires CircuitOn(n, gs) && g.On(n)
    ensures CircuitMat(n, gs + [g]) == Mul(GateMat(n, g), CircuitMat(n, gs))
  {
    hide CircuitMat, GateMat, Mul, Identity, Square;
    CircuitMatStep(n, gs + [g]); CircuitMatStep(n, gs);
    GateSquare(n, g);
    if |gs| == 0 {
      assert (gs + [g])[1..] == gs;
      MulIdentity(n, GateMat(n, g));
    } else {
      assert (gs + [g])[1..] == gs[1..] + [g];
      CircuitSnoc(n, gs[1..], g);
      MulAssoc(GateMat(n, g), CircuitMat(n, gs[1..]), GateMat(n, gs[0]));
    }
  }

  lemma ConjugateScale(u: Mat, c: Complex, a: Mat)
    ensures Conjugate(u, Scale(c, a)) == Scale(c, Conjugate(u, a))
  {
    hide Dagger, Mul, Scale;
    MulScaleRight(c, Dagger(u), a);
    MulScaleLeft(c, Mul(Dagger(u), a), u);
  }

  lemma ConjugateSquare(n: nat, u: Mat, a: Mat)
    requires Square(u, n) && Square(a, n)
    ensures Square(Conjugate(u, a), n)
  {
    hide Dagger, Mul, Square;
    DaggerSquare(n, u); MulSquare(n, Dagger(u), a); MulSquare(n, Mul(Dagger(u), a), u);
  }

  /** `Tr(p u^dagger (a x + b y) u)` is linear in the branches. */
  lemma TraceBranches(n: nat, p: Mat, u: Mat, a: Complex, x: Mat, b: Complex, y: Mat)
    requires Square(p, n) && Square(u, n) && Square(x, n) && Square(y, n)
    ensures Trace(Mul(p, Conjugate(u, Add(Scale(a, x), Scale(b, y)))))
         == a.Times(Trace(Mul(p, Conjugate(u, x)))).Plus(b.Times(Trace(Mul(p, Conjugate(u, y)))))
  {
    hide *;
    var cx, cy := Conjugate(u, x), Conjugate(u, y);
    ConjugateAdd(u, Scale(a, x), Scale(b, y)); ConjugateScale(u, a, x); ConjugateScale(u, b, y);
    ConjugateSquare(n, u, x); ConjugateSquare(n, u, y);
    ScaleSquare(n, a, cx); ScaleSquare(n, b, cy);
    MulAddRight(p, Scale(a, cx), Scale(b, cy));
    MulSquare(n, p, Scale(a, cx)); MulSquare(n, p, Scale(b, cy)); MulSquare(n, p, cx); MulSquare(n, p, cy);
    TraceAdd(n, Mul(p, Scale(a, cx)), Mul(p, Scale(b, cy)));
    MulScaleRight(a, p, cx); MulScaleRight(b, p, cy);
    TraceScale(n, a, Mul(p, cx)); TraceScale(n, b, Mul(p, cy));
  }

  lemma RealBranches(w: real, a: real, x: real, b: real, y: real)
    ensures Real(a).Times(Real(Prod(w, x))).Plus(Real(b).Times(Real(Prod(w, y))))
         == Real(Prod(w, Prod(a, x) + Prod(b, y)))
  {
    assert a * (w * x) == w * (a * x);
    assert b * (w * y) == w * (b * y);
  }

  /** `Tr(P V^dagger Q V)`. */
  function PairTrace(zAxis: bool, n: nat, sites: seq<nat>, c: real, s: real, p: Pauli, q: Pauli): Complex
    requires p.On(n) && q.On(n) && c * c + s * s == 1.0
  {
    SiteCircuitOn(zAxis, n, sites, c, s);
    Trace(Mul(PauliMat(p), Conjugate(CircuitMat(n, SiteCircuit(zAxis, n, sites, c, s)), PauliMat(q))))
  }

  lemma PairTraceNone(zAxis: bool, n: nat, sites: seq<nat>, c: real, s: real, p: Pauli, q: Pauli)
    requires p.On(n) && q.On(n) && c * c + s * s == 1.0 && |sites| == 0
    ensures PairTrace(zAxis, n, sites, c, s, p, q) == if p == q then Real(Pow2(n) as real) else ZERO
  {
    hide Trace, Mul, PauliMat, CircuitMat, Real, Identity, Dagger, Square;
    CircuitMatStep(n, []);
    PauliMatSquare(q);
    DaggerIdentity(n); MulIdentity(n, PauliMat(q));
    PauliOrthogonal(p, q);
  }

  /** The dense image of one string under one site gate. */
  lemma SiteImage(n: nat, zAxis: bool, q: nat, c: real, s: real, p: Pauli)
    requires p.On(n) && q < n && c * c + s * s == 1.0
    ensures
      var r := SiteGate(zAxis, n, q, c, s);
      var v := Probe(zAxis, r.Cos(), r.Sin());
      var h := HalvesOf(zAxis, p);
      && r.On(n)
      && (!h.sel[q] ==> Conjugate(GateMat(n, r), PauliMat(p)) == PauliMat(p))
      && (h.sel[q] ==>
            Conjugate(GateMat(n, r), PauliMat(p))
            == Add(Scale(Real(v.cos), PauliMat(p)), Scale(Real(BranchWeight(v, h.flip[q])), PauliMat(ProductKey(p, r.g)))))
  {
    hide Conjugate, GateMat, PauliMat, ApplyAdjoint, SumMat, ProductKey, Scale, Add, Real, BranchWeight, Rotation.Cos, Rotation.Sin, Square;
    var r := SiteGate(zAxis, n, q, c, s);
    SiteBranches(n, zAxis, q, c, s, p);
    ApplyAdjointIsConjugation(n, r, Term(p, ONE));
    PauliMatSquare(p); ScaleUnits(n, PauliMat(p));
    var out := ApplyAdjoint(r, Term(p, ONE));
    if HalvesOf(zAxis, p).sel[q] {
      assert out == [out[0]] + [out[1]];
      SumMatConcat(n, [out[0]], [out[1]]);
      SingleMat(n, out[0]); SingleMat(n, out[1]);
    } else {
      SingleMat(n, Term(p, ONE));
    }
  }

  lemma PairTraceSite(zAxis: bool, n: nat, sites: seq<nat>, site: nat, c: real, s: real, p: Pauli, q: Pauli)
    requires p.On(n) && q.On(n) && c * c + s * s == 1.0 && site < n
    ensures
      var r := SiteGate(zAxis, n, site, c, s);
      var v := Probe(zAxis, r.Cos(), r.Sin());
      var h := HalvesOf(zAxis, q);
      PairTrace(zAxis, n, sites + [site], c, s, p, q)
      == if !h.sel[site] then PairTrace(zAxis, n, sites, c, s, p, q)
         else Real(v.cos).Times(PairTrace(zAxis, n, sites, c, s, p, q)).Plus(
                Real(BranchWeight(v, h.flip[site])).Times(PairTrace(zAxis, n, sites, c, s, p, ProductKey(q, r.g))))
  {
    hide Conjugate, GateMat, PauliMat, ProductKey, Scale, Add, Real, BranchWeight, Rotation.Cos, Rotation.Sin, Square, CircuitMat, Trace, Mul, Complex.Times, Complex.Plus;
    var r := SiteGate(zAxis, n, site, c, s);
    var v := Probe(zAxis, r.Cos(), r.Sin());
    var h := HalvesOf(zAxis, q);
    var gs := SiteCircuit(zAxis, n, sites, c, s);
    assert (sites + [site])[..|sites|] == sites;
    SiteCircuitOn(zAxis, n, sites, c, s); SiteCircuitOn(zAxis, n, sites + [site], c, s);
    assert SiteCircuit(zAxis, n, sites + [site], c, s) == gs + [r];
    CircuitSnoc(n, gs, r);
    ConjugateMul(GateMat(n, r), CircuitMat(n, gs), PauliMat(q));
    SiteImage(n, zAxis, site, c, s, q);
    if h.sel[site] {
      PauliMatSquare(p); PauliMatSquare(q); PauliMatSquare(ProductKey(q, r.g)); CircuitSquare(n, gs);
      TraceBranches(n, PauliMat(p), CircuitMat(n, gs), Real(v.cos), PauliMat(q),
                    Real(BranchWeight(v, h.flip[site])), PauliMat(ProductKey(q, r.g)));
    }
  }

  lemma HalvesEqual(zAxis: bool, p: Pauli, q: Pauli)
    ensures HalvesOf(zAxis, p) == HalvesOf(zAxis, q) <==> p == q
  {
  }

  lemma MaskStep(n: nat, sites: seq<nat>, site: nat)
    requires site < n && site !in sites
    ensures !MaskOf(n, sites)[site]
    ensures MaskOf(n, sites + [site]) == MaskOf(n, sites)[site := true]
  {
  }

  lemma MaskNone(n: nat, sites: seq<nat>)
    requires |sites| == 0
    ensures MaskOf(n, sites) == NoBits(n)
  {
  }

  /** `cos(2 delta)` and `sin(2 delta)` from the half-angle pair. */
  function ProbeOf(zAxis: bool, c: real, s: real): Probe {
    Probe(zAxis, c * c - s * s, 2.0 * c * s)
  }

  lemma ProbeOfGate(zAxis: bool, n: nat, q: nat, c: real, s: real)
    ensures ProbeOf(zAxis, c, s) == Probe(zAxis, SiteGate(zAxis, n, q, c, s).Cos(), SiteGate(zAxis, n, q, c, s).Sin())
  {
  }

  /**
   The kernel is physical: `Kernel(P, Q) == 2^-n Tr(P V^dagger Q V)` for every pair of strings, either
   axis, and every list of distinct sites.
   */
  lemma {:induction false} KernelIsTrace(n: nat, zAxis: bool, sites: seq<nat>, c: real, s: real, p: Pauli, q: Pauli)
    requires p.On(n) && q.On(n) && SitesOn(n, sites) && c * c + s * s == 1.0
    ensures PairTrace(zAxis, n, sites, c, s, p, q)
         == Real(Prod(Pow2(n) as real,
                      Kernel(ProbeOf(zAxis, c, s), MaskOf(n, sites), HalvesOf(zAxis, p), HalvesOf(zAxis, q))))
    decreases |sites|
  {
    hide PairTrace, Kernel, Real, Prod, ProductKey, ProbeOf, BranchWeight, MaskOf, Rotation.Cos, Rotation.Sin, Complex.Times, Complex.Plus;
    var v := ProbeOf(zAxis, c, s);
    var w := Pow2(n) as real;
    var a, b := HalvesOf(zAxis, p), HalvesOf(zAxis, q);
    if |sites| == 0 {
      PairTraceNone(zAxis, n, sites, c, s, p, q);
      MaskNone(n, sites);
      KernelNoSites(v, n, a, b);
      HalvesEqual(zAxis, p, q);
      ProdUnits(w, w); RealZero();
    } else {
      var k := |sites| - 1;
      var site, fewer := sites[k], sites[..k];
      assert sites == fewer + [site];
      var r := SiteGate(zAxis, n, site, c, s);
      ProbeOfGate(zAxis, n, site, c, s);
      PairTraceSite(zAxis, n, fewer, site, c, s, p, q);
      MaskStep(n, fewer, site);
      var mask := MaskOf(n, fewer);
      KernelAddSite(v, mask, site, a, b);
      KernelIsTrace(n, zAxis, fewer, c, s, p, q);
      if b.sel[site] {
        KernelIsTrace(n, zAxis, fewer, c, s, p, ProductKey(q, r.g));
        SiteBranches(n, zAxis, site, c, s, q);
        RealBranches(w, v.cos, Kernel(v, mask, a, b), BranchWeight(v, b.flip[site]), Kernel(v, mask, a, Flipped(b, site)));
      }
    }
  }
}
