/**
 Laws of the operator Loschmidt echo: the bound by the norm, the value at zero angle, the exchange of
 the sign conventions, and the sum over ranks.
 */
module OleLaws {
  import opened Complexes
  import opened Dense
  import opened Paulis
  import opened PauliSums
  import opened Propagation
  import opened OleKernel
  import opened OleTrace
  import opened OleSums
  import opened OleOverlap

  // ---- The bound ----

  /** `2 Re Tr(a^dagger b) <= Tr(a^dagger a) + Tr(b^dagger b)`. */
  lemma {:induction false} TraceBound(n: nat, a: Mat, b: Mat)
    requires Square(a, n) && Square(b, n)
    ensures 2.0 * Trace(Mul(Dagger(a), b)).re <= Trace(Mul(Dagger(a), a)).re + Trace(Mul(Dagger(b), b)).re
  {
    hide Trace, Mul, Dagger, Square;
    SquareStep(a, n); SquareStep(b, n);
    DaggerStep(a); DaggerStep(b);
    if n == 0 {
      MulStep(Dagger(a), b); MulStep(Dagger(a), a); MulStep(Dagger(b), b);
      TraceStep(Mul(Dagger(a), b)); TraceStep(Mul(Dagger(a), a)); TraceStep(Mul(Dagger(b), b));
      ScalarBound(a.v, b.v);
    } else {
      DaggerSquare(n, a); DaggerSquare(n, b);
      TraceMulBlocks(n, Dagger(a), b); TraceMulBlocks(n, Dagger(a), a); TraceMulBlocks(n, Dagger(b), b);
      TraceBound(n - 1, a.nw, b.nw); TraceBound(n - 1, a.ne, b.ne);
      TraceBound(n - 1, a.sw, b.sw); TraceBound(n - 1, a.se, b.se);
    }
  }

  lemma ScalarBound(x: Complex, y: Complex)
    ensures 2.0 * x.Conj().Times(y).re <= x.Conj().Times(x).re + y.Conj().Times(y).re
  {
    hide Complex.Times, Complex.Conj;
    RealPart(x, y); RealPart(x, x); RealPart(y, y);
    SquareBound(x.re, y.re); SquareBound(x.im, y.im);
  }

  lemma RealPart(x: Complex, y: Complex)
    ensures x.Conj().Times(y).re == Prod(x.re, y.re) + Prod(x.im, y.im)
  {
  }

  lemma SquareBound(a: real, b: real)
    ensures 2.0 * Prod(a, b) <= Prod(a, a) + Prod(b, b)
  {
    assert (a - b) * (a - b) == a * a - 2.0 * (a * b) + b * b;
  }

  /** Scaling one factor of the inner product. */
  lemma ScaledTraces(n: nat, a: Mat, b: Mat, w: Complex)
    requires Square(a, n) && Square(b, n)
    ensures Trace(Mul(Dagger(a), Scale(w, b))) == w.Times(Trace(Mul(Dagger(a), b)))
    ensures Trace(Mul(Dagger(Scale(w, b)), Scale(w, b))) == w.Conj().Times(w.Times(Trace(Mul(Dagger(b), b))))
  {
    hide Trace, Mul, Dagger, Square, Scale, Complex.Times, Complex.Conj;
    DaggerSquare(n, a); DaggerSquare(n, b); MulSquare(n, Dagger(a), b); MulSquare(n, Dagger(b), b);
    MulScaleRight(w, Dagger(a), b);
    TraceScale(n, w, Mul(Dagger(a), b));
    DaggerScale(w, b);
    MulScaleLeft(w.Conj(), Dagger(b), Scale(w, b));
    MulScaleRight(w, Dagger(b), b);
    ScaleSquare(n, w, Mul(Dagger(b), b));
    TraceScale(n, w.Conj(), Scale(w, Mul(Dagger(b), b)));
    TraceScale(n, w, Mul(Dagger(b), b));
  }

  /** A number whose every multiple obeys `2 Re(w s) <= m (1 + |w|^2)` has modulus at most `m`. */
  lemma ModulusBound(s: Complex, m: real)
    requires m >= 0.0
    requires forall w: Complex :: 2.0 * w.Times(s).re <= m * (1.0 + w.Abs2())
    ensures s.Abs2() <= m * m
  {
    var q := s.Abs2();
    if m == 0.0 {
      var w := s.Conj();
      assert 2.0 * w.Times(s).re <= m * (1.0 + w.Abs2());
      assert w.Times(s).re == q;
    } else {
      var w := Complex(s.re / m, -s.im / m);
      assert 2.0 * w.Times(s).re <= m * (1.0 + w.Abs2());
      BoundArithmetic(s, m, w);
    }
  }

  lemma CancelFactor(t: real, m: real)
    requires m > 0.0 && t * m <= m
    ensures t <= 1.0
  {
    if t > 1.0 {
      Larger(t, m);
    }
  }

  lemma Larger(t: real, m: real)
    requires m > 0.0 && t > 1.0
    ensures t * m > m
  {
    assert (t - 1.0) * m > 0.0;
  }

  lemma ScaleDown(t: real, m: real)
    requires t <= 1.0
    ensures t * (m * m) <= m * m
  {
    assert m * m >= 0.0;
    assert (1.0 - t) * (m * m) >= 0.0;
  }

  lemma HalveInequality(r: real, q: real, t: real, m: real)
    requires r == t * m && q == t && 2.0 * r <= m * (1.0 + q)
    ensures t * m <= m
  {
    var product := t * m;
    assert m * q == product;
    assert m * (1.0 + q) == m + product;
    assert 2.0 * product <= m + product;
  }

  lemma BoundArithmetic(s: Complex, m: real, w: Complex)
    requires m > 0.0 && w == Complex(s.re / m, -s.im / m)
    requires 2.0 * w.Times(s).re <= m * (1.0 + w.Abs2())
    ensures s.Abs2() <= m * m
  {
    var a, b := s.re, s.im;
    var x, y := a / m, b / m;
    assert a == x * m && b == y * m;
    assert w.re == x && w.im == -y;
    assert w.Times(s).re == x * (x * m) + y * (y * m);
    var t := x * x + y * y;
    assert w.Times(s).re == t * m;
    assert w.Abs2() == t;
    HalveInequality(w.Times(s).re, w.Abs2(), t, m);
    CancelFactor(t, m);
    assert s.Abs2() == (x * m) * (x * m) + (y * m) * (y * m);
    assert s.Abs2() == t * (m * m);
    ScaleDown(t, m);
  }

  /**
   The echo never exceeds the norm: `|2^-n Tr(A^dagger V^dagger A V)| <= sum |c_P|^2`, for every sum with
   distinct keys, complex coefficients, sites, axis and angle.
   */
  lemma EchoBound(n: nat, zAxis: bool, sites: seq<nat>, c: real, s: real, ts: seq<Term>)
    requires OnQubits(n, ts) && Distinct(ts) && SitesOn(n, sites) && c * c + s * s == 1.0
    ensures
      var ms := MembersOf(zAxis, ts);
      PairSum(ProbeOf(zAxis, c, s), MaskOf(n, sites), ms, ms).Abs2() <= Norm2(ts) * Norm2(ts)
  {
    hide PairSum, ProbeOf, Norm2, Complex.Abs2, Complex.Times;
    var ms := MembersOf(zAxis, ts);
    var e := PairSum(ProbeOf(zAxis, c, s), MaskOf(n, sites), ms, ms);
    forall w: Complex ensures 2.0 * w.Times(e).re <= Norm2(ts) * (1.0 + w.Abs2()) {
      EchoInequality(n, zAxis, sites, c, s, ts, w);
    }
    Norm2Nonnegative(ts);
    ModulusBound(e, Norm2(ts));
  }

  lemma {:induction false} Norm2Nonnegative(ts: seq<Term>)
    ensures Norm2(ts) >= 0.0
  {
    hide Complex.Abs2;
    if |ts| > 0 {
      Norm2Nonnegative(ts[1..]);
      Abs2Nonnegative(ts[0].c);
    }
  }

  /** A product of unitary gates is unitary. */
  lemma {:induction false} CircuitUnitary(n: nat, gs: seq<Rotation>)
    requires CircuitOn(n, gs)
    ensures Mul(CircuitMat(n, gs), Dagger(CircuitMat(n, gs))) == Identity(n)
  {
    hide Mul, Dagger, CircuitMat, GateMat, Identity, Square;
    CircuitMatStep(n, gs);
    if |gs| == 0 {
      IdentitySquare(n); DaggerIdentity(n); MulIdentity(n, Identity(n));
    } else {
      var u, g := CircuitMat(n, gs[1..]), GateMat(n, gs[0]);
      CircuitUnitary(n, gs[1..]);
      GateUnitary(n, gs[0]);
      CircuitSquare(n, gs[1..]); GateSquare(n, gs[0]); DaggerSquare(n, u);
      DaggerMul(u, g);
      MulAssoc(u, g, Mul(Dagger(g), Dagger(u)));
      MulAssoc(g, Dagger(g), Dagger(u));
      MulIdentity(n, Dagger(u));
    }
  }

  lemma EchoInequality(n: nat, zAxis: bool, sites: seq<nat>, c: real, s: real, ts: seq<Term>, w: Complex)
    requires OnQubits(n, ts) && Distinct(ts) && SitesOn(n, sites) && c * c + s * s == 1.0
    ensures
      var ms := MembersOf(zAxis, ts);
      2.0 * w.Times(PairSum(ProbeOf(zAxis, c, s), MaskOf(n, sites), ms, ms)).re <= Norm2(ts) * (1.0 + w.Abs2())
  {
    hide PairSum, ProbeOf, Norm2, SumMat, Mul, Dagger, Trace, Square, Conjugate, CircuitMat, Scale, Overlap, Identity, MembersOf;
    SiteCircuitOn(zAxis, n, sites, c, s);
    var ms := MembersOf(zAxis, ts);
    var e := PairSum(ProbeOf(zAxis, c, s), MaskOf(n, sites), ms, ms);
    var gs := SiteCircuit(zAxis, n, sites, c, s);
    var u, a := CircuitMat(n, gs), SumMat(n, ts);
    var b := Conjugate(u, a);
    SumMatSquare(n, ts); CircuitSquare(n, gs); ConjugateSquare(n, u, a); ScaleSquare(n, w, b);
    PairSumIsTrace(n, zAxis, sites, c, s, ts, ts);
    TraceOverlap(n, ts, ts); OverlapSelf(ts);
    CircuitUnitary(n, gs);
    TraceInvariant(n, u, a);
    ScaledTraces(n, a, b, w);
    TraceBound(n, a, Scale(w, b));
    EchoArithmetic(Pow2(n) as real, e, Norm2(ts), w,
                   Trace(Mul(Dagger(a), Scale(w, b))), Trace(Mul(Dagger(a), a)),
                   Trace(Mul(Dagger(Scale(w, b)), Scale(w, b))));
  }

  lemma EchoArithmetic(k: real, e: Complex, m: real, w: Complex, x: Complex, y: Complex, z: Complex)
    requires k > 0.0
    requires x == w.Times(Real(k).Times(e)) && y == Real(k).Times(Real(m))
    requires z == w.Conj().Times(w.Times(y))
    requires 2.0 * x.re <= y.re + z.re
    ensures 2.0 * w.Times(e).re <= m * (1.0 + w.Abs2())
  {
    hide Complex.Times, Complex.Conj, Complex.Abs2, Real;
    var r := w.Times(e).re;
    ScalarShuffle(w, Real(k), e); RealTimes(k, w.Times(e));
    RealTimes(k, Real(m)); RealParts(m);
    TimesAssoc(w.Conj(), w, y); ConjSelf(w); RealTimes(w.Abs2(), y);
    DivideInequality(k, r, m, w.Abs2(), x.re, y.re, z.re);
  }

  lemma RealTimes(k: real, c: Complex)
    ensures Real(k).Times(c).re == k * c.re
  {
  }

  lemma RealParts(m: real)
    ensures Real(m).re == m
  {
  }

  lemma DivideInequality(k: real, r: real, m: real, q: real, x: real, y: real, z: real)
    requires k > 0.0 && x == k * r && y == k * m && z == q * (k * m) && 2.0 * x <= y + z
    ensures 2.0 * r <= m * (1.0 + q)
  {
    var gap := 2.0 * r - m * (1.0 + q);
    assert m * (1.0 + q) == m + q * m;
    assert k * gap == 2.0 * (k * r) - k * m - q * (k * m);
    if gap > 0.0 {
      Positive(k, gap);
    }
  }

  lemma Positive(a: real, b: real)
    requires a > 0.0 && b > 0.0
    ensures a * b > 0.0
  {
  }

  // ---- Zero angle ----

  /** At `delta = 0` the kernel is the identity matrix. */
  lemma {:induction false} KernelZeroAngle(zAxis: bool, mask: Row, a: Halves, b: Halves)
    requires a.On(|mask|) && b.On(|mask|)
    ensures Kernel(Probe(zAxis, 1.0, 0.0), mask, a, b) == if a == b then 1.0 else 0.0
    decreases |mask|
  {
    hide Prod;
    if |mask| == 0 {
      assert a.sel == b.sel && a.flip == b.flip;
    } else {
      KernelZeroAngle(zAxis, mask[1..], TailOf(a), TailOf(b));
      HeadTail(a.sel, b.sel); HeadTail(a.flip, b.flip);
      ProdUnits(1.0, 1.0); ProdUnits(0.0, 0.0); ProdUnits(1.0, 0.0);
    }
  }

  /** The zero-angle echo is `sum |c_P|^2`. */
  lemma EchoZeroAngle(zAxis: bool, mask: Row, ts: seq<Term>)
    requires OnQubits(|mask|, ts) && Distinct(ts)
    ensures
      var ms := MembersOf(zAxis, ts);
      PairSum(Probe(zAxis, 1.0, 0.0), mask, ms, ms) == Real(Norm2(ts))
  {
    hide PairSum, Kernel;
    var ms := MembersOf(zAxis, ts);
    MembersOfTerms(|mask|, zAxis, ts);
    forall i, j | 0 <= i < |ms| && 0 <= j < |ms|
      ensures Kernel(Probe(zAxis, 1.0, 0.0), mask, ms[i].h, ms[j].h) == if i == j then 1.0 else 0.0
    {
      KernelZeroAngle(zAxis, mask, ms[i].h, ms[j].h);
    }
    DiagonalSum(Probe(zAxis, 1.0, 0.0), mask, ms, |ms|);
    assert ms[..|ms|] == ms;
    MemberNormOfTerms(zAxis, ts);
  }

  lemma {:induction false} MemberNormOfTerms(zAxis: bool, ts: seq<Term>)
    ensures MemberNorm(MembersOf(zAxis, ts)) == Norm2(ts)
  {
    hide Complex.Abs2;
    if |ts| > 0 {
      MemberNormOfTerms(zAxis, ts[1..]);
      assert MembersOf(zAxis, ts) == [Member(HalvesOf(zAxis, ts[0].p), ts[0].c)] + MembersOf(zAxis, ts[1..]);
      MemberNormFront(Member(HalvesOf(zAxis, ts[0].p), ts[0].c), MembersOf(zAxis, ts[1..]));
    }
  }

  lemma {:induction false} MemberNormFront(m: Member, ms: seq<Member>)
    ensures MemberNorm([m] + ms) == m.c.Abs2() + MemberNorm(ms)
  {
    hide Complex.Abs2;
    if |ms| == 0 {
      assert [m] + ms == [m];
      assert [m][..0] == [];
    } else {
      assert ([m] + ms)[..|ms|] == [m] + ms[..|ms| - 1];
      MemberNormFront(m, ms[..|ms| - 1]);
    }
  }

  // ---- Exchanging the sign conventions ----

  /** Both `axis` sign rules, and both signs of `delta`, are transposes of one another. */
  lemma {:induction false} KernelTranspose(v: Probe, u: Probe, mask: Row, a: Halves, b: Halves)
    requires a.On(|mask|) && b.On(|mask|) && u.cos == v.cos
    requires (u.zAxis != v.zAxis && u.sin == v.sin) || (u.zAxis == v.zAxis && u.sin == -v.sin)
    ensures Kernel(u, mask, a, b) == Kernel(v, mask, b, a)
    decreases |mask|
  {
    hide Prod;
    if |mask| > 0 {
      KernelTranspose(v, u, mask[1..], TailOf(a), TailOf(b));
    }
  }

  lemma WeightTranspose(v: Probe, u: Probe, mask: Row, a: Member, b: Member)
    requires a.h.On(|mask|) && b.h.On(|mask|) && Kernel(u, mask, a.h, b.h) == Kernel(v, mask, b.h, a.h)
    ensures PairWeight(u, mask, a, b) == PairWeight(v, mask, b, a).Conj()
  {
    hide Kernel, Complex.Times, Complex.Conj;
    var k := Kernel(v, mask, b.h, a.h);
    ConjTimes(b.c.Conj().Times(a.c), Real(k));
    ConjTimes(b.c.Conj(), a.c);
    ConjConj(b.c);
    TimesComm(b.c, a.c.Conj());
    ConjReal(Real(k));
  }

  /** Reading the pairs by columns instead of rows, with the other convention, conjugates the sum. */
  lemma {:induction false} RowTranspose(v: Probe, u: Probe, mask: Row, a: Member, bs: seq<Member>)
    requires a.h.On(|mask|) && MembersOn(|mask|, bs) && u.cos == v.cos
    requires (u.zAxis != v.zAxis && u.sin == v.sin) || (u.zAxis == v.zAxis && u.sin == -v.sin)
    ensures RowSum(u, mask, a, bs) == PairSum(v, mask, bs, [a]).Conj()
  {
    hide Kernel, PairWeight, Complex.Plus, Complex.Conj;
    if |bs| == 0 {
      ConjUnits();
    } else {
      RowTranspose(v, u, mask, a, bs[1..]);
      KernelTranspose(v, u, mask, a.h, bs[0].h);
      WeightTranspose(v, u, mask, a, bs[0]);
      RowSumOne(v, mask, bs[0], a);
      ConjPlus(PairWeight(v, mask, bs[0], a), PairSum(v, mask, bs[1..], [a]));
    }
  }

  lemma {:induction false} PairTranspose(v: Probe, u: Probe, mask: Row, xs: seq<Member>, bs: seq<Member>)
    requires MembersOn(|mask|, xs) && MembersOn(|mask|, bs) && u.cos == v.cos
    requires (u.zAxis != v.zAxis && u.sin == v.sin) || (u.zAxis == v.zAxis && u.sin == -v.sin)
    ensures PairSum(u, mask, xs, bs) == PairSum(v, mask, bs, xs).Conj()
  {
    hide RowSum, Complex.Plus, Complex.Conj;
    if |xs| == 0 {
      PairSumNoColumns(v, mask, bs);
      ConjUnits();
    } else {
      PairTranspose(v, u, mask, xs[1..], bs);
      RowTranspose(v, u, mask, xs[0], bs);
      assert xs == [xs[0]] + xs[1..];
      PairSumConcatRight(v, mask, bs, [xs[0]], xs[1..]);
      ConjPlus(PairSum(v, mask, bs, [xs[0]]), PairSum(v, mask, bs, xs[1..]));
    }
  }

  lemma {:induction false} PairSumNoColumns(v: Probe, mask: Row, bs: seq<Member>)
    requires MembersOn(|mask|, bs)
    ensures PairSum(v, mask, bs, []) == ZERO
  {
    hide Complex.Plus;
    if |bs| > 0 {
      PairSumNoColumns(v, mask, bs[1..]);
      PlusZero(ZERO);
    }
  }

  /**
   Exchanging the two sign rules, or negating `delta`, conjugates the echo; the real part that
   `rotated_overlap` returns depends on neither.
   */
  lemma EchoConventions(v: Probe, mask: Row, ms: seq<Member>)
    requires MembersOn(|mask|, ms)
    ensures PairSum(Probe(!v.zAxis, v.cos, v.sin), mask, ms, ms) == PairSum(v, mask, ms, ms).Conj()
    ensures PairSum(Probe(v.zAxis, v.cos, -v.sin), mask, ms, ms) == PairSum(v, mask, ms, ms).Conj()
    ensures PairSum(Probe(!v.zAxis, v.cos, v.sin), mask, ms, ms).re == PairSum(v, mask, ms, ms).re
    ensures PairSum(Probe(v.zAxis, v.cos, -v.sin), mask, ms, ms).re == PairSum(v, mask, ms, ms).re
  {
    hide PairSum;
    PairTranspose(v, Probe(!v.zAxis, v.cos, v.sin), mask, ms, ms);
    PairTranspose(v, Probe(v.zAxis, v.cos, -v.sin), mask, ms, ms);
  }
}
