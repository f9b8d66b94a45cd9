/**
 The naive operator Loschmidt echo, a sum over all ordered pairs of terms, and the regroupings the
 fast estimator relies on: it does not depend on the order of the terms, and pairs from different
 classes contribute nothing.
 */
module OleSums {
  import opened Complexes
  import opened Dense
  import opened Paulis
  import opened PauliSums
  import opened Propagation
  import opened OleKernel
  import opened OleTrace

  /** One term, split into the half that selects and the half that flips. */
  datatype Member = Member(h: Halves, c: Complex)

  predicate MembersOn(n: nat, ms: seq<Member>) {
    forall i :: 0 <= i < |ms| ==> ms[i].h.On(n)
  }

  predicate DistinctMembers(ms: seq<Member>) {
    forall i, j :: 0 <= i < j < |ms| ==> ms[i].h != ms[j].h
  }

  function MembersOf(zAxis: bool, ts: seq<Term>): (ms: seq<Member>)
    ensures |ms| == |ts|
    ensures forall i :: 0 <= i < |ts| ==> ms[i] == Member(HalvesOf(zAxis, ts[i].p), ts[i].c)
  {
    seq(|ts|, i requires 0 <= i < |ts| => Member(HalvesOf(zAxis, ts[i].p), ts[i].c))
  }

  /** `conj(c_P) c_Q R[P, Q]`. */
  function PairWeight(v: Probe, mask: Row, a: Member, b: Member): Complex
    requires a.h.On(|mask|) && b.h.On(|mask|)
  {
    a.c.Conj().Times(b.c).Times(Real(Kernel(v, mask, a.h, b.h)))
  }

  function RowSum(v: Probe, mask: Row, a: Member, bs: seq<Member>): Complex
    requires a.h.On(|mask|) && MembersOn(|mask|, bs)
  {
    if |bs| == 0 then ZERO else PairWeight(v, mask, a, bs[0]).Plus(RowSum(v, mask, a, bs[1..]))
  }

  /** The sum over all ordered pairs. */
  function PairSum(v: Probe, mask: Row, as': seq<Member>, bs: seq<Member>): Complex
    requires MembersOn(|mask|, as') && MembersOn(|mask|, bs)
  {
    if |as'| == 0 then ZERO else RowSum(v, mask, as'[0], bs).Plus(PairSum(v, mask, as'[1..], bs))
  }

  // ---- Concatenation and reordering ----

  lemma {:induction false} RowSumConcat(v: Probe, mask: Row, a: Member, bs: seq<Member>, cs: seq<Member>)
    requires a.h.On(|mask|) && MembersOn(|mask|, bs) && MembersOn(|mask|, cs)
    ensures RowSum(v, mask, a, bs + cs) == RowSum(v, mask, a, bs).Plus(RowSum(v, mask, a, cs))
  {
    hide PairWeight, Complex.Plus;
    if |bs| == 0 {
      assert bs + cs == cs;
      PlusZero(RowSum(v, mask, a, cs));
    } else {
      assert (bs + cs)[1..] == bs[1..] + cs;
      RowSumConcat(v, mask, a, bs[1..], cs);
      PlusAssoc(PairWeight(v, mask, a, bs[0]), RowSum(v, mask, a, bs[1..]), RowSum(v, mask, a, cs));
    }
  }

  lemma {:induction false} PairSumConcatLeft(v: Probe, mask: Row, xs: seq<Member>, ys: seq<Member>, bs: seq<Member>)
    requires MembersOn(|mask|, xs) && MembersOn(|mask|, ys) && MembersOn(|mask|, bs)
    ensures PairSum(v, mask, xs + ys, bs) == PairSum(v, mask, xs, bs).Plus(PairSum(v, mask, ys, bs))
  {
    hide RowSum, Complex.Plus;
    if |xs| == 0 {
      assert xs + ys == ys;
      PlusZero(PairSum(v, mask, ys, bs));
    } else {
      assert (xs + ys)[1..] == xs[1..] + ys;
      PairSumConcatLeft(v, mask, xs[1..], ys, bs);
      PlusAssoc(RowSum(v, mask, xs[0], bs), PairSum(v, mask, xs[1..], bs), PairSum(v, mask, ys, bs));
    }
  }

  lemma {:induction false} PairSumConcatRight(v: Probe, mask: Row, xs: seq<Member>, bs: seq<Member>, cs: seq<Member>)
    requires MembersOn(|mask|, xs) && MembersOn(|mask|, bs) && MembersOn(|mask|, cs)
    ensures PairSum(v, mask, xs, bs + cs) == PairSum(v, mask, xs, bs).Plus(PairSum(v, mask, xs, cs))
  {
    hide RowSum, Complex.Plus;
    if |xs| == 0 {
      PlusZero(ZERO);
    } else {
      PairSumConcatRight(v, mask, xs[1..], bs, cs);
      RowSumConcat(v, mask, xs[0], bs, cs);
      PlusSwap(RowSum(v, mask, xs[0], bs), RowSum(v, mask, xs[0], cs),
               PairSum(v, mask, xs[1..], bs), PairSum(v, mask, xs[1..], cs));
    }
  }

  /** Where the first element of one list sits in a reordering of it. */
  lemma MatchFirst(bs: seq<Member>, cs: seq<Member>) returns (k: nat)
    requires |bs| > 0 && multiset(bs) == multiset(cs)
    ensures k < |cs| && cs[k] == bs[0]
    ensures multiset(bs[1..]) == multiset(cs[..k] + cs[k + 1..])
  {
    assert bs[0] in multiset(bs);
    assert bs[0] in cs;
    k :| 0 <= k < |cs| && cs[k] == bs[0];
    assert bs == [bs[0]] + bs[1..];
    assert cs == cs[..k] + [cs[k]] + cs[k + 1..];
    var x, y := multiset(bs[1..]), multiset(cs[..k] + cs[k + 1..]);
    assert multiset(bs) == multiset{bs[0]} + x;
    assert multiset(cs) == multiset(cs[..k]) + multiset{cs[k]} + multiset(cs[k + 1..]);
    assert x == multiset(bs) - multiset{bs[0]};
    assert y == multiset(cs) - multiset{bs[0]};
  }

  lemma {:induction false} RowSumPermutation(v: Probe, mask: Row, a: Member, bs: seq<Member>, cs: seq<Member>)
    requires a.h.On(|mask|) && MembersOn(|mask|, bs) && MembersOn(|mask|, cs) && multiset(bs) == multiset(cs)
    ensures RowSum(v, mask, a, bs) == RowSum(v, mask, a, cs)
    decreases |bs|
  {
    hide PairWeight, Complex.Plus;
    PermutedLength(bs, cs);
    if |bs| > 0 {
      var k := MatchFirst(bs, cs);
      var rest := cs[..k] + cs[k + 1..];
      RowSumPermutation(v, mask, a, bs[1..], rest);
      RowSumConcat(v, mask, a, cs[..k], cs[k + 1..]);
      assert cs == cs[..k] + cs[k..];
      RowSumConcat(v, mask, a, cs[..k], cs[k..]);
      assert cs[k..][1..] == cs[k + 1..];
      FrontExchange(RowSum(v, mask, a, cs[..k]), PairWeight(v, mask, a, cs[k]), RowSum(v, mask, a, cs[k + 1..]));
    }
  }

  lemma PermutedLength(bs: seq<Member>, cs: seq<Member>)
    requires multiset(bs) == multiset(cs)
    ensures |bs| == |cs|
  {
    assert |multiset(bs)| == |bs|;
    assert |multiset(cs)| == |cs|;
  }

  lemma FrontExchange(x: Complex, w: Complex, y: Complex)
    ensures w.Plus(x.Plus(y)) == x.Plus(w.Plus(y))
  {
  }

  lemma {:induction false} PairSumSameRight(v: Probe, mask: Row, xs: seq<Member>, bs: seq<Member>, cs: seq<Member>)
    requires MembersOn(|mask|, xs) && MembersOn(|mask|, bs) && MembersOn(|mask|, cs) && multiset(bs) == multiset(cs)
    ensures PairSum(v, mask, xs, bs) == PairSum(v, mask, xs, cs)
  {
    hide RowSum, Complex.Plus;
    if |xs| > 0 {
      RowSumPermutation(v, mask, xs[0], bs, cs);
      PairSumSameRight(v, mask, xs[1..], bs, cs);
    }
  }

  lemma {:induction false} PairSumSameLeft(v: Probe, mask: Row, xs: seq<Member>, ys: seq<Member>, bs: seq<Member>)
    requires MembersOn(|mask|, xs) && MembersOn(|mask|, ys) && MembersOn(|mask|, bs) && multiset(xs) == multiset(ys)
    ensures PairSum(v, mask, xs, bs) == PairSum(v, mask, ys, bs)
    decreases |xs|
  {
    hide RowSum, Complex.Plus;
    PermutedLength(xs, ys);
    if |xs| > 0 {
      var k := MatchFirst(xs, ys);
      var rest := ys[..k] + ys[k + 1..];
      PairSumSameLeft(v, mask, xs[1..], rest, bs);
      PairSumConcatLeft(v, mask, ys[..k], ys[k + 1..], bs);
      assert ys == ys[..k] + ys[k..];
      PairSumConcatLeft(v, mask, ys[..k], ys[k..], bs);
      assert ys[k..][1..] == ys[k + 1..];
      FrontExchange(PairSum(v, mask, ys[..k], bs), RowSum(v, mask, ys[k], bs), PairSum(v, mask, ys[k + 1..], bs));
    }
  }

  /** The naive echo of a sum does not depend on the order of its terms. */
  lemma PairSumPermutation(v: Probe, mask: Row, xs: seq<Member>, ys: seq<Member>)
    requires MembersOn(|mask|, xs) && MembersOn(|mask|, ys) && multiset(xs) == multiset(ys)
    ensures PairSum(v, mask, xs, xs) == PairSum(v, mask, ys, ys)
  {
    hide PairSum;
    PairSumSameLeft(v, mask, xs, ys, xs);
    PairSumSameRight(v, mask, ys, xs, ys);
  }

  // ---- Vanishing pairs ----

  lemma ZeroWeight(v: Probe, mask: Row, a: Member, b: Member)
    requires a.h.On(|mask|) && b.h.On(|mask|) && Kernel(v, mask, a.h, b.h) == 0.0
    ensures PairWeight(v, mask, a, b) == ZERO
  {
    hide Complex.Times, Kernel;
    RealZero();
    TimesUnits(a.c.Conj().Times(b.c));
  }

  lemma {:induction false} RowSumZero(v: Probe, mask: Row, a: Member, bs: seq<Member>)
    requires a.h.On(|mask|) && MembersOn(|mask|, bs)
    requires forall i :: 0 <= i < |bs| ==> Kernel(v, mask, a.h, bs[i].h) == 0.0
    ensures RowSum(v, mask, a, bs) == ZERO
  {
    hide PairWeight, Complex.Plus, Kernel;
    if |bs| > 0 {
      ZeroWeight(v, mask, a, bs[0]);
      assert forall i :: 0 <= i < |bs| - 1 ==> bs[1..][i] == bs[i + 1];
      RowSumZero(v, mask, a, bs[1..]);
      PlusZero(ZERO);
    }
  }

  lemma {:induction false} PairSumZero(v: Probe, mask: Row, xs: seq<Member>, bs: seq<Member>)
    requires MembersOn(|mask|, xs) && MembersOn(|mask|, bs)
    requires forall i, j :: 0 <= i < |xs| && 0 <= j < |bs| ==> Kernel(v, mask, xs[i].h, bs[j].h) == 0.0
    ensures PairSum(v, mask, xs, bs) == ZERO
  {
    hide RowSum, Complex.Plus, Kernel;
    if |xs| > 0 {
      RowSumZero(v, mask, xs[0], bs);
      assert forall i :: 0 <= i < |xs| - 1 ==> xs[1..][i] == xs[i + 1];
      PairSumZero(v, mask, xs[1..], bs);
      PlusZero(ZERO);
    }
  }

  // ---- The dense meaning ----

  /** `Tr(P V^dagger B V)` is the sum of the pair traces. */
  lemma {:induction false} TraceRow(n: nat, zAxis: bool, sites: seq<nat>, c: real, s: real, a: Term, bs: seq<Term>)
    requires a.p.On(n) && OnQubits(n, bs) && SitesOn(n, sites) && c * c + s * s == 1.0
    ensures CircuitOn(n, SiteCircuit(zAxis, n, sites, c, s))
    ensures
      var u := CircuitMat(n, SiteCircuit(zAxis, n, sites, c, s));
      var member := Member(HalvesOf(zAxis, a.p), a.c);
      a.c.Conj().Times(Trace(Mul(PauliMat(a.p), Conjugate(u, SumMat(n, bs)))))
      == Real(Pow2(n) as real).Times(RowSum(ProbeOf(zAxis, c, s), MaskOf(n, sites), member, MembersOf(zAxis, bs)))
  {
    hide Trace, Mul, PauliMat, Conjugate, SumMat, CircuitMat, PairWeight, Scale, Add, Square, Zero, Kernel, Dagger, ProbeOf, Real, Complex.Times, Complex.Plus, Complex.Conj;
    SiteCircuitOn(zAxis, n, sites, c, s);
    var gs := SiteCircuit(zAxis, n, sites, c, s);
    var u := CircuitMat(n, gs);
    var w := Real(Pow2(n) as real);
    var v, mask := ProbeOf(zAxis, c, s), MaskOf(n, sites);
    var member := Member(HalvesOf(zAxis, a.p), a.c);
    var ms := MembersOf(zAxis, bs);
    SumMatStep(n, bs); CircuitSquare(n, gs); PauliMatSquare(a.p);
    if |bs| == 0 {
      ConjugateZero(n, u); MulZero(n, PauliMat(a.p)); TraceZero(n);
      TimesUnits(w); TimesUnits(a.c.Conj());
    } else {
      var b := bs[0];
      assert ms[1..] == MembersOf(zAxis, bs[1..]);
      TraceRow(n, zAxis, sites, c, s, a, bs[1..]);
      PauliMatSquare(b.p); SumMatSquare(n, bs[1..]); ScaleUnits(n, SumMat(n, bs[1..]));
      TraceBranches(n, PauliMat(a.p), u, b.c, PauliMat(b.p), ONE, SumMat(n, bs[1..]));
      KernelIsTrace(n, zAxis, sites, c, s, a.p, b.p);
      var t := Trace(Mul(PauliMat(a.p), Conjugate(u, SumMat(n, bs[1..]))));
      PairTerm(a.c.Conj(), b.c, Pow2(n) as real, Kernel(v, mask, member.h, ms[0].h));
      TimesUnits(t);
      TimesPlus(a.c.Conj(), b.c.Times(PairTrace(zAxis, n, sites, c, s, a.p, b.p)), t);
      TimesPlus(w, PairWeight(v, mask, member, ms[0]), RowSum(v, mask, member, ms[1..]));
      assert PairWeight(v, mask, member, ms[0]) == a.c.Conj().Times(b.c).Times(Real(Kernel(v, mask, member.h, ms[0].h))) by {
        WeightUnfold(v, mask, member, ms[0]);
      }
    }
  }

  lemma WeightUnfold(v: Probe, mask: Row, a: Member, b: Member)
    requires a.h.On(|mask|) && b.h.On(|mask|)
    ensures PairWeight(v, mask, a, b) == a.c.Conj().Times(b.c).Times(Real(Kernel(v, mask, a.h, b.h)))
  {
  }

  lemma ConjugateZero(n: nat, u: Mat)
    requires Square(u, n)
    ensures Conjugate(u, Zero(n)) == Zero(n)
  {
    hide Mul, Dagger, Zero, Square;
    DaggerSquare(n, u); MulZero(n, Dagger(u)); MulZero(n, u);
  }

  lemma PairTerm(x: Complex, y: Complex, w: real, k: real)
    ensures x.Times(y.Times(Real(Prod(w, k)))) == Real(w).Times(x.Times(y).Times(Real(k)))
  {
    hide *;
    RealProd(w, k);
    TimesAssoc(x, y, Real(w).Times(Real(k)));
    ScalarShuffle(x.Times(y), Real(w), Real(k));
  }

  lemma RealProd(w: real, k: real)
    ensures Real(Prod(w, k)) == Real(w).Times(Real(k))
  {
  }

  /**
   The naive pair sum is the operator Loschmidt echo: `Tr(A^dagger V^dagger A V) == 2^n PairSum(A, A)`,
   stated for two sums.
   */
  lemma {:induction false} PairSumIsTrace(n: nat, zAxis: bool, sites: seq<nat>, c: real, s: real, as': seq<Term>, bs: seq<Term>)
    requires OnQubits(n, as') && OnQubits(n, bs) && SitesOn(n, sites) && c * c + s * s == 1.0
    ensures CircuitOn(n, SiteCircuit(zAxis, n, sites, c, s))
    ensures
      var u := CircuitMat(n, SiteCircuit(zAxis, n, sites, c, s));
      Trace(Mul(Dagger(SumMat(n, as')), Conjugate(u, SumMat(n, bs))))
      == Real(Pow2(n) as real).Times(
           PairSum(ProbeOf(zAxis, c, s), MaskOf(n, sites), MembersOf(zAxis, as'), MembersOf(zAxis, bs)))
  {
    hide Trace, Mul, PauliMat, Conjugate, SumMat, CircuitMat, RowSum, Scale, Add, Square, Zero, Dagger, ProbeOf, Real, Complex.Times, Complex.Plus, Complex.Conj;
    SiteCircuitOn(zAxis, n, sites, c, s);
    var gs := SiteCircuit(zAxis, n, sites, c, s);
    var u := CircuitMat(n, gs);
    var w := Real(Pow2(n) as real);
    var v, mask := ProbeOf(zAxis, c, s), MaskOf(n, sites);
    var ms, ns := MembersOf(zAxis, as'), MembersOf(zAxis, bs);
    var m := Conjugate(u, SumMat(n, bs));
    SumMatStep(n, as'); CircuitSquare(n, gs); SumMatSquare(n, bs); ConjugateSquare(n, u, SumMat(n, bs));
    if |as'| == 0 {
      DaggerZero(n); MulZero(n, m); TraceZero(n);
      TimesUnits(w);
    } else {
      var t := as'[0];
      var q, r := PauliMat(t.p), SumMat(n, as'[1..]);
      assert ms[1..] == MembersOf(zAxis, as'[1..]);
      PairSumIsTrace(n, zAxis, sites, c, s, as'[1..], bs);
      TraceRow(n, zAxis, sites, c, s, t, bs);
      DaggerAdd(Scale(t.c, q), r); DaggerScale(t.c, q); PauliDagger(t.p);
      PauliMatSquare(t.p); ScaleSquare(n, t.c.Conj(), q); SumMatSquare(n, as'[1..]); DaggerSquare(n, r);
      MulAddLeft(Scale(t.c.Conj(), q), Dagger(r), m);
      MulSquare(n, Scale(t.c.Conj(), q), m); MulSquare(n, Dagger(r), m); MulSquare(n, q, m);
      TraceAdd(n, Mul(Scale(t.c.Conj(), q), m), Mul(Dagger(r), m));
      MulScaleLeft(t.c.Conj(), q, m);
      TraceScale(n, t.c.Conj(), Mul(q, m));
      TimesPlus(w, RowSum(v, mask, ms[0], ns), PairSum(v, mask, ms[1..], ns));
    }
  }
}
