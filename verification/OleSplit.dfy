/**
 When a distributed echo is right: the exact conditions on the owner function, for the complex total and
 for the real part that is returned.
 */
module OleSplit {
  import opened Complexes
  import opened Paulis
  import opened PauliSums
  import opened OleKernel
  import opened OleTrace
  import opened OleSums
  import opened OleOverlap
  import opened OleLaws
  import opened OleRanks
  import opened OleDiagonal

  // ---- Flips and the sign of the kernel ----

  /** Moving sites at which two strings of a class differ. */
  function Flips(mask: Row, a: Halves, b: Halves): nat
    requires a.On(|mask|) && b.On(|mask|)
  {
    var k := Moving(mask, a);
    Popcount(Xor(And(a.flip, k), And(b.flip, k)))
  }

  function Mirrored(v: Probe): Probe {
    Probe(v.zAxis, v.cos, -v.sin)
  }

  lemma {:induction false} PowNegated(b: real, k: nat)
    ensures Pow(-b, k) == Signed(k % 2 == 1, Pow(b, k))
  {
    hide Prod;
    if k > 0 {
      PowNegated(b, k - 1);
      ProdUnits(b, Pow(b, k - 1)); ProdUnits(-b, Pow(b, k - 1));
    }
  }

  lemma {:induction false} PowNonzero(b: real, k: nat)
    ensures Pow(b, k) != 0.0 <==> b != 0.0 || k == 0
  {
    hide Prod;
    if k > 0 {
      PowNonzero(b, k - 1);
      ProdNonzero(b, Pow(b, k - 1));
    }
  }

  lemma ProdNonzero(a: real, b: real)
    ensures Prod(a, b) != 0.0 <==> a != 0.0 && b != 0.0
  {
  }

  lemma SignedProd(o: bool, x: real, y: real)
    ensures Prod(x, Signed(o, y)) == Signed(o, Prod(x, y))
  {
    hide Prod;
    ProdUnits(x, y);
  }

  /** In a class, negating the angle multiplies the kernel by one sign per flip. */
  lemma KernelNegated(v: Probe, mask: Row, a: Halves, b: Halves)
    requires a.On(|mask|) && b.On(|mask|) && SameClass(mask, a, b)
    ensures Kernel(Mirrored(v), mask, a, b) == Signed(Flips(mask, a, b) % 2 == 1, Kernel(v, mask, a, b))
  {
    hide Kernel, SameClass, Prod, Pow, Popcount;
    var k := Moving(mask, a);
    var f := Flips(mask, a, b);
    KernelInClass(v, mask, a, b);
    KernelInClass(Mirrored(v), mask, a, b);
    PowNegated(v.sin, f);
    SignedProd(f % 2 == 1, Pow(v.cos, Popcount(k) - f), Pow(v.sin, f));
  }

  /**
   Which strings the probe mixes at a given angle: those of one class; at `cos == 0` only the string flipped at
   every moving site, at `sin == 0` only the string itself.
   */
  predicate Meets(v: Probe, mask: Row, a: Halves, b: Halves)
    requires a.On(|mask|) && b.On(|mask|)
  {
    && SameClass(mask, a, b)
    && (v.cos == 0.0 ==> Flips(mask, a, b) == Popcount(Moving(mask, a)))
    && (v.sin == 0.0 ==> Flips(mask, a, b) == 0)
  }

  lemma KernelNonzero(v: Probe, mask: Row, a: Halves, b: Halves)
    requires a.On(|mask|) && b.On(|mask|)
    ensures Kernel(v, mask, a, b) != 0.0 <==> Meets(v, mask, a, b)
  {
    hide Kernel, SameClass, Prod, Pow, Popcount;
    if SameClass(mask, a, b) {
      var k := Moving(mask, a);
      var f := Flips(mask, a, b);
      KernelInClass(v, mask, a, b);
      PowNonzero(v.cos, Popcount(k) - f); PowNonzero(v.sin, f);
      ProdNonzero(Pow(v.cos, Popcount(k) - f), Pow(v.sin, f));
    } else {
      KernelOffClass(v, mask, a, b);
    }
  }

  /** Exchanging two strings of a class: one sign per flip. */
  lemma KernelSwap(v: Probe, mask: Row, a: Halves, b: Halves)
    requires a.On(|mask|) && b.On(|mask|) && SameClass(mask, a, b)
    ensures Kernel(v, mask, b, a) == Signed(Flips(mask, a, b) % 2 == 1, Kernel(v, mask, a, b))
  {
    hide Kernel, SameClass, Flips;
    KernelNegated(v, mask, a, b);
    KernelTranspose(v, Mirrored(v), mask, a, b);
  }

  lemma {:induction false} NoFlips(k: Row, f: Row, g: Row)
    requires |k| == |f| == |g| && AndNot(f, k) == AndNot(g, k) && Popcount(Xor(And(f, k), And(g, k))) == 0
    ensures f == g
  {
    NoMovingBits(Xor(And(f, k), And(g, k)));
    forall i | 0 <= i < |k| ensures f[i] == g[i] {
      assert AndNot(f, k)[i] == AndNot(g, k)[i];
      assert !Xor(And(f, k), And(g, k))[i];
    }
  }

  // ---- Any two groups ----

  lemma FourGroups(v: Probe, mask: Row, low: seq<Member>, here: seq<Member>, all: seq<Member>)
    requires MembersOn(|mask|, low) && MembersOn(|mask|, here) && MembersOn(|mask|, all)
    requires multiset(all) == multiset(low + here)
    ensures PairSum(v, mask, all, all)
         == PairSum(v, mask, low, low).Plus(PairSum(v, mask, low, here)).Plus(
              PairSum(v, mask, here, low).Plus(PairSum(v, mask, here, here)))
  {
    hide PairSum, Complex.Plus;
    PairSumPermutation(v, mask, all, low + here);
    PairSumConcatLeft(v, mask, low, here, low + here);
    PairSumConcatRight(v, mask, low, low, here);
    PairSumConcatRight(v, mask, here, low, here);
  }

  lemma {:induction false} RowNegated(v: Probe, u: Probe, mask: Row, a: Member, bs: seq<Member>)
    requires a.h.On(|mask|) && MembersOn(|mask|, bs)
    requires forall j :: 0 <= j < |bs| ==> Kernel(u, mask, a.h, bs[j].h) == -Kernel(v, mask, a.h, bs[j].h)
    ensures RowSum(u, mask, a, bs) == RowSum(v, mask, a, bs).Neg()
  {
    hide PairWeight, Kernel, Complex.Times, Complex.Plus, Complex.Neg, Complex.Conj, Real;
    if |bs| == 0 {
      NegZero();
    } else {
      assert forall j :: 0 <= j < |bs| - 1 ==> bs[1..][j] == bs[j + 1];
      RowNegated(v, u, mask, a, bs[1..]);
      WeightUnfold(v, mask, a, bs[0]); WeightUnfold(u, mask, a, bs[0]);
      NegatedReal(a.c.Conj().Times(bs[0].c), Kernel(v, mask, a.h, bs[0].h));
      NegPlus(PairWeight(v, mask, a, bs[0]), RowSum(v, mask, a, bs[1..]));
    }
  }

  lemma NegZero()
    ensures ZERO.Neg() == ZERO
  {
  }

  lemma NegPlus(a: Complex, b: Complex)
    ensures a.Neg().Plus(b.Neg()) == a.Plus(b).Neg()
  {
  }

  lemma NegatedReal(c: Complex, k: real)
    ensures c.Times(Real(-k)) == c.Times(Real(k)).Neg()
  {
  }

  lemma {:induction false} PairsNegated(v: Probe, u: Probe, mask: Row, xs: seq<Member>, bs: seq<Member>)
    requires MembersOn(|mask|, xs) && MembersOn(|mask|, bs)
    requires forall i, j :: 0 <= i < |xs| && 0 <= j < |bs| ==> Kernel(u, mask, xs[i].h, bs[j].h) == -Kernel(v, mask, xs[i].h, bs[j].h)
    ensures PairSum(u, mask, xs, bs) == PairSum(v, mask, xs, bs).Neg()
  {
    hide RowSum, Kernel, Complex.Plus, Complex.Neg;
    if |xs| == 0 {
      NegZero();
    } else {
      assert forall i :: 0 <= i < |xs| - 1 ==> xs[1..][i] == xs[i + 1];
      PairsNegated(v, u, mask, xs[1..], bs);
      RowNegated(v, u, mask, xs[0], bs);
      NegPlus(RowSum(v, mask, xs[0], bs), PairSum(v, mask, xs[1..], bs));
    }
  }

  /** Groups between which the kernel is odd: what they exchange is purely imaginary. */
  lemma OddExchange(v: Probe, mask: Row, low: seq<Member>, here: seq<Member>)
    requires MembersOn(|mask|, low) && MembersOn(|mask|, here)
    requires forall i, j :: 0 <= i < |low| && 0 <= j < |here| ==>
               Kernel(Mirrored(v), mask, low[i].h, here[j].h) == -Kernel(v, mask, low[i].h, here[j].h)
    ensures PairSum(v, mask, low, here).re + PairSum(v, mask, here, low).re == 0.0
  {
    hide PairSum, Kernel;
    PairsNegated(v, Mirrored(v), mask, low, here);
    PairTranspose(v, Mirrored(v), mask, low, here);
  }

  // ---- Sufficiency for the real part ----

  /** Strings the probe mixes by an even number of flips share an owner. */
  ghost predicate KeepsEven(v: Probe, mask: Row, owner: Pauli -> nat) {
    forall p: Pauli, q: Pauli ::
      (&& p.On(|mask|) && q.On(|mask|)
       && Meets(v, mask, HalvesOf(v.zAxis, p), HalvesOf(v.zAxis, q))
       && Flips(mask, HalvesOf(v.zAxis, p), HalvesOf(v.zAxis, q)) % 2 == 0) ==> owner(p) == owner(q)
  }

  /** Strings the probe mixes share an owner. */
  ghost predicate KeepsMixed(v: Probe, mask: Row, owner: Pauli -> nat) {
    forall p: Pauli, q: Pauli ::
      (&& p.On(|mask|) && q.On(|mask|)
       && Meets(v, mask, HalvesOf(v.zAxis, p), HalvesOf(v.zAxis, q))) ==> owner(p) == owner(q)
  }

  lemma MixedSeparate(v: Probe, mask: Row, owner: Pauli -> nat)
    requires KeepsMixed(v, mask, owner)
    ensures Separates(v, mask, owner)
  {
    hide Kernel, Meets;
    forall p: Pauli, q: Pauli | p.On(|mask|) && q.On(|mask|) && owner(p) != owner(q) ensures Apart(v, mask, p, q) {
      KernelNonzero(v, mask, HalvesOf(v.zAxis, p), HalvesOf(v.zAxis, q));
    }
  }

  lemma OddStrangers(v: Probe, mask: Row, owner: Pauli -> nat, p: Pauli, q: Pauli)
    requires KeepsEven(v, mask, owner) && p.On(|mask|) && q.On(|mask|) && owner(p) != owner(q)
    ensures HalvesOf(v.zAxis, p).On(|mask|) && HalvesOf(v.zAxis, q).On(|mask|)
    ensures Kernel(Mirrored(v), mask, HalvesOf(v.zAxis, p), HalvesOf(v.zAxis, q)) == -Kernel(v, mask, HalvesOf(v.zAxis, p), HalvesOf(v.zAxis, q))
  {
    hide Kernel, SameClass, Flips, Meets;
    var a, b := HalvesOf(v.zAxis, p), HalvesOf(v.zAxis, q);
    KernelNonzero(v, mask, a, b); KernelNonzero(Mirrored(v), mask, a, b);
    MeetsMirrored(v, mask, a, b);
    if Meets(v, mask, a, b) {
      KernelNegated(v, mask, a, b);
    }
  }

  lemma MeetsMirrored(v: Probe, mask: Row, a: Halves, b: Halves)
    requires a.On(|mask|) && b.On(|mask|)
    ensures Meets(Mirrored(v), mask, a, b) == Meets(v, mask, a, b)
    ensures Meets(v, mask, a, b) ==> SameClass(mask, a, b)
  {
    hide SameClass, Flips, Popcount;
  }

  lemma OddShares(v: Probe, mask: Row, owner: Pauli -> nat, low: seq<Term>, here: seq<Term>)
    requires OnQubits(|mask|, low) && OnQubits(|mask|, here) && KeepsEven(v, mask, owner)
    requires forall i, j :: 0 <= i < |low| && 0 <= j < |here| ==> owner(low[i].p) != owner(here[j].p)
    ensures PairSum(v, mask, MembersOf(v.zAxis, low), MembersOf(v.zAxis, here)).re
          + PairSum(v, mask, MembersOf(v.zAxis, here), MembersOf(v.zAxis, low)).re == 0.0
  {
    hide Kernel, KeepsEven, HalvesOf, PairSum;
    var ms, ns := MembersOf(v.zAxis, low), MembersOf(v.zAxis, here);
    MembersOnTerms(v.zAxis, |mask|, low); MembersOnTerms(v.zAxis, |mask|, here);
    forall i, j | 0 <= i < |ms| && 0 <= j < |ns| ensures Kernel(Mirrored(v), mask, ms[i].h, ns[j].h) == -Kernel(v, mask, ms[i].h, ns[j].h) {
      OddStrangers(v, mask, owner, low[i].p, here[j].p);
    }
    OddExchange(v, mask, ms, ns);
  }

  lemma OneMoreRealRank(v: Probe, mask: Row, owner: Pauli -> nat, r: nat, ts: seq<Term>)
    requires OnQubits(|mask|, ts) && Distinct(ts) && KeepsEven(v, mask, owner)
    ensures OnQubits(|mask|, Below(owner, r, ts)) && OnQubits(|mask|, Below(owner, r + 1, ts)) && OnQubits(|mask|, Share(owner, r, ts))
    ensures Echo(v, mask, Below(owner, r + 1, ts)).re == Echo(v, mask, Below(owner, r, ts)).re + Echo(v, mask, Share(owner, r, ts)).re
  {
    hide PairSum, KeepsEven, Share, Below, HalvesOf, Distinct;
    ShareMembers(|mask|, owner, r, ts);
    BelowMembers(|mask|, owner, r, ts);
    BelowMembers(|mask|, owner, r + 1, ts);
    var low, here, all := Below(owner, r, ts), Share(owner, r, ts), Below(owner, r + 1, ts);
    OddShares(v, mask, owner, low, here);
    BelowSplits(v.zAxis, owner, r, ts);
    MembersOnTerms(v.zAxis, |mask|, low); MembersOnTerms(v.zAxis, |mask|, here); MembersOnTerms(v.zAxis, |mask|, all);
    FourGroups(v, mask, MembersOf(v.zAxis, low), MembersOf(v.zAxis, here), MembersOf(v.zAxis, all));
  }

  lemma {:induction false} RealRanksBelow(v: Probe, mask: Row, owner: Pauli -> nat, r: nat, ts: seq<Term>)
    requires OnQubits(|mask|, ts) && Distinct(ts) && KeepsEven(v, mask, owner)
    ensures OnQubits(|mask|, Below(owner, r, ts))
    ensures RankSum(v, mask, owner, r, ts).re == Echo(v, mask, Below(owner, r, ts)).re
  {
    hide PairSum, KeepsEven, Share, Below, HalvesOf, Distinct;
    BelowMembers(|mask|, owner, r, ts);
    if r == 0 {
      NoTerms(v, mask);
    } else {
      RealRanksBelow(v, mask, owner, r - 1, ts);
      OneMoreRealRank(v, mask, owner, r - 1, ts);
    }
  }

  // ---- Necessity: two strings ----

  /** Two terms with different owners: the ranks see each alone. */
  lemma {:induction false} RanksOfTwo(v: Probe, mask: Row, owner: Pauli -> nat, ranks: nat, s: Term, t: Term, ts: seq<Term>)
    requires s.p.On(|mask|) && t.p.On(|mask|) && owner(s.p) != owner(t.p) && ts == [s, t] && Distinct(ts) && OnQubits(|mask|, ts)
    ensures RankSum(v, mask, owner, ranks, ts)
         == (if owner(s.p) < ranks then Echo(v, mask, [s]) else ZERO).Plus(if owner(t.p) < ranks then Echo(v, mask, [t]) else ZERO)
  {
    hide Echo, Distinct, RankSum, Complex.Plus, Share;
    if ranks == 0 {
      RankSumSteps(v, mask, owner, 0, ts);
      PlusZero(ZERO);
    } else {
      RanksOfTwo(v, mask, owner, ranks - 1, s, t, ts);
      RankSumSteps(v, mask, owner, ranks - 1, ts);
      ShareOfTwo(owner, ranks - 1, s, t, ts);
      NoEcho(v, mask);
      Slots(Echo(v, mask, [s]), Echo(v, mask, [t])); PlusZero(RankSum(v, mask, owner, ranks - 1, ts));
    }
  }

  lemma Slots(x: Complex, y: Complex)
    ensures ZERO.Plus(y).Plus(x) == x.Plus(y) && x.Plus(ZERO).Plus(y) == x.Plus(y)
    ensures ZERO.Plus(ZERO).Plus(x) == x.Plus(ZERO) && ZERO.Plus(ZERO).Plus(y) == ZERO.Plus(y)
  {
    hide Complex.Plus;
    PlusZero(x); PlusZero(y); PlusZero(ZERO); PlusComm(y, x);
  }

  lemma RankSumSteps(v: Probe, mask: Row, owner: Pauli -> nat, r: nat, ts: seq<Term>)
    requires OnQubits(|mask|, ts) && Distinct(ts)
    ensures RankSum(v, mask, owner, 0, ts) == ZERO
    ensures OnQubits(|mask|, Share(owner, r, ts))
    ensures RankSum(v, mask, owner, r + 1, ts) == RankSum(v, mask, owner, r, ts).Plus(Echo(v, mask, Share(owner, r, ts)))
  {
    hide Echo, Share, Distinct, Complex.Plus;
    ShareMembers(|mask|, owner, r, ts);
  }

  lemma NoEcho(v: Probe, mask: Row)
    ensures Echo(v, mask, []) == ZERO
  {
    hide PairSum;
    NoTerms(v, mask);
  }

  lemma ShareOfTwo(owner: Pauli -> nat, r: nat, s: Term, t: Term, ts: seq<Term>)
    requires owner(s.p) != owner(t.p) && ts == [s, t]
    ensures Share(owner, r, ts) == if owner(s.p) == r then [s] else if owner(t.p) == r then [t] else []
  {
    assert ts[1..] == [t] && [t][1..] == [];
    assert Share(owner, r, [t]) == if owner(t.p) == r then [t] else [];
    assert Share(owner, r, ts) == (if owner(s.p) == r then [s] else []) + Share(owner, r, [t]);
  }

  /** What two terms exchange across ranks. */
  lemma TwoTermGap(v: Probe, mask: Row, owner: Pauli -> nat, ranks: nat, s: Term, t: Term, ts: seq<Term>)
    requires s.p.On(|mask|) && t.p.On(|mask|) && owner(s.p) != owner(t.p) && ts == [s, t]
    requires owner(s.p) < ranks && owner(t.p) < ranks
    ensures OnQubits(|mask|, ts) && Distinct(ts)
    ensures
      var a, b := Member(HalvesOf(v.zAxis, s.p), s.c), Member(HalvesOf(v.zAxis, t.p), t.c);
      a.h.On(|mask|) && b.h.On(|mask|)
      && Echo(v, mask, ts) == RankSum(v, mask, owner, ranks, ts).Plus(PairSum(v, mask, [a], [b]).Plus(PairSum(v, mask, [b], [a])))
  {
    hide PairSum, RankSum, HalvesOf;
    HalvesLength(v.zAxis, |mask|, s.p); HalvesLength(v.zAxis, |mask|, t.p);
    var a, b := Member(HalvesOf(v.zAxis, s.p), s.c), Member(HalvesOf(v.zAxis, t.p), t.c);
    RanksOfTwo(v, mask, owner, ranks, s, t, ts);
    assert MembersOf(v.zAxis, ts) == [a] + [b] && MembersOf(v.zAxis, [s]) == [a] && MembersOf(v.zAxis, [t]) == [b];
    FourGroups(v, mask, [a], [b], [a] + [b]);
  }

  lemma UnitModulus()
    ensures ONE.Abs2() == 1.0
  {
  }

  /** Equal coefficients: the exchange is real, and lost when the number of flips is even. */
  lemma EvenExchange(v: Probe, mask: Row, a: Member, b: Member)
    requires a.h.On(|mask|) && b.h.On(|mask|) && a.c == b.c && a.c.Abs2() == 1.0
    requires Meets(v, mask, a.h, b.h) && Flips(mask, a.h, b.h) % 2 == 0
    ensures PairSum(v, mask, [a], [b]).Plus(PairSum(v, mask, [b], [a])).re != 0.0
  {
    hide PairSum, Kernel, SameClass, Flips, Complex.Abs2, Prod;
    KernelSwap(v, mask, a.h, b.h);
    KernelNonzero(v, mask, a.h, b.h);
    EqualPair(v, mask, a, b); EqualPair(v, mask, b, a);
    ProdUnits(Kernel(v, mask, a.h, b.h), 1.0);
  }

  lemma TurnedWeight(c: Complex, k: real)
    ensures c.Conj().Times(Turn(1, c)).Times(Real(k)) == Complex(0.0, Prod(c.Abs2(), k))
    ensures Turn(1, c).Conj().Times(c).Times(Real(k)) == Complex(0.0, -Prod(c.Abs2(), k))
  {
  }

  lemma TurnedPair(v: Probe, mask: Row, a: Member, b: Member)
    requires a.h.On(|mask|) && b.h.On(|mask|) && b.c == Turn(1, a.c)
    ensures PairSum(v, mask, [a], [b]) == Complex(0.0, Prod(a.c.Abs2(), Kernel(v, mask, a.h, b.h)))
    ensures PairSum(v, mask, [b], [a]) == Complex(0.0, -Prod(a.c.Abs2(), Kernel(v, mask, b.h, a.h)))
  {
    hide RowSum, PairSum, Kernel, PairWeight, Prod, Complex.Abs2, Real, Complex.Times, Turn;
    PairSumOne(v, mask, a, [b]); RowSumOne(v, mask, a, b); WeightUnfold(v, mask, a, b);
    PairSumOne(v, mask, b, [a]); RowSumOne(v, mask, b, a); WeightUnfold(v, mask, b, a);
    TurnedWeight(a.c, Kernel(v, mask, a.h, b.h));
    TurnedWeight(a.c, Kernel(v, mask, b.h, a.h));
  }

  /** Coefficients a quarter turn apart: the exchange is imaginary, and lost when the number of flips is odd. */
  lemma OddLoss(v: Probe, mask: Row, a: Member, b: Member)
    requires a.h.On(|mask|) && b.h.On(|mask|) && b.c == Turn(1, a.c) && a.c.Abs2() == 1.0
    requires Meets(v, mask, a.h, b.h) && Flips(mask, a.h, b.h) % 2 == 1
    ensures PairSum(v, mask, [a], [b]).Plus(PairSum(v, mask, [b], [a])).im != 0.0
  {
    hide PairSum, Kernel, SameClass, Flips, Complex.Abs2, Prod, Turn;
    KernelSwap(v, mask, a.h, b.h);
    KernelNonzero(v, mask, a.h, b.h);
    TurnedPair(v, mask, a, b);
    ProdUnits(Kernel(v, mask, a.h, b.h), 1.0); ProdUnits(Kernel(v, mask, b.h, a.h), 1.0);
  }

  // ---- The exact conditions ----

  /** The per-rank echoes of every sum add up to its echo. */
  ghost predicate AddsUp(v: Probe, mask: Row, owner: Pauli -> nat, ranks: nat) {
    forall ts: seq<Term> :: OnQubits(|mask|, ts) && Distinct(ts) ==> RankSum(v, mask, owner, ranks, ts) == Echo(v, mask, ts)
  }

  /** The per-rank real parts of every sum add up to the real part of its echo. */
  ghost predicate RealAddsUp(v: Probe, mask: Row, owner: Pauli -> nat, ranks: nat) {
    forall ts: seq<Term> :: OnQubits(|mask|, ts) && Distinct(ts) ==> RankSum(v, mask, owner, ranks, ts).re == Echo(v, mask, ts).re
  }

  ghost predicate OwnersBelow(n: nat, owner: Pauli -> nat, ranks: nat) {
    forall p: Pauli :: p.On(n) ==> owner(p) < ranks
  }

  lemma SplitEven(v: Probe, mask: Row, owner: Pauli -> nat, ranks: nat, p: Pauli, q: Pauli)
    requires p.On(|mask|) && q.On(|mask|) && OwnersBelow(|mask|, owner, ranks) && owner(p) != owner(q)
    requires Meets(v, mask, HalvesOf(v.zAxis, p), HalvesOf(v.zAxis, q))
    requires Flips(mask, HalvesOf(v.zAxis, p), HalvesOf(v.zAxis, q)) % 2 == 0
    ensures !RealAddsUp(v, mask, owner, ranks)
  {
    hide PairSum, RankSum, Echo, HalvesOf, Meets, Flips;
    var s, t := Term(p, ONE), Term(q, ONE);
    var ts := [s, t];
    UnitModulus();
    hide Complex.Abs2;
    TwoTermGap(v, mask, owner, ranks, s, t, ts);
    EvenExchange(v, mask, Member(HalvesOf(v.zAxis, p), s.c), Member(HalvesOf(v.zAxis, q), t.c));
    assert RankSum(v, mask, owner, ranks, ts).re != Echo(v, mask, ts).re;
  }

  lemma SplitOdd(v: Probe, mask: Row, owner: Pauli -> nat, ranks: nat, p: Pauli, q: Pauli)
    requires p.On(|mask|) && q.On(|mask|) && OwnersBelow(|mask|, owner, ranks) && owner(p) != owner(q)
    requires Meets(v, mask, HalvesOf(v.zAxis, p), HalvesOf(v.zAxis, q))
    requires Flips(mask, HalvesOf(v.zAxis, p), HalvesOf(v.zAxis, q)) % 2 == 1
    ensures !AddsUp(v, mask, owner, ranks)
  {
    hide PairSum, RankSum, Echo, HalvesOf, Meets, Flips, Turn;
    var s, t := Term(p, ONE), Term(q, Turn(1, ONE));
    var ts := [s, t];
    UnitModulus();
    hide Complex.Abs2;
    TwoTermGap(v, mask, owner, ranks, s, t, ts);
    OddLoss(v, mask, Member(HalvesOf(v.zAxis, p), s.c), Member(HalvesOf(v.zAxis, q), t.c));
    assert RankSum(v, mask, owner, ranks, ts).im != Echo(v, mask, ts).im;
  }

  /** At every angle, the ranks' complex echoes add up for all sums exactly when strings the probe mixes share an owner. */
  lemma AddsUpIff(v: Probe, mask: Row, owner: Pauli -> nat, ranks: nat)
    requires OwnersBelow(|mask|, owner, ranks)
    ensures AddsUp(v, mask, owner, ranks) <==> KeepsMixed(v, mask, owner)
  {
    hide RankSum, Echo, Meets, Flips, Distinct, Separates;
    if KeepsMixed(v, mask, owner) {
      MixedSeparate(v, mask, owner);
      forall ts: seq<Term> | OnQubits(|mask|, ts) && Distinct(ts)
        ensures RankSum(v, mask, owner, ranks, ts) == Echo(v, mask, ts)
      {
        SeparatedAddUp(v, mask, owner, ranks, ts);
      }
    } else {
      var p: Pauli, q: Pauli :| p.On(|mask|) && q.On(|mask|)
        && Meets(v, mask, HalvesOf(v.zAxis, p), HalvesOf(v.zAxis, q)) && owner(p) != owner(q);
      if Flips(mask, HalvesOf(v.zAxis, p), HalvesOf(v.zAxis, q)) % 2 == 0 {
        SplitEven(v, mask, owner, ranks, p, q);
      } else {
        SplitOdd(v, mask, owner, ranks, p, q);
      }
    }
  }

  /** At every angle, the returned real parts add up for all sums exactly when strings mixed by an even number of flips share an owner. */
  lemma RealAddsUpIff(v: Probe, mask: Row, owner: Pauli -> nat, ranks: nat)
    requires OwnersBelow(|mask|, owner, ranks)
    ensures RealAddsUp(v, mask, owner, ranks) <==> KeepsEven(v, mask, owner)
  {
    hide RankSum, Echo, Meets, Flips, Distinct;
    if KeepsEven(v, mask, owner) {
      forall ts: seq<Term> | OnQubits(|mask|, ts) && Distinct(ts)
        ensures RankSum(v, mask, owner, ranks, ts).re == Echo(v, mask, ts).re
      {
        RealRanksBelow(v, mask, owner, ranks, ts);
        BelowMembers(|mask|, owner, ranks, ts);
      }
    } else {
      var p: Pauli, q: Pauli :| p.On(|mask|) && q.On(|mask|)
        && Meets(v, mask, HalvesOf(v.zAxis, p), HalvesOf(v.zAxis, q))
        && Flips(mask, HalvesOf(v.zAxis, p), HalvesOf(v.zAxis, q)) % 2 == 0 && owner(p) != owner(q);
      SplitEven(v, mask, owner, ranks, p, q);
    }
  }

  /** Away from the quarter turns, mixing is class membership; at `sin == 0` every owner function keeps everything. */
  lemma MixedByAngle(v: Probe, mask: Row, owner: Pauli -> nat)
    ensures v.cos != 0.0 && v.sin != 0.0 ==> (KeepsMixed(v, mask, owner) <==> KeepsClasses(v, mask, owner))
    ensures v.sin == 0.0 ==> KeepsMixed(v, mask, owner)
  {
    hide SameClass, Flips, Popcount;
    if v.sin == 0.0 {
      forall p: Pauli, q: Pauli | p.On(|mask|) && q.On(|mask|) && Meets(v, mask, HalvesOf(v.zAxis, p), HalvesOf(v.zAxis, q))
        ensures owner(p) == owner(q)
      {
        SameString(v.zAxis, mask, p, q);
      }
    }
  }

  /** No flip within a class: the same string. */
  lemma SameString(zAxis: bool, mask: Row, p: Pauli, q: Pauli)
    requires p.On(|mask|) && q.On(|mask|) && SameClass(mask, HalvesOf(zAxis, p), HalvesOf(zAxis, q))
    requires Flips(mask, HalvesOf(zAxis, p), HalvesOf(zAxis, q)) == 0
    ensures p == q
  {
    hide SameClass, Popcount;
    var a, b := HalvesOf(zAxis, p), HalvesOf(zAxis, q);
    ClassHalves(mask, a, b);
    NoFlips(Moving(mask, a), a.flip, b.flip);
    HalvesEqual(zAxis, p, q);
  }

  /** With at most one probe site no owner function can lose any real part. */
  lemma OneSiteNeverLoses(v: Probe, mask: Row, owner: Pauli -> nat)
    requires Popcount(mask) <= 1
    ensures KeepsEven(v, mask, owner)
  {
    hide Popcount, SameClass;
    forall p: Pauli, q: Pauli | p.On(|mask|) && q.On(|mask|)
      && Meets(v, mask, HalvesOf(v.zAxis, p), HalvesOf(v.zAxis, q))
      && Flips(mask, HalvesOf(v.zAxis, p), HalvesOf(v.zAxis, q)) % 2 == 0
      ensures owner(p) == owner(q)
    {
      var a, b := HalvesOf(v.zAxis, p), HalvesOf(v.zAxis, q);
      FlippedBound(Moving(mask, a), a.flip, b.flip);
      PopcountAtMost(Moving(mask, a), mask);
      SameString(v.zAxis, mask, p, q);
    }
  }

  lemma ClassHalves(mask: Row, a: Halves, b: Halves)
    requires a.On(|mask|) && b.On(|mask|) && SameClass(mask, a, b)
    ensures a.sel == b.sel && AndNot(a.flip, Moving(mask, a)) == AndNot(b.flip, Moving(mask, a))
  {
  }

  // ---- The reduction ----

  lemma ClassesKeepEven(v: Probe, mask: Row, owner: Pauli -> nat)
    requires KeepsClasses(v, mask, owner)
    ensures KeepsEven(v, mask, owner)
  {
    hide SameClass, Flips, Popcount;
  }

  lemma RealEcho(v: Probe, mask: Row, owner: Pauli -> nat, ranks: nat, ts: seq<Term>)
    requires OnQubits(|mask|, ts) && Distinct(ts) && KeepsEven(v, mask, owner)
    requires forall i :: 0 <= i < |ts| ==> owner(ts[i].p) < ranks
    ensures RankSum(v, mask, owner, ranks, ts).re == Echo(v, mask, ts).re
  {
    hide RankSum, Echo, KeepsEven, Below, Distinct;
    RealRanksBelow(v, mask, owner, ranks, ts);
    BelowMembers(|mask|, owner, ranks, ts);
  }

  /**
   `rotated_overlap` with `comm`: every rank evaluates its own share, and the real parts are summed.  The
   errors are those of the sites, then of the axis; the value is the whole echo's when classes are kept, and
   already when strings an even number of flips apart are.
   */
  method RotatedOverlap(n: nat, ts: seq<Term>, owner: Pauli -> nat, ranks: nat, sites: seq<int>, cos: real, sin: real,
                        axis: string, chunk: nat) returns (r: Outcome<real>)
    requires OnQubits(n, ts) && Distinct(ts) && chunk > 0 && ranks > 0
    requires forall i :: 0 <= i < |ts| ==> owner(ts[i].p) < ranks
    ensures r.Ok? <==> SitesValid(n, sites) && (axis == "x" || axis == "z")
    ensures r == Err(SiteTwice) <==> !NoRepeats(sites)
    ensures r == Err(BadAxis) <==> SitesValid(n, sites) && axis != "x" && axis != "z"
    ensures r.Ok? ==> r.value == RankSum(Probe(axis == "z", cos, sin), MaskOf(n, AsSites(n, sites)), owner, ranks, ts).re
    ensures r.Ok? && KeepsClasses(Probe(axis == "z", cos, sin), MaskOf(n, AsSites(n, sites)), owner) ==>
              r.value == Echo(Probe(axis == "z", cos, sin), MaskOf(n, AsSites(n, sites)), ts).re
    ensures r.Ok? && KeepsEven(Probe(axis == "z", cos, sin), MaskOf(n, AsSites(n, sites)), owner) ==>
              r.value == Echo(Probe(axis == "z", cos, sin), MaskOf(n, AsSites(n, sites)), ts).re
  {
    hide PairSum, KeepsClasses, KeepsEven, Share, Distinct, SitesValid, NoRepeats;
    ghost var v := Probe(axis == "z", cos, sin);
    var total := 0.0;
    for rank := 0 to ranks
      invariant rank > 0 ==> SitesValid(n, sites) && (axis == "x" || axis == "z")
      invariant rank > 0 ==> NoRepeats(sites)
      invariant SitesValid(n, sites) ==> total == RankSum(v, MaskOf(n, AsSites(n, sites)), owner, rank, ts).re
    {
      ShareMembers(n, owner, rank, ts);
      var local := RotatedOverlapComplex(n, Share(owner, rank, ts), sites, cos, sin, axis, chunk);
      if local.Err? {
        return Err(local.error);
      }
      total := total + local.value.re;
    }
    ghost var mask := MaskOf(n, AsSites(n, sites));
    if KeepsClasses(v, mask, owner) {
      ClassesKeepEven(v, mask, owner);
    }
    if KeepsEven(v, mask, owner) {
      RealEcho(v, mask, owner, ranks, ts);
    }
    return Ok(total);
  }
}
