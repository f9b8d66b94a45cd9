/**
 The dense meaning of the spreading diagnostics: the correlator is half the squared norm of a commutator,
 the support profile is the norm a single-qubit Pauli twirl removes.
 */
module OtocDense {
  import opened Complexes
  import opened Dense
  import opened Paulis
  import opened PauliSums
  import opened OleTrace
  import opened Otoc

  /** The terms satisfying a condition. */
  function Where(cond: Pauli -> bool, ts: seq<Term>): seq<Term> {
    if |ts| == 0 then [] else (if cond(ts[0].p) then [ts[0]] else []) + Where(cond, ts[1..])
  }

  lemma {:induction false} WhereOn(n: nat, cond: Pauli -> bool, ts: seq<Term>)
    requires OnQubits(n, ts)
    ensures OnQubits(n, Where(cond, ts))
    ensures Norm2(Where(cond, ts)) == Weight(cond, ts)
  {
    hide Complex.Abs2;
    if |ts| > 0 {
      WhereOn(n, cond, ts[1..]);
      if cond(ts[0].p) {
        assert Where(cond, ts) == [ts[0]] + Where(cond, ts[1..]);
      } else {
        assert Where(cond, ts) == Where(cond, ts[1..]);
      }
    }
  }

  lemma {:induction false} WhereDistinct(cond: Pauli -> bool, ts: seq<Term>)
    requires Distinct(ts)
    ensures Distinct(Where(cond, ts))
    ensures forall i :: 0 <= i < |Where(cond, ts)| ==> HasKey(ts, Where(cond, ts)[i].p)
  {
    if |ts| > 0 {
      var rest := Where(cond, ts[1..]);
      WhereDistinct(cond, ts[1..]);
      forall i | 0 <= i < |rest| ensures rest[i].p != ts[0].p && HasKey(ts, rest[i].p) {
        var k :| 0 <= k < |ts| - 1 && ts[1..][k].p == rest[i].p;
        assert ts[k + 1].p == rest[i].p;
      }
      assert HasKey(ts, ts[0].p);
    }
  }

  /** `Tr(A^dagger A) == 2^n sum |c|^2` for the part of a sum satisfying a condition. */
  lemma WhereNorm(n: nat, cond: Pauli -> bool, ts: seq<Term>)
    requires OnQubits(n, ts) && Distinct(ts)
    ensures OnQubits(n, Where(cond, ts))
    ensures
      var a := SumMat(n, Where(cond, ts));
      Trace(Mul(Dagger(a), a)) == Real(Pow2(n) as real).Times(Real(Weight(cond, ts)))
  {
    hide Where, Distinct, SumMat, Mul, Dagger, Trace, Norm2, Weight, Overlap, Real, Complex.Times;
    WhereOn(n, cond, ts);
    WhereDistinct(cond, ts);
    TraceOverlap(n, Where(cond, ts), Where(cond, ts));
    OverlapSelf(Where(cond, ts));
  }

  // ---- Commutators ----

  /** `w m - m w`. */
  function Commutator(w: Mat, m: Mat): Mat {
    Add(Mul(w, m), TurnMat(2, Mul(m, w)))
  }

  lemma CommutatorAdd(w: Mat, a: Mat, b: Mat)
    ensures Commutator(w, Add(a, b)) == Add(Commutator(w, a), Commutator(w, b))
  {
    hide Add, Mul, TurnMat;
    MulAddRight(w, a, b); MulAddLeft(a, b, w);
    TurnMatAdd(2, Mul(a, w), Mul(b, w));
    AddSwap(Mul(w, a), Mul(w, b), TurnMat(2, Mul(a, w)), TurnMat(2, Mul(b, w)));
  }

  const TWO := Complex(2.0, 0.0)

  lemma Opposites()
    ensures ONE.Plus(IPow(2)) == ZERO && ONE.Plus(ONE) == TWO
  {
    hide Complex.Plus, IPow;
    Signs();
    RealsPlus(ONE, IPow(2)); RealsPlus(ONE, ONE);
  }

  lemma Signs()
    ensures IPow(0) == Complex(1.0, 0.0) && IPow(2) == Complex(-1.0, 0.0)
  {
  }

  lemma RealsPlus(a: Complex, b: Complex)
    requires a.im == 0.0 && b.im == 0.0
    ensures a.Plus(b) == Complex(a.re + b.re, 0.0)
  {
  }

  /** `m - m == 0` and `m + m == 2 m`. */
  lemma DoubleOrNothing(n: nat, m: Mat)
    requires Square(m, n)
    ensures Add(m, TurnMat(2, m)) == Zero(n) && Add(m, m) == Scale(TWO, m)
  {
    hide *;
    ScaleUnits(n, m);
    TurnMatIsScale(2, m);
    ScalePlus(ONE, IPow(2), m); ScalePlus(ONE, ONE, m);
    Opposites();
  }

  lemma TurnScale(k: int, c: Complex, m: Mat)
    ensures Scale(c, TurnMat(k, m)) == TurnMat(k, Scale(c, m))
  {
    hide *;
    TurnMatIsScale(k, m); TurnMatIsScale(k, Scale(c, m));
    ScaleScale(c, IPow(k), m); ScaleScale(IPow(k), c, m); TimesComm(c, IPow(k));
  }

  /** `c P w == +- c w P`. */
  lemma TermSwap(w: Pauli, p: Pauli, c: Complex)
    requires w.On(|p.x|) && p.On(|p.x|)
    ensures Mul(PauliMat(w), Scale(c, PauliMat(p))) == Scale(c, Mul(PauliMat(w), PauliMat(p)))
    ensures Mul(Scale(c, PauliMat(p)), PauliMat(w))
         == TurnMat(if Anticommutes(w, p) then 2 else 0, Scale(c, Mul(PauliMat(w), PauliMat(p))))
  {
    hide Mul, Scale, PauliMat, TurnMat, Commutes;
    MulScaleRight(c, PauliMat(w), PauliMat(p));
    MulScaleLeft(c, PauliMat(p), PauliMat(w));
    CommutesIsDense(w, p);
    CommutesSymmetric(w, p);
    TurnScale(if Anticommutes(w, p) then 2 else 0, c, Mul(PauliMat(w), PauliMat(p)));
  }

  lemma CommutesSymmetric(p: Pauli, q: Pauli)
    requires p.On(|q.x|) && q.On(|q.x|)
    ensures Commutes(p, q) == Commutes(q, p)
  {
    RowSymmetry(p.x, q.z); RowSymmetry(p.z, q.x);
    RowSymmetry(And(p.x, q.z), And(p.z, q.x));
  }

  lemma CommutatorTerm(n: nat, w: Pauli, t: Term)
    requires w.On(n) && t.p.On(n)
    ensures Commutator(PauliMat(w), Scale(t.c, PauliMat(t.p)))
         == if Anticommutes(w, t.p) then Scale(TWO, Mul(PauliMat(w), Scale(t.c, PauliMat(t.p)))) else Zero(n)
  {
    hide Mul, Scale, PauliMat, TurnMat, Anticommutes, Add, Zero, Square;
    var m := Scale(t.c, Mul(PauliMat(w), PauliMat(t.p)));
    PauliMatSquare(w); PauliMatSquare(t.p); MulSquare(n, PauliMat(w), PauliMat(t.p));
    ScaleSquare(n, t.c, Mul(PauliMat(w), PauliMat(t.p)));
    TermSwap(w, t.p, t.c);
    DoubleOrNothing(n, m);
    TurnMatNone(m); TurnMatTurnMat(2, 2, m); TurnMatMod(4, 0, m);
  }

  /** `[W, A] == 2 W A'`, with `A'` the part of `A` that anticommutes with `W`. */
  lemma {:induction false} CommutatorIsAnticommuting(n: nat, w: Pauli, ts: seq<Term>)
    requires w.On(n) && OnQubits(n, ts)
    ensures OnQubits(n, Where(p => Anticommutes(w, p), ts))
    ensures Commutator(PauliMat(w), SumMat(n, ts))
         == Scale(TWO, Mul(PauliMat(w), SumMat(n, Where(p => Anticommutes(w, p), ts))))
  {
    hide Mul, Scale, PauliMat, TurnMat, Anticommutes, Add, Zero, Square, SumMat, Commutator, Norm2, Weight;
    var anti: Pauli -> bool := p => Anticommutes(w, p);
    var m := PauliMat(w);
    WhereOn(n, anti, ts);
    PauliMatSquare(w); SumMatStep(n, ts);
    if |ts| == 0 {
      SumMatStep(n, Where(anti, ts));
      MulZero(n, m); ScaleZero(n, TWO);
      CommutatorZero(n, m);
    } else {
      var t := ts[0];
      var rest := Where(anti, ts[1..]);
      WhereOn(n, anti, ts[1..]);
      CommutatorIsAnticommuting(n, w, ts[1..]);
      CommutatorAdd(m, Scale(t.c, PauliMat(t.p)), SumMat(n, ts[1..]));
      CommutatorTerm(n, w, t);
      if anti(t.p) {
        assert Where(anti, ts) == [t] + rest;
        SumMatStep(n, [t] + rest);
        assert ([t] + rest)[1..] == rest;
        MulAddRight(m, Scale(t.c, PauliMat(t.p)), SumMat(n, rest));
        ScaleAdd(TWO, Mul(m, Scale(t.c, PauliMat(t.p))), Mul(m, SumMat(n, rest)));
      } else {
        assert Where(anti, ts) == rest;
        SumMatSquare(n, rest); MulSquare(n, m, SumMat(n, rest)); ScaleSquare(n, TWO, Mul(m, SumMat(n, rest)));
        AddZero(n, Scale(TWO, Mul(m, SumMat(n, rest))));
      }
    }
  }

  lemma CommutatorZero(n: nat, m: Mat)
    requires Square(m, n)
    ensures Commutator(m, Zero(n)) == Zero(n)
  {
    hide Mul, Zero, TurnMat, Add, Square;
    MulZero(n, m); TurnMatZero(n, 2); ZeroSquare(n); AddZero(n, Zero(n));
  }

  /** `Tr((2 w a)^dagger (2 w a)) == 4 Tr(a^dagger a)` for a Pauli `w`. */
  lemma ScaledNorm(n: nat, w: Pauli, a: Mat)
    requires w.On(n) && Square(a, n)
    ensures
      var m := Scale(TWO, Mul(PauliMat(w), a));
      Trace(Mul(Dagger(m), m)) == Real(4.0).Times(Trace(Mul(Dagger(a), a)))
  {
    hide Mul, Scale, PauliMat, Dagger, Trace, Square, Identity, Complex.Times;
    var u := PauliMat(w);
    var x := Mul(u, a);
    PauliMatSquare(w); DaggerSquare(n, a); MulSquare(n, u, a); DaggerSquare(n, x); MulSquare(n, Dagger(a), a);
    DaggerScale(TWO, x); DaggerMul(u, a); PauliDagger(w);
    MulScaleLeft(TWO.Conj(), Dagger(x), Scale(TWO, x)); MulScaleRight(TWO, Dagger(x), x);
    ScaleScale(TWO.Conj(), TWO, Mul(Dagger(x), x));
    MulAssoc(Dagger(a), u, x); MulAssoc(u, u, a); SquareIsIdentity(w); MulIdentity(n, a);
    TraceScale(n, TWO.Conj().Times(TWO), Mul(Dagger(a), a));
    TwoTwo();
  }

  lemma TwoTwo()
    ensures TWO.Conj().Times(TWO) == Real(4.0)
  {
    ConjSelf(TWO);
  }

  /**
   The correlator is `1/2 <[W, A], [W, A]>`, the trace taken over the commutator's own matrix:
   `Tr([W, A]^dagger [W, A]) == 2^n * 2 * C`.
   */
  lemma OtocIsCommutator(n: nat, ts: seq<Term>, s: SiteSums, probe: string, q: nat)
    requires OnQubits(n, ts) && Distinct(ts) && SumsOf(n, ts, s) && q < n && ProbeBits(probe).Ok?
    ensures
      var (gx, gz) := ProbeBits(probe).value;
      var m := Commutator(PauliMat(Single(n, q, gx, gz)), SumMat(n, ts));
      OtocFromSums(s, probe, q).Ok?
      && Trace(Mul(Dagger(m), m)) == Real(Pow2(n) as real).Times(Real(2.0 * OtocFromSums(s, probe, q).value))
  {
    hide Mul, Scale, PauliMat, Dagger, Trace, Square, Commutator, SumMat, Where, Weight, Distinct, Complex.Times, Norm2,
      OtocFromSums, ProbeBits, Anticommutes, SumsOf, Real;
    var (gx, gz) := ProbeBits(probe).value;
    var w := Single(n, q, gx, gz);
    var anti: Pauli -> bool := p => Anticommutes(w, p);
    CommutatorIsAnticommuting(n, w, ts);
    WhereOn(n, anti, ts); SumMatSquare(n, Where(anti, ts));
    var a := SumMat(n, Where(anti, ts));
    ScaledNorm(n, w, a);
    WhereNorm(n, anti, ts);
    OtocIsAnticommuting(n, ts, s, probe, q);
    ScalarFour(Pow2(n) as real, Weight(anti, ts));
  }

  lemma ScalarFour(w: real, x: real)
    ensures Real(4.0).Times(Real(w).Times(Real(x))) == Real(w).Times(Real(2.0 * (2.0 * x)))
  {
    assert 4.0 * (w * x) == w * (2.0 * (2.0 * x));
  }

  // ---- Twirls ----

  /** `g m g`. */
  function Sandwiched(g: Mat, m: Mat): Mat {
    Mul(Mul(g, m), g)
  }

  const QUARTER := Complex(0.25, 0.0)

  /** `T_q(m)`: the mean of `g m g` over the four Paulis at `q`. */
  function Twirl(n: nat, q: nat, m: Mat): Mat {
    Scale(QUARTER,
          Add(Add(m, Sandwiched(PauliMat(Single(n, q, true, false)), m)),
              Add(Sandwiched(PauliMat(Single(n, q, true, true)), m), Sandwiched(PauliMat(Single(n, q, false, true)), m))))
  }

  lemma SandwichedAdd(g: Mat, a: Mat, b: Mat)
    ensures Sandwiched(g, Add(a, b)) == Add(Sandwiched(g, a), Sandwiched(g, b))
  {
    hide Add, Mul;
    MulAddRight(g, a, b); MulAddLeft(Mul(g, a), Mul(g, b), g);
  }

  lemma TwirlAdd(n: nat, q: nat, a: Mat, b: Mat)
    ensures Twirl(n, q, Add(a, b)) == Add(Twirl(n, q, a), Twirl(n, q, b))
  {
    hide Add, Mul, Scale, Sandwiched, PauliMat, Single;
    var x, y, z := PauliMat(Single(n, q, true, false)), PauliMat(Single(n, q, true, true)), PauliMat(Single(n, q, false, true));
    SandwichedAdd(x, a, b); SandwichedAdd(y, a, b); SandwichedAdd(z, a, b);
    AddSwap(a, b, Sandwiched(x, a), Sandwiched(x, b));
    AddSwap(Sandwiched(y, a), Sandwiched(y, b), Sandwiched(z, a), Sandwiched(z, b));
    AddSwap(Add(a, Sandwiched(x, a)), Add(b, Sandwiched(x, b)),
            Add(Sandwiched(y, a), Sandwiched(z, a)), Add(Sandwiched(y, b), Sandwiched(z, b)));
    ScaleAdd(QUARTER, Add(Add(a, Sandwiched(x, a)), Add(Sandwiched(y, a), Sandwiched(z, a))),
             Add(Add(b, Sandwiched(x, b)), Add(Sandwiched(y, b), Sandwiched(z, b))));
  }

  lemma SandwichedTerm(n: nat, g: Pauli, t: Term)
    requires g.On(n) && t.p.On(n)
    ensures Sandwiched(PauliMat(g), Scale(t.c, PauliMat(t.p)))
         == Scale(IPow(if Anticommutes(g, t.p) then 2 else 0), Scale(t.c, PauliMat(t.p)))
  {
    hide Mul, Scale, PauliMat, TurnMat, Anticommutes, Identity, Square, IPow;
    var k := if Anticommutes(g, t.p) then 2 else 0;
    var w, p := PauliMat(g), PauliMat(t.p);
    var m := Scale(t.c, p);
    TermSwap(g, t.p, t.c);
    MulAssoc(w, m, w);
    TurnMatMul(0, k, w, Scale(t.c, Mul(w, p))); TurnMatNone(w);
    MulScaleRight(t.c, w, Mul(w, p));
    MulAssoc(w, w, p); SquareIsIdentity(g); PauliMatSquare(t.p); MulIdentity(n, p);
    TurnMatIsScale(k, m);
  }

  lemma TwirlSigns(x: bool, z: bool)
    ensures
      var kx, ky, kz := if z then 2 else 0, if x != z then 2 else 0, if x then 2 else 0;
      ONE.Plus(IPow(kx)).Plus(IPow(ky).Plus(IPow(kz))) == if x || z then ZERO else Complex(4.0, 0.0)
  {
    hide IPow, Complex.Plus;
    Signs();
    var kx, ky, kz := if z then 2 else 0, if x != z then 2 else 0, if x then 2 else 0;
    RealsPlus(ONE, IPow(kx)); RealsPlus(IPow(ky), IPow(kz));
    RealsPlus(ONE.Plus(IPow(kx)), IPow(ky).Plus(IPow(kz)));
  }

  lemma FourScales(a: Complex, b: Complex, c: Complex, d: Complex, m: Mat)
    ensures Add(Add(Scale(a, m), Scale(b, m)), Add(Scale(c, m), Scale(d, m))) == Scale(a.Plus(b).Plus(c.Plus(d)), m)
  {
    hide *;
    ScalePlus(a, b, m); ScalePlus(c, d, m); ScalePlus(a.Plus(b), c.Plus(d), m);
  }

  lemma TwirlTerm(n: nat, q: nat, t: Term)
    requires t.p.On(n) && q < n
    ensures Twirl(n, q, Scale(t.c, PauliMat(t.p)))
         == if t.p.x[q] || t.p.z[q] then Zero(n) else Scale(t.c, PauliMat(t.p))
  {
    hide Mul, Scale, PauliMat, Sandwiched, Anticommutes, Add, Zero, Square, IPow, Complex.Plus, Complex.Times;
    var m := Scale(t.c, PauliMat(t.p));
    PauliMatSquare(t.p); ScaleSquare(n, t.c, PauliMat(t.p)); ScaleUnits(n, m);
    SandwichedTerm(n, Single(n, q, true, false), t); AnticommutesAt(n, t.p, q, true, false);
    SandwichedTerm(n, Single(n, q, true, true), t); AnticommutesAt(n, t.p, q, true, true);
    SandwichedTerm(n, Single(n, q, false, true), t); AnticommutesAt(n, t.p, q, false, true);
    var x, z := t.p.x[q], t.p.z[q];
    var kx, ky, kz := if z then 2 else 0, if x != z then 2 else 0, if x then 2 else 0;
    FourScales(ONE, IPow(kx), IPow(ky), IPow(kz), m);
    TwirlSigns(x, z);
    QuarterOfFour();
    ScaleScale(QUARTER, Complex(4.0, 0.0), m);
    ScaleZero(n, QUARTER);
  }

  lemma QuarterOfFour()
    ensures QUARTER.Times(Complex(4.0, 0.0)) == ONE
  {
  }

  /** The identity factor at `q`. */
  predicate Idle(q: nat, p: Pauli) {
    !HasX(q, p) && !HasZ(q, p)
  }

  /** The twirl at `q` keeps exactly the strings with the identity there. */
  lemma {:induction false} TwirlKeepsIdle(n: nat, q: nat, ts: seq<Term>)
    requires OnQubits(n, ts) && q < n
    ensures OnQubits(n, Where(p => Idle(q, p), ts))
    ensures Twirl(n, q, SumMat(n, ts)) == SumMat(n, Where(p => Idle(q, p), ts))
  {
    hide Scale, PauliMat, Add, Zero, Square, SumMat, Twirl, Norm2, Weight;
    var idle: Pauli -> bool := p => Idle(q, p);
    WhereOn(n, idle, ts);
    SumMatStep(n, ts);
    if |ts| == 0 {
      TwirlZero(n, q);
      SumMatStep(n, Where(idle, ts));
    } else {
      var t := ts[0];
      var rest := Where(idle, ts[1..]);
      WhereOn(n, idle, ts[1..]);
      TwirlKeepsIdle(n, q, ts[1..]);
      TwirlAdd(n, q, Scale(t.c, PauliMat(t.p)), SumMat(n, ts[1..]));
      TwirlTerm(n, q, t);
      if idle(t.p) {
        assert Where(idle, ts) == [t] + rest;
        SumMatStep(n, [t] + rest);
        assert ([t] + rest)[1..] == rest;
      } else {
        assert Where(idle, ts) == rest;
        SumMatSquare(n, rest);
        AddZero(n, SumMat(n, rest));
      }
    }
  }

  lemma TwirlZero(n: nat, q: nat)
    ensures Twirl(n, q, Zero(n)) == Zero(n)
  {
    hide Mul, Scale, PauliMat, Add, Zero, Square;
    var x, y, z := Single(n, q, true, false), Single(n, q, true, true), Single(n, q, false, true);
    PauliMatSquare(x); PauliMatSquare(y); PauliMatSquare(z);
    MulZero(n, PauliMat(x)); MulZero(n, PauliMat(y)); MulZero(n, PauliMat(z));
    ZeroSquare(n); AddZero(n, Zero(n));
    ScaleZero(n, QUARTER);
  }

  /**
   The support profile is what the twirl removes:
   `Tr(T_q(A)^dagger T_q(A)) == 2^n (N - w_q)`.
   */
  lemma SupportIsTwirl(n: nat, ts: seq<Term>, s: SiteSums, q: nat)
    requires OnQubits(n, ts) && Distinct(ts) && SumsOf(n, ts, s) && q < n
    ensures
      var m := Twirl(n, q, SumMat(n, ts));
      Trace(Mul(Dagger(m), m)) == Real(Pow2(n) as real).Times(Real(s.norm - s.Occupied(q)))
  {
    hide Mul, Dagger, Trace, Twirl, SumMat, Where, Weight, Distinct, Complex.Times, Norm2, Real, HasX, HasZ;
    TwirlKeepsIdle(n, q, ts);
    WhereNorm(n, p => Idle(q, p), ts);
    ProbeAverage(n, ts, s, q);
    WeightRest(p => HasX(q, p) || HasZ(q, p), p => Idle(q, p), ts);
  }

  lemma {:induction false} WeightRest(a: Pauli -> bool, b: Pauli -> bool, ts: seq<Term>)
    requires forall p :: b(p) == !a(p)
    ensures Weight(b, ts) == Norm2(ts) - Weight(a, ts)
  {
    hide Complex.Abs2;
    if |ts| > 0 {
      WeightRest(a, b, ts[1..]);
    }
  }
}
