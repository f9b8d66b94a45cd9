/**
 Heisenberg propagation of a Pauli sum through Pauli rotations, as `channel/rotation.rs` and the
 layer merge do it, against the dense `U^dagger O U` of `scrambling.py`.
 */
module Propagation {
  import opened Complexes
  import opened Dense
  import opened Paulis
  import opened PauliSums

  /**
   The rotation `exp(-i theta g / 2)`; the angle is carried as `c = cos(theta/2)`, `s = sin(theta/2)`,
   so that `cos theta == c^2 - s^2` and `sin theta == 2 c s`.
   */
  datatype Rotation = Rotation(g: Pauli, c: real, s: real) {
    predicate On(n: nat) {
      g.On(n) && c * c + s * s == 1.0
    }

    function Cos(): real {
      c * c - s * s
    }

    function Sin(): real {
      2.0 * c * s
    }
  }

  predicate CircuitOn(n: nat, gs: seq<Rotation>) {
    forall i :: 0 <= i < |gs| ==> gs[i].On(n)
  }

  /** `_gate_unitary`: `cos(theta/2) I - i sin(theta/2) g`. */
  function GateMat(n: nat, r: Rotation): Mat
    requires r.On(n)
  {
    Add(Scale(Real(r.c), Identity(n)), Scale(Complex(0.0, -r.s), PauliMat(r.g)))
  }

  /** `dense_unitary`: gate 0 acts first, so the product is `G_last ... G_1 G_0`. */
  function CircuitMat(n: nat, gs: seq<Rotation>): Mat
    requires CircuitOn(n, gs)
  {
    if |gs| == 0 then Identity(n) else Mul(CircuitMat(n, gs[1..]), GateMat(n, gs[0]))
  }

  /** `u^dagger a u`. */
  function Conjugate(u: Mat, a: Mat): Mat {
    Mul(Mul(Dagger(u), a), u)
  }

  /** `apply_adjoint`: the rows one term becomes under the rotation by `-theta`. */
  function ApplyAdjoint(r: Rotation, t: Term): seq<Term>
    requires r.g.On(|r.g.x|) && t.p.On(|r.g.x|)
  {
    if Commutes(t.p, r.g) then [t]
    else [Term(t.p, Real(r.Cos()).Times(t.c)),
          Term(ProductKey(t.p, r.g), Real(-r.Sin()).Times(Turn(1 + PhaseOf(t.p, r.g), t.c)))]
  }

  /** All rows of one layer, in input order. */
  function Emit(r: Rotation, ts: seq<Term>): seq<Term>
    requires r.g.On(|r.g.x|) && OnQubits(|r.g.x|, ts)
  {
    if |ts| == 0 then [] else ApplyAdjoint(r, ts[0]) + Emit(r, ts[1..])
  }

  /** `emit_if_kept`: a merged row survives when it is nonzero and the policy keeps it. */
  function Kept(keep: Term -> bool, ts: seq<Term>): seq<Term> {
    if |ts| == 0 then []
    else (if ts[0].c != ZERO && keep(ts[0]) then [ts[0]] else []) + Kept(keep, ts[1..])
  }

  function Layer(r: Rotation, keep: Term -> bool, ts: seq<Term>): seq<Term>
    requires r.g.On(|r.g.x|) && OnQubits(|r.g.x|, ts)
  {
    Kept(keep, Merge(Emit(r, ts)))
  }

  lemma {:induction false} InKept(keep: Term -> bool, ts: seq<Term>, t: Term)
    ensures t in Kept(keep, ts) <==> t in ts && t.c != ZERO && keep(t)
  {
    if |ts| > 0 {
      InKept(keep, ts[1..], t);
      assert ts == [ts[0]] + ts[1..];
    }
  }

  // ---- One rotation ----

  lemma GateDagger(n: nat, r: Rotation)
    requires r.On(n)
    ensures Square(GateMat(n, r), n)
    ensures Dagger(GateMat(n, r)) == Add(Scale(Real(r.c), Identity(n)), Scale(Complex(0.0, r.s), PauliMat(r.g)))
  {
    hide Dagger, Add, Scale, Identity, PauliMat, Square;
    var a, b := Real(r.c), Complex(0.0, -r.s);
    IdentitySquare(n); PauliMatSquare(r.g);
    ScaleSquare(n, a, Identity(n)); ScaleSquare(n, b, PauliMat(r.g));
    AddSquare(n, Scale(a, Identity(n)), Scale(b, PauliMat(r.g)));
    DaggerAdd(Scale(a, Identity(n)), Scale(b, PauliMat(r.g)));
    DaggerScale(a, Identity(n)); DaggerScale(b, PauliMat(r.g));
    DaggerIdentity(n); PauliDagger(r.g);
    assert a.Conj() == a;
    assert b.Conj() == Complex(0.0, r.s);
  }

  /** `(a I + b' G) Q (a I + b G) == a^2 Q + a b QG + a b' GQ + b b' GQG`. */
  lemma ExpandConjugation(n: nat, a: Complex, b: Complex, b': Complex, g: Mat, q: Mat)
    requires Square(g, n) && Square(q, n)
    ensures Mul(Mul(Add(Scale(a, Identity(n)), Scale(b', g)), q), Add(Scale(a, Identity(n)), Scale(b, g)))
         == Add(Add(Scale(a.Times(a), q), Scale(a.Times(b'), Mul(g, q))),
                Add(Scale(a.Times(b), Mul(q, g)), Scale(b.Times(b'), Mul(Mul(g, q), g))))
  {
    hide *;
    var e := Identity(n);
    var left := Add(Scale(a, q), Scale(b', Mul(g, q)));
    IdentitySquare(n); MulSquare(n, g, q); MulIdentity(n, q); MulIdentity(n, Mul(g, q));
    MulAddLeft(Scale(a, e), Scale(b', g), q); MulScaleLeft(a, e, q); MulScaleLeft(b', g, q);
    assert Mul(Add(Scale(a, e), Scale(b', g)), q) == left;
    MulAddRight(left, Scale(a, e), Scale(b, g));
    ScaleSquare(n, a, q); ScaleSquare(n, b', Mul(g, q)); AddSquare(n, Scale(a, q), Scale(b', Mul(g, q)));
    MulScaleRight(a, left, e); MulIdentity(n, left); ScaleAdd(a, Scale(a, q), Scale(b', Mul(g, q)));
    ScaleScale(a, a, q); ScaleScale(a, b', Mul(g, q));
    MulScaleRight(b, left, g);
    MulAddLeft(Scale(a, q), Scale(b', Mul(g, q)), g); MulScaleLeft(a, q, g); MulScaleLeft(b', Mul(g, q), g);
    ScaleAdd(b, Scale(a, Mul(q, g)), Scale(b', Mul(Mul(g, q), g)));
    ScaleScale(b, a, Mul(q, g)); ScaleScale(b, b', Mul(Mul(g, q), g));
    TimesComm(a, b);
  }

  /** A generator commuting with the string leaves it alone. */
  lemma CommutingConjugation(n: nat, r: Rotation, p: Pauli)
    requires r.On(n) && p.On(n) && Commutes(p, r.g)
    ensures Conjugate(GateMat(n, r), PauliMat(p)) == PauliMat(p)
  {
    hide Dagger, Add, Scale, Identity, PauliMat, Square, Mul, Commutes, TurnMat;
    var a, b, b' := Real(r.c), Complex(0.0, -r.s), Complex(0.0, r.s);
    var g, q := PauliMat(r.g), PauliMat(p);
    GateDagger(n, r);
    PauliMatSquare(p); PauliMatSquare(r.g);
    ExpandConjugation(n, a, b, b', g, q);
    CommutesIsDense(p, r.g);
    TurnMatNone(Mul(q, g));
    assert Mul(g, q) == Mul(q, g);
    MulAssoc(q, g, g); SquareIsIdentity(r.g); MulIdentity(n, q);
    assert Mul(Mul(g, q), g) == q;
    MulSquare(n, q, g);
    CommutingScalars(n, r.c, r.s, q, Mul(q, g));
  }

  lemma CommutingScalars(n: nat, c: real, s: real, q: Mat, qg: Mat)
    requires c * c + s * s == 1.0 && Square(q, n) && Square(qg, n)
    ensures
      var a, b, b' := Real(c), Complex(0.0, -s), Complex(0.0, s);
      Add(Add(Scale(a.Times(a), q), Scale(a.Times(b'), qg)), Add(Scale(a.Times(b), qg), Scale(b.Times(b'), q))) == q
  {
    var a, b, b' := Real(c), Complex(0.0, -s), Complex(0.0, s);
    hide Add, Scale, Square, Zero;
    var x, y := Scale(a.Times(a), q), Scale(b.Times(b'), q);
    AddComm(Scale(a.Times(b), qg), y);
    AddSwap(x, Scale(a.Times(b'), qg), y, Scale(a.Times(b), qg));
    ScalePlus(a.Times(a), b.Times(b'), q);
    ScalePlus(a.Times(b'), a.Times(b), qg);
    HalfAngles(c, s);
    ScaleUnits(n, q); ScaleUnits(n, qg);
    AddZero(n, q);
  }

  /** The products of the half-angle coefficients. */
  lemma HalfAngles(c: real, s: real)
    ensures
      var a, b, b' := Real(c), Complex(0.0, -s), Complex(0.0, s);
      && a.Times(a).Plus(b.Times(b')) == Real(c * c + s * s)
      && a.Times(b').Plus(a.Times(b)) == ZERO
  {
  }

  /** `U^dagger Q U == cos(theta) Q - i sin(theta) Q G` when generator and string anticommute. */
  lemma AnticommutingConjugation(n: nat, r: Rotation, p: Pauli)
    requires r.On(n) && p.On(n) && !Commutes(p, r.g)
    ensures Conjugate(GateMat(n, r), PauliMat(p))
         == Add(Scale(Real(r.Cos()), PauliMat(p)),
                Scale(Complex(0.0, -r.Sin()), Mul(PauliMat(p), PauliMat(r.g))))
  {
    hide Dagger, Add, Scale, Identity, PauliMat, Square, Mul, Commutes, TurnMat;
    var a, b, b' := Real(r.c), Complex(0.0, -r.s), Complex(0.0, r.s);
    var g, q := PauliMat(r.g), PauliMat(p);
    GateDagger(n, r);
    PauliMatSquare(p); PauliMatSquare(r.g);
    ExpandConjugation(n, a, b, b', g, q);
    CommutesIsDense(p, r.g);
    assert Mul(g, q) == TurnMat(2, Mul(q, g));
    TurnMatMul(2, 0, Mul(q, g), g); TurnMatNone(g);
    MulAssoc(q, g, g); SquareIsIdentity(r.g); MulIdentity(n, q);
    assert Mul(Mul(g, q), g) == TurnMat(2, q);
    AnticommutingScalars(r, a, b, b', q, Mul(q, g), Mul(g, q), Mul(Mul(g, q), g));
  }

  lemma AnticommutingScalars(r: Rotation, a: Complex, b: Complex, b': Complex, q: Mat, qg: Mat, gq: Mat, gqg: Mat)
    requires a == Real(r.c) && b == Complex(0.0, -r.s) && b' == Complex(0.0, r.s)
    requires gq == TurnMat(2, qg) && gqg == TurnMat(2, q)
    ensures Add(Add(Scale(a.Times(a), q), Scale(a.Times(b'), gq)), Add(Scale(a.Times(b), qg), Scale(b.Times(b'), gqg)))
         == Add(Scale(Real(r.Cos()), q), Scale(Complex(0.0, -r.Sin()), qg))
  {
    hide Add, Scale, TurnMat, Complex.Times, Complex.Plus, Rotation.Cos, Rotation.Sin;
    ScaleHalfTurn(a.Times(b'), qg);
    ScaleHalfTurn(b.Times(b'), q);
    var x, y := Scale(a.Times(a), q), Scale(b.Times(b').Neg(), q);
    var z, w := Scale(a.Times(b').Neg(), qg), Scale(a.Times(b), qg);
    AddComm(w, y);
    AddSwap(x, z, y, w);
    AddComm(z, w);
    ScalePlus(a.Times(a), b.Times(b').Neg(), q);
    ScalePlus(a.Times(b), a.Times(b').Neg(), qg);
    RotationAngles(r);
  }

  lemma RotationAngles(r: Rotation)
    ensures Real(r.c).Times(Real(r.c)).Plus(Complex(0.0, -r.s).Times(Complex(0.0, r.s)).Neg()) == Real(r.Cos())
    ensures Real(r.c).Times(Complex(0.0, -r.s)).Plus(Real(r.c).Times(Complex(0.0, r.s)).Neg()) == Complex(0.0, -r.Sin())
  {
    DoubleAngle(r.c, r.s, r.Cos(), r.Sin());
  }

  lemma DoubleAngle(c: real, s: real, cos: real, sin: real)
    requires cos == c * c - s * s && sin == 2.0 * c * s
    ensures Real(c).Times(Real(c)).Plus(Complex(0.0, -s).Times(Complex(0.0, s)).Neg()) == Real(cos)
    ensures Real(c).Times(Complex(0.0, -s)).Plus(Real(c).Times(Complex(0.0, s)).Neg()) == Complex(0.0, -sin)
  {
  }

  lemma ScaleHalfTurn(c: Complex, m: Mat)
    ensures Scale(c, TurnMat(2, m)) == Scale(c.Neg(), m)
  {
    hide Scale, TurnMat, Complex.Times, IPow;
    TurnMatIsScale(2, m);
    ScaleScale(c, IPow(2), m);
    IPowTimes(2, c);
  }

  /** The two branches of `apply_adjoint`, phase included, are the dense conjugation of the term. */
  lemma ApplyAdjointIsConjugation(n: nat, r: Rotation, t: Term)
    requires r.On(n) && t.p.On(n)
    ensures OnQubits(n, ApplyAdjoint(r, t))
    ensures SumMat(n, ApplyAdjoint(r, t)) == Conjugate(GateMat(n, r), Scale(t.c, PauliMat(t.p)))
  {
    hide Dagger, Add, Scale, PauliMat, Square, Mul, Commutes, TurnMat, SumMat, GateMat, PhaseOf, ProductKey, Turn, Real, Complex.Times;
    var u, q := GateMat(n, r), PauliMat(t.p);
    MulScaleRight(t.c, Dagger(u), q);
    MulScaleLeft(t.c, Mul(Dagger(u), q), u);
    if Commutes(t.p, r.g) {
      CommutingConjugation(n, r, t.p);
      SingleMat(n, t);
    } else {
      AnticommutingConjugation(n, r, t.p);
      var out := ApplyAdjoint(r, t);
      assert out == [out[0]] + [out[1]];
      SumMatConcat(n, [out[0]], [out[1]]);
      SingleMat(n, out[0]); SingleMat(n, out[1]);
      ProductIsDense(t.p, r.g);
      BranchScalars(t.c, r.Cos(), r.Sin(), PhaseOf(t.p, r.g), q, PauliMat(ProductKey(t.p, r.g)));
    }
  }

  lemma BranchScalars(c: Complex, cos: real, sin: real, k: int, q: Mat, m: Mat)
    ensures Scale(c, Add(Scale(Real(cos), q), Scale(Complex(0.0, -sin), TurnMat(k, m))))
         == Add(Scale(Real(cos).Times(c), q), Scale(Real(-sin).Times(Turn(1 + k, c)), m))
  {
    hide Add, Scale, TurnMat, Complex.Times, Real, IPow, Turn;
    var d := Complex(0.0, -sin);
    ScaleAdd(c, Scale(Real(cos), q), Scale(d, TurnMat(k, m)));
    ScaleScale(c, Real(cos), q); TimesComm(c, Real(cos));
    ScaleScale(c, d, TurnMat(k, m));
    TurnMatIsScale(k, m);
    ScaleScale(c.Times(d), IPow(k), m);
    IPowTimes(k, c.Times(d));
    ImagScalar(sin);
    TurnScalars(c, sin, k);
  }

  lemma ImagScalar(sin: real)
    ensures Complex(0.0, -sin) == Turn(1, Real(-sin))
  {
  }

  lemma TurnScalars(c: Complex, sin: real, k: int)
    requires Complex(0.0, -sin) == Turn(1, Real(-sin))
    ensures Turn(k, c.Times(Complex(0.0, -sin))) == Real(-sin).Times(Turn(1 + k, c))
  {
    hide *;
    var w := Real(-sin);
    TimesComm(c, Turn(1, w)); TurnLeft(1, w, c); TimesComm(w, c);
    TurnTurn(k, 1, c.Times(w));
    TurnLeft(1 + k, c, w); TimesComm(Turn(1 + k, c), w);
  }

  lemma ConjugateAdd(u: Mat, a: Mat, b: Mat)
    ensures Conjugate(u, Add(a, b)) == Add(Conjugate(u, a), Conjugate(u, b))
  {
    hide Dagger, Mul, Add;
    MulAddRight(Dagger(u), a, b);
    MulAddLeft(Mul(Dagger(u), a), Mul(Dagger(u), b), u);
  }

  lemma ConjugateMul(u: Mat, v: Mat, a: Mat)
    ensures Conjugate(Mul(u, v), a) == Conjugate(v, Conjugate(u, a))
  {
    hide Dagger, Mul;
    DaggerMul(u, v);
    MulAssoc(Dagger(v), Dagger(u), a);
    MulAssoc(Mul(Dagger(v), Mul(Dagger(u), a)), u, v);
    MulAssoc(Dagger(v), Mul(Dagger(u), a), u);
  }

  // ---- A layer and a run ----

  lemma {:induction false} EmitIsConjugation(n: nat, r: Rotation, ts: seq<Term>)
    requires r.On(n) && OnQubits(n, ts)
    ensures OnQubits(n, Emit(r, ts))
    ensures SumMat(n, Emit(r, ts)) == Conjugate(GateMat(n, r), SumMat(n, ts))
  {
    hide Dagger, Add, Scale, PauliMat, Square, Mul, SumMat, GateMat, ApplyAdjoint, Zero;
    var u := GateMat(n, r);
    SumMatStep(n, ts);
    GateSquare(n, r);
    if |ts| == 0 {
      SumMatStep(n, Emit(r, ts));
      DaggerSquare(n, u);
      MulZero(n, Dagger(u)); MulZero(n, u);
    } else {
      ApplyAdjointIsConjugation(n, r, ts[0]);
      EmitIsConjugation(n, r, ts[1..]);
      SumMatConcat(n, ApplyAdjoint(r, ts[0]), Emit(r, ts[1..]));
      ConjugateAdd(u, Scale(ts[0].c, PauliMat(ts[0].p)), SumMat(n, ts[1..]));
    }
  }

  lemma GateSquare(n: nat, r: Rotation)
    requires r.On(n)
    ensures Square(GateMat(n, r), n)
  {
    GateDagger(n, r);
  }

  lemma {:induction false} KeptKeys(n: nat, keep: Term -> bool, ts: seq<Term>)
    requires OnQubits(n, ts) && Distinct(ts)
    ensures OnQubits(n, Kept(keep, ts)) && Distinct(Kept(keep, ts))
    ensures forall i :: 0 <= i < |Kept(keep, ts)| ==> Kept(keep, ts)[i] in ts
    ensures Norm2(Kept(keep, ts)) <= Norm2(ts)
  {
    hide Complex.Abs2;
    if |ts| > 0 {
      KeptKeys(n, keep, ts[1..]);
      Abs2Nonnegative(ts[0].c);
      var rest := Kept(keep, ts[1..]);
      var r := Kept(keep, ts);
      forall i | 0 <= i < |rest| ensures rest[i].p != ts[0].p && rest[i] in ts {
        var k :| 0 <= k < |ts| - 1 && ts[1..][k] == rest[i];
        assert ts[k + 1] == rest[i];
      }
      if ts[0].c != ZERO && keep(ts[0]) {
        assert r == [ts[0]] + rest;
        assert r[1..] == rest;
        forall i, j | 0 <= i < j < |r| ensures r[i].p != r[j].p {
          if i > 0 {
            assert rest[i - 1].p != rest[j - 1].p;
          }
        }
      } else {
        assert r == rest;
      }
    }
  }

  lemma Abs2Nonnegative(c: Complex)
    ensures c.Abs2() >= 0.0
  {
  }

  /** With nothing truncated, dropping exact zeros does not change the operator. */
  lemma {:induction false} KeptAllMat(n: nat, keep: Term -> bool, ts: seq<Term>)
    requires OnQubits(n, ts) && forall t :: keep(t)
    ensures OnQubits(n, Kept(keep, ts))
    ensures SumMat(n, Kept(keep, ts)) == SumMat(n, ts)
  {
    hide SumMat, Add, Scale, PauliMat, Square, Zero;
    SumMatStep(n, ts);
    if |ts| > 0 {
      var rest := Kept(keep, ts[1..]);
      KeptAllMat(n, keep, ts[1..]);
      if ts[0].c != ZERO {
        assert Kept(keep, ts) == [ts[0]] + rest;
        SumMatStep(n, Kept(keep, ts));
        assert Kept(keep, ts)[1..] == rest;
      } else {
        assert Kept(keep, ts) == rest;
        PauliMatSquare(ts[0].p); ScaleUnits(n, PauliMat(ts[0].p));
        SumMatSquare(n, ts[1..]); AddZero(n, SumMat(n, ts[1..]));
      }
    }
  }

  /** The sum after each layer's merge; the Heisenberg picture applies the last gate first. */
  function Run(n: nat, gs: seq<Rotation>, keep: Term -> bool, ts: seq<Term>): (r: seq<Term>)
    requires CircuitOn(n, gs) && OnQubits(n, ts) && Distinct(ts)
    ensures OnQubits(n, r) && Distinct(r)
  {
    if |gs| == 0 then ts
    else
      var inner := Run(n, gs[1..], keep, ts);
      LayerKeys(n, gs[0], keep, inner);
      Layer(gs[0], keep, inner)
  }

  lemma LayerKeys(n: nat, r: Rotation, keep: Term -> bool, ts: seq<Term>)
    requires r.On(n) && OnQubits(n, ts)
    ensures OnQubits(n, Layer(r, keep, ts)) && Distinct(Layer(r, keep, ts))
  {
    hide Merge, Emit, Kept, SumMat;
    EmitIsConjugation(n, r, ts);
    MergeMat(n, Emit(r, ts));
    KeptKeys(n, keep, Merge(Emit(r, ts)));
  }

  lemma CircuitMatStep(n: nat, gs: seq<Rotation>)
    requires CircuitOn(n, gs)
    ensures |gs| == 0 ==> CircuitMat(n, gs) == Identity(n)
    ensures |gs| > 0 ==> CircuitMat(n, gs) == Mul(CircuitMat(n, gs[1..]), GateMat(n, gs[0]))
  {
  }

  /**
   Pauli propagation is exact: for every circuit of Pauli rotations and every observable, the
   untruncated run denotes `U^dagger O U` for the dense unitary `U` of the circuit.
   */
  lemma {:induction false} RunIsConjugation(n: nat, gs: seq<Rotation>, keep: Term -> bool, ts: seq<Term>)
    requires CircuitOn(n, gs) && OnQubits(n, ts) && Distinct(ts) && forall t :: keep(t)
    ensures SumMat(n, Run(n, gs, keep, ts)) == Conjugate(CircuitMat(n, gs), SumMat(n, ts))
  {
    hide SumMat, Mul, Dagger, CircuitMat, GateMat, Conjugate, Merge, Emit, Kept, Identity, Square;
    CircuitMatStep(n, gs);
    if |gs| == 0 {
      ConjugateIdentity(n, SumMat(n, ts), ts);
    } else {
      var inner := Run(n, gs[1..], keep, ts);
      RunIsConjugation(n, gs[1..], keep, ts);
      EmitIsConjugation(n, gs[0], inner);
      MergeMat(n, Emit(gs[0], inner));
      KeptAllMat(n, keep, Merge(Emit(gs[0], inner)));
      ConjugateMul(CircuitMat(n, gs[1..]), GateMat(n, gs[0]), SumMat(n, ts));
    }
  }

  lemma ConjugateIdentity(n: nat, m: Mat, ts: seq<Term>)
    requires OnQubits(n, ts) && m == SumMat(n, ts)
    ensures Conjugate(Identity(n), m) == m
  {
    hide SumMat, Mul, Dagger, Identity, Square;
    SumMatSquare(n, ts);
    DaggerIdentity(n); MulIdentity(n, m);
  }

  /** `dense_unitary` as the loop that multiplies each gate on from the left. */
  method DenseUnitary(n: nat, gs: seq<Rotation>) returns (u: Mat)
    requires CircuitOn(n, gs)
    ensures u == CircuitMat(n, gs)
  {
    hide Identity, CircuitMat, GateMat, Mul, Square;
    u := Identity(n);
    IdentitySquare(n); CircuitSquare(n, gs); MulIdentity(n, CircuitMat(n, gs));
    assert gs[0..] == gs;
    for k := 0 to |gs|
      invariant Mul(CircuitMat(n, gs[k..]), u) == CircuitMat(n, gs)
      invariant Square(u, n)
    {
      LoopStep(n, gs, k, u);
      u := Mul(GateMat(n, gs[k]), u);
    }
    CircuitMatStep(n, gs[|gs|..]); MulIdentity(n, u);
  }

  /** `propagate(direction="heisenberg")`: one layer per gate, last gate first. */
  method Propagate(n: nat, gs: seq<Rotation>, keep: Term -> bool, ts: seq<Term>) returns (r: seq<Term>)
    requires CircuitOn(n, gs) && OnQubits(n, ts) && Distinct(ts)
    ensures r == Run(n, gs, keep, ts)
  {
    r := ts;
    assert gs[|gs|..] == [];
    for k := |gs| downto 0
      invariant OnQubits(n, r) && Distinct(r)
      invariant r == Run(n, gs[k..], keep, ts)
    {
      assert gs[k..][0] == gs[k] && gs[k..][1..] == gs[k + 1..];
      LayerKeys(n, gs[k], keep, r);
      r := Layer(gs[k], keep, r);
    }
    assert gs[0..] == gs;
  }

  lemma {:induction false} CircuitSquare(n: nat, gs: seq<Rotation>)
    requires CircuitOn(n, gs)
    ensures Square(CircuitMat(n, gs), n)
  {
    hide CircuitMat, GateMat, Mul, Square, Identity;
    CircuitMatStep(n, gs); IdentitySquare(n);
    if |gs| > 0 {
      CircuitSquare(n, gs[1..]); GateSquare(n, gs[0]);
      MulSquare(n, CircuitMat(n, gs[1..]), GateMat(n, gs[0]));
    }
  }

  lemma LoopStep(n: nat, gs: seq<Rotation>, k: nat, u: Mat)
    requires CircuitOn(n, gs) && k < |gs| && Square(u, n)
    ensures Mul(CircuitMat(n, gs[k..]), u) == Mul(CircuitMat(n, gs[k + 1..]), Mul(GateMat(n, gs[k]), u))
    ensures Square(Mul(GateMat(n, gs[k]), u), n)
  {
    hide CircuitMat, GateMat, Mul, Square;
    assert gs[k..][1..] == gs[k + 1..];
    CircuitMatStep(n, gs[k..]);
    MulAssoc(CircuitMat(n, gs[k + 1..]), GateMat(n, gs[k]), u);
    GateSquare(n, gs[k]);
    MulSquare(n, GateMat(n, gs[k]), u);
  }

  // ---- Conservation of the Hilbert-Schmidt norm ----

  /** Every rotation is unitary. */
  lemma GateUnitary(n: nat, r: Rotation)
    requires r.On(n)
    ensures Mul(GateMat(n, r), Dagger(GateMat(n, r))) == Identity(n)
  {
    hide Dagger, Add, Scale, Identity, PauliMat, Square, Mul;
    var a, b, b' := Real(r.c), Complex(0.0, -r.s), Complex(0.0, r.s);
    var e, g := Identity(n), PauliMat(r.g);
    var u := Add(Scale(a, e), Scale(b, g));
    GateDagger(n, r); GateSquare(n, r);
    IdentitySquare(n); PauliMatSquare(r.g);
    MulAddRight(u, Scale(a, e), Scale(b', g));
    MulScaleRight(a, u, e); MulIdentity(n, u); ScaleAdd(a, Scale(a, e), Scale(b, g));
    ScaleScale(a, a, e); ScaleScale(a, b, g);
    MulScaleRight(b', u, g);
    MulAddLeft(Scale(a, e), Scale(b, g), g); MulScaleLeft(a, e, g); MulScaleLeft(b, g, g);
    MulIdentity(n, g); SquareIsIdentity(r.g);
    ScaleAdd(b', Scale(a, g), Scale(b, e)); ScaleScale(b', a, g); ScaleScale(b', b, e);
    UnitaryScalars(n, r.c, r.s, e, g);
  }

  lemma UnitaryScalars(n: nat, c: real, s: real, e: Mat, g: Mat)
    requires c * c + s * s == 1.0 && Square(e, n) && Square(g, n)
    ensures
      var a, b, b' := Real(c), Complex(0.0, -s), Complex(0.0, s);
      Add(Add(Scale(a.Times(a), e), Scale(a.Times(b), g)), Add(Scale(b'.Times(a), g), Scale(b'.Times(b), e))) == e
  {
    hide Add, Scale, Square;
    var a, b, b' := Real(c), Complex(0.0, -s), Complex(0.0, s);
    TimesComm(b', a); TimesComm(b', b);
    AddComm(Scale(a.Times(b), g), Scale(a.Times(b'), g));
    CommutingScalars(n, c, s, e, g);
    ScalePlus(a.Times(b'), a.Times(b), g);
    AddComm(Scale(a.Times(b'), g), Scale(b.Times(b'), e));
    AddComm(Scale(a.Times(b), g), Scale(b.Times(b'), e));
    AddSwap(Scale(a.Times(a), e), Scale(a.Times(b), g), Scale(b.Times(b'), e), Scale(a.Times(b'), g));
    AddSwap(Scale(a.Times(a), e), Scale(a.Times(b'), g), Scale(b.Times(b'), e), Scale(a.Times(b), g));
  }

  /** `Tr(B^dagger B)` is the same for `B` and `u^dagger B u` when `u u^dagger == I`. */
  lemma TraceInvariant(n: nat, u: Mat, m: Mat)
    requires Square(u, n) && Square(m, n) && Mul(u, Dagger(u)) == Identity(n)
    ensures Trace(Mul(Dagger(Conjugate(u, m)), Conjugate(u, m))) == Trace(Mul(Dagger(m), m))
  {
    hide Dagger, Mul, Square, Trace, Identity;
    var d, dm := Dagger(u), Dagger(m);
    DaggerSquare(n, u); DaggerSquare(n, m);
    MulSquare(n, d, m); MulSquare(n, d, dm); MulSquare(n, dm, m); MulSquare(n, m, u); MulSquare(n, dm, Mul(m, u));
    DaggerMul(Mul(d, m), u); DaggerMul(d, m); DaggerDagger(u);
    assert Dagger(Conjugate(u, m)) == Mul(d, Mul(dm, u));
    MulAssoc(d, m, u); MulAssoc(d, Mul(dm, u), Mul(d, Mul(m, u)));
    MulAssoc(dm, u, Mul(d, Mul(m, u))); MulAssoc(u, d, Mul(m, u)); MulIdentity(n, Mul(m, u));
    assert Mul(Dagger(Conjugate(u, m)), Conjugate(u, m)) == Mul(d, Mul(dm, Mul(m, u)));
    TraceCyclic(n, d, Mul(dm, Mul(m, u)));
    MulAssoc(dm, Mul(m, u), d); MulAssoc(m, u, d); MulIdentity(n, m);
  }

  /** One layer before truncation conserves `sum |c_P|^2`. */
  lemma LayerNorm(n: nat, r: Rotation, ts: seq<Term>)
    requires r.On(n) && OnQubits(n, ts) && Distinct(ts)
    ensures OnQubits(n, Emit(r, ts))
    ensures Norm2(Merge(Emit(r, ts))) == Norm2(ts)
  {
    hide Emit, Merge, Norm2, SumMat, Mul, Dagger, Conjugate, GateMat, Trace, Square, Identity, Overlap, Real;
    var out := Merge(Emit(r, ts));
    EmitIsConjugation(n, r, ts);
    MergeMat(n, Emit(r, ts));
    GateUnitary(n, r); GateSquare(n, r); SumMatSquare(n, ts);
    TraceInvariant(n, GateMat(n, r), SumMat(n, ts));
    TraceOverlap(n, out, out); TraceOverlap(n, ts, ts);
    OverlapSelf(out); OverlapSelf(ts);
    CancelReal(Pow2(n) as real, Norm2(out), Norm2(ts));
  }

  lemma CancelReal(w: real, a: real, b: real)
    requires w > 0.0 && Real(w).Times(Real(a)) == Real(w).Times(Real(b))
    ensures a == b
  {
    assert w * a == w * b;
  }

  lemma {:induction false} KeptAllNorm(keep: Term -> bool, ts: seq<Term>)
    requires forall t :: keep(t)
    ensures Norm2(Kept(keep, ts)) == Norm2(ts)
  {
    hide Complex.Abs2;
    if |ts| > 0 {
      KeptAllNorm(keep, ts[1..]);
      if ts[0].c != ZERO {
        assert Kept(keep, ts) == [ts[0]] + Kept(keep, ts[1..]);
      } else {
        Abs2Zero();
        assert Kept(keep, ts) == Kept(keep, ts[1..]);
      }
    }
  }

  lemma Abs2Zero()
    ensures ZERO.Abs2() == 0.0
  {
  }

  /**
   Over a whole run the norm never grows, whatever the policy drops; an untruncated run conserves it.
   */
  lemma {:induction false} RunNorm(n: nat, gs: seq<Rotation>, keep: Term -> bool, ts: seq<Term>)
    requires CircuitOn(n, gs) && OnQubits(n, ts) && Distinct(ts)
    ensures Norm2(Run(n, gs, keep, ts)) <= Norm2(ts)
    ensures (forall t :: keep(t)) ==> Norm2(Run(n, gs, keep, ts)) == Norm2(ts)
  {
    hide Norm2, Merge, Emit, Kept;
    if |gs| > 0 {
      var inner := Run(n, gs[1..], keep, ts);
      RunNorm(n, gs[1..], keep, ts);
      LayerNorm(n, gs[0], inner);
      MergeMat(n, Emit(gs[0], inner));
      KeptKeys(n, keep, Merge(Emit(gs[0], inner)));
      if forall t :: keep(t) {
        KeptAllNorm(keep, Merge(Emit(gs[0], inner)));
      }
    }
  }

  // ---- Invariants of a run ----

  predicate AllKeys(inv: Pauli -> bool, ts: seq<Term>) {
    forall i :: 0 <= i < |ts| ==> inv(ts[i].p)
  }

  /** `inv` survives multiplication by the generator of `r` wherever the rotation branches. */
  ghost predicate Preserves(n: nat, r: Rotation, inv: Pauli -> bool)
    requires r.On(n)
  {
    forall p: Pauli :: p.On(n) && inv(p) && !Commutes(p, r.g) ==> inv(ProductKey(p, r.g))
  }

  lemma {:induction false} EmitKeeps(n: nat, r: Rotation, inv: Pauli -> bool, ts: seq<Term>)
    requires r.On(n) && OnQubits(n, ts) && AllKeys(inv, ts) && Preserves(n, r, inv)
    ensures AllKeys(inv, Emit(r, ts))
  {
    hide Commutes, ProductKey, PhaseOf, Turn, Complex.Times;
    if |ts| > 0 {
      EmitKeeps(n, r, inv, ts[1..]);
      assert ts[0].p.On(n);
      assert AllKeys(inv, ApplyAdjoint(r, ts[0]));
    }
  }

  /** An invariant every gate preserves holds of every string of every run, truncated or not. */
  lemma {:induction false} RunKeeps(n: nat, gs: seq<Rotation>, keep: Term -> bool, inv: Pauli -> bool, ts: seq<Term>)
    requires CircuitOn(n, gs) && OnQubits(n, ts) && Distinct(ts) && AllKeys(inv, ts)
    requires forall i :: 0 <= i < |gs| ==> Preserves(n, gs[i], inv)
    ensures AllKeys(inv, Run(n, gs, keep, ts))
  {
    hide Merge, Emit, Kept, Preserves;
    if |gs| > 0 {
      var inner := Run(n, gs[1..], keep, ts);
      RunKeeps(n, gs[1..], keep, inv, ts);
      EmitKeeps(n, gs[0], inv, inner);
      EmitIsConjugation(n, gs[0], inner);
      var rows := Emit(gs[0], inner);
      MergeMat(n, rows);
      KeptKeys(n, keep, Merge(rows));
      var out := Run(n, gs, keep, ts);
      forall i | 0 <= i < |out| ensures inv(out[i].p) {
        var k :| 0 <= k < |Merge(rows)| && Merge(rows)[k] == out[i];
        assert HasKey(Merge(rows), out[i].p);
        var j :| 0 <= j < |rows| && rows[j].p == out[i].p;
      }
    }
  }
}
