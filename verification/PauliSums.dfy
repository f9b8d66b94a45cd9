/**
 Pauli sums: lists of coefficient-weighted strings, the merge that adds up equal keys, and the
 operator a sum denotes.
 */
module PauliSums {
  import opened Complexes
  import opened Dense
  import opened Paulis

  datatype Term = Term(p: Pauli, c: Complex)

  predicate OnQubits(n: nat, ts: seq<Term>) {
    forall i :: 0 <= i < |ts| ==> ts[i].p.On(n)
  }

  /** Every key is stored once. */
  predicate Distinct(ts: seq<Term>) {
    forall i, j :: 0 <= i < j < |ts| ==> ts[i].p != ts[j].p
  }

  predicate HasKey(ts: seq<Term>, p: Pauli) {
    exists i :: 0 <= i < |ts| && ts[i].p == p
  }

  /** The operator `sum c_P P`. */
  function SumMat(n: nat, ts: seq<Term>): Mat
    requires OnQubits(n, ts)
  {
    if |ts| == 0 then Zero(n)
    else Add(Scale(ts[0].c, PauliMat(ts[0].p)), SumMat(n, ts[1..]))
  }

  /** Total coefficient of `p`. */
  function Coef(p: Pauli, ts: seq<Term>): Complex {
    if |ts| == 0 then ZERO
    else (if ts[0].p == p then ts[0].c else ZERO).Plus(Coef(p, ts[1..]))
  }

  /** `hs_norm`: the squared moduli of all coefficients. */
  function Norm2(ts: seq<Term>): real {
    if |ts| == 0 then 0.0 else ts[0].c.Abs2() + Norm2(ts[1..])
  }

  /** `sum conj(a_P) b_P` over common keys. */
  function Overlap(a: seq<Term>, b: seq<Term>): Complex {
    if |a| == 0 then ZERO
    else a[0].c.Conj().Times(Coef(a[0].p, b)).Plus(Overlap(a[1..], b))
  }

  lemma SumMatStep(n: nat, ts: seq<Term>)
    requires OnQubits(n, ts)
    ensures |ts| == 0 ==> SumMat(n, ts) == Zero(n)
    ensures |ts| > 0 ==> SumMat(n, ts) == Add(Scale(ts[0].c, PauliMat(ts[0].p)), SumMat(n, ts[1..]))
  {
  }

  lemma {:induction false} SumMatSquare(n: nat, ts: seq<Term>)
    requires OnQubits(n, ts)
    ensures Square(SumMat(n, ts), n)
  {
    hide Square, SumMat, PauliMat, Scale, Add;
    SumMatStep(n, ts);
    if |ts| == 0 {
      ZeroSquare(n);
    } else {
      SumMatSquare(n, ts[1..]);
      PauliMatSquare(ts[0].p);
      ScaleSquare(n, ts[0].c, PauliMat(ts[0].p));
      AddSquare(n, Scale(ts[0].c, PauliMat(ts[0].p)), SumMat(n, ts[1..]));
    }
  }

  lemma {:induction false} SumMatConcat(n: nat, a: seq<Term>, b: seq<Term>)
    requires OnQubits(n, a) && OnQubits(n, b)
    ensures SumMat(n, a + b) == Add(SumMat(n, a), SumMat(n, b))
  {
    hide SumMat, PauliMat, Scale, Add, Square;
    SumMatStep(n, a); SumMatStep(n, a + b);
    if |a| == 0 {
      assert a + b == b;
      SumMatSquare(n, b);
      AddZero(n, SumMat(n, b));
    } else {
      assert (a + b)[1..] == a[1..] + b;
      SumMatConcat(n, a[1..], b);
      AddAssoc(Scale(a[0].c, PauliMat(a[0].p)), SumMat(n, a[1..]), SumMat(n, b));
    }
  }

  // ---- Merging equal keys ----

  /** Add one term to a sum: equal keys sum, a new key is appended. */
  function AddTerm(ts: seq<Term>, t: Term): seq<Term> {
    if |ts| == 0 then [t]
    else if ts[0].p == t.p then [Term(t.p, ts[0].c.Plus(t.c))] + ts[1..]
    else [ts[0]] + AddTerm(ts[1..], t)
  }

  /** Merge a stream of rows into one row per key. */
  function Merge(rows: seq<Term>): seq<Term> {
    if |rows| == 0 then [] else AddTerm(Merge(rows[..|rows| - 1]), rows[|rows| - 1])
  }

  lemma {:induction false} AddTermKeys(n: nat, ts: seq<Term>, t: Term)
    requires OnQubits(n, ts) && t.p.On(n) && Distinct(ts)
    ensures OnQubits(n, AddTerm(ts, t)) && Distinct(AddTerm(ts, t))
    ensures forall p :: HasKey(AddTerm(ts, t), p) ==> HasKey(ts, p) || p == t.p
  {
    if |ts| == 0 {
    } else if ts[0].p == t.p {
      var r := AddTerm(ts, t);
      forall i, j | 0 <= i < j < |r| ensures r[i].p != r[j].p {
        assert r[i].p == ts[i].p && r[j].p == ts[j].p;
      }
      forall p | HasKey(r, p) ensures HasKey(ts, p) {
        var i :| 0 <= i < |r| && r[i].p == p;
        assert ts[i].p == p;
      }
    } else {
      var rest := AddTerm(ts[1..], t);
      var r := AddTerm(ts, t);
      AddTermKeys(n, ts[1..], t);
      forall j | 0 <= j < |rest| ensures rest[j].p != ts[0].p {
        assert HasKey(rest, rest[j].p);
        if HasKey(ts[1..], rest[j].p) {
          var i :| 0 <= i < |ts[1..]| && ts[1..][i].p == rest[j].p;
          assert ts[i + 1].p == rest[j].p;
        }
      }
      forall i, j | 0 <= i < j < |r| ensures r[i].p != r[j].p {
        if i > 0 {
          assert rest[i - 1].p != rest[j - 1].p;
        }
      }
      forall p | HasKey(r, p) ensures HasKey(ts, p) || p == t.p {
        var i :| 0 <= i < |r| && r[i].p == p;
        if i == 0 {
          assert ts[0].p == p;
        } else {
          assert rest[i - 1].p == p;
          assert HasKey(rest, p);
          if HasKey(ts[1..], p) {
            var j :| 0 <= j < |ts[1..]| && ts[1..][j].p == p;
            assert ts[j + 1].p == p;
          }
        }
      }
    }
  }

  lemma {:induction false} AddTermMat(n: nat, ts: seq<Term>, t: Term)
    requires OnQubits(n, ts) && t.p.On(n)
    ensures OnQubits(n, AddTerm(ts, t))
    ensures SumMat(n, AddTerm(ts, t)) == Add(SumMat(n, ts), Scale(t.c, PauliMat(t.p)))
  {
    hide SumMat, PauliMat, Scale, Add, Square, Complex.Plus;
    var m := Scale(t.c, PauliMat(t.p));
    var r := AddTerm(ts, t);
    SumMatStep(n, ts);
    if |ts| == 0 {
      assert r == [t];
      SumMatStep(n, r); SumMatStep(n, r[1..]);
      PauliMatSquare(t.p); ScaleSquare(n, t.c, PauliMat(t.p));
      AddZero(n, m);
    } else if ts[0].p == t.p {
      assert r[1..] == ts[1..];
      SumMatStep(n, r);
      ScalePlus(ts[0].c, t.c, PauliMat(t.p));
      AddAssoc(Scale(ts[0].c, PauliMat(t.p)), m, SumMat(n, ts[1..]));
      AddComm(m, SumMat(n, ts[1..]));
      AddAssoc(Scale(ts[0].c, PauliMat(t.p)), SumMat(n, ts[1..]), m);
    } else {
      AddTermMat(n, ts[1..], t);
      assert r[0] == ts[0] && r[1..] == AddTerm(ts[1..], t);
      SumMatStep(n, r);
      AddAssoc(Scale(ts[0].c, PauliMat(ts[0].p)), SumMat(n, ts[1..]), m);
    }
  }

  /** Merging changes neither the operator nor the set of keys, and leaves every key once. */
  lemma {:induction false} MergeMat(n: nat, rows: seq<Term>)
    requires OnQubits(n, rows)
    ensures OnQubits(n, Merge(rows)) && Distinct(Merge(rows))
    ensures SumMat(n, Merge(rows)) == SumMat(n, rows)
    ensures forall p :: HasKey(Merge(rows), p) ==> HasKey(rows, p)
  {
    hide SumMat, PauliMat, Scale, Add, Square, AddTerm;
    if |rows| == 0 {
    } else {
      var k := |rows| - 1;
      var last := rows[k];
      MergeMat(n, rows[..k]);
      AddTermMat(n, Merge(rows[..k]), last);
      AddTermKeys(n, Merge(rows[..k]), last);
      assert rows == rows[..k] + [last];
      SumMatConcat(n, rows[..k], [last]);
      SingleMat(n, last);
      forall p | HasKey(Merge(rows), p) ensures HasKey(rows, p) {
        if HasKey(rows[..k], p) {
          var i :| 0 <= i < k && rows[..k][i].p == p;
          assert rows[i].p == p;
        } else {
          assert rows[k].p == p;
        }
      }
    }
  }

  lemma SingleMat(n: nat, t: Term)
    requires t.p.On(n)
    ensures SumMat(n, [t]) == Scale(t.c, PauliMat(t.p))
  {
    hide SumMat, PauliMat, Scale, Add, Square;
    SumMatStep(n, [t]); SumMatStep(n, [t][1..]);
    PauliMatSquare(t.p); ScaleSquare(n, t.c, PauliMat(t.p));
    AddZero(n, Scale(t.c, PauliMat(t.p)));
  }

  // ---- The trace inner product ----

  /** `Tr(P B) == 2^n b_P`. */
  lemma {:induction false} TraceCoef(n: nat, p: Pauli, ts: seq<Term>)
    requires p.On(n) && OnQubits(n, ts)
    ensures Trace(Mul(PauliMat(p), SumMat(n, ts))) == Real(Pow2(n) as real).Times(Coef(p, ts))
  {
    hide Trace, Mul, PauliMat, SumMat, Scale, Add, Square, Real, Zero, Complex.Times, Complex.Plus;
    var w := Real(Pow2(n) as real);
    SumMatStep(n, ts);
    PauliMatSquare(p);
    if |ts| == 0 {
      MulZero(n, PauliMat(p)); TraceZero(n);
      TimesUnits(w);
    } else {
      var t := ts[0];
      var m := PauliMat(t.p);
      TraceCoef(n, p, ts[1..]);
      PauliMatSquare(t.p); ScaleSquare(n, t.c, m); SumMatSquare(n, ts[1..]);
      MulAddRight(PauliMat(p), Scale(t.c, m), SumMat(n, ts[1..]));
      MulSquare(n, PauliMat(p), Scale(t.c, m)); MulSquare(n, PauliMat(p), SumMat(n, ts[1..]));
      TraceAdd(n, Mul(PauliMat(p), Scale(t.c, m)), Mul(PauliMat(p), SumMat(n, ts[1..])));
      MulScaleRight(t.c, PauliMat(p), m);
      MulSquare(n, PauliMat(p), m);
      TraceScale(n, t.c, Mul(PauliMat(p), m));
      PauliOrthogonal(p, t.p);
      TimesUnits(t.c); TimesUnits(w); TimesComm(t.c, w);
      TimesPlus(w, if t.p == p then t.c else ZERO, Coef(p, ts[1..]));
    }
  }

  /** `Tr(A^dagger B) == 2^n sum conj(a_P) b_P`, for any two sums. */
  lemma {:induction false} TraceOverlap(n: nat, a: seq<Term>, b: seq<Term>)
    requires OnQubits(n, a) && OnQubits(n, b)
    ensures Trace(Mul(Dagger(SumMat(n, a)), SumMat(n, b))) == Real(Pow2(n) as real).Times(Overlap(a, b))
  {
    hide Trace, Mul, PauliMat, SumMat, Scale, Add, Square, Real, Zero, Coef, Dagger, Complex.Times, Complex.Plus, Complex.Conj;
    var w := Real(Pow2(n) as real);
    var m := SumMat(n, b);
    SumMatStep(n, a); SumMatSquare(n, b);
    if |a| == 0 {
      DaggerZero(n); MulZero(n, m); TraceZero(n);
      TimesUnits(w);
    } else {
      var t := a[0];
      var q, r := PauliMat(t.p), SumMat(n, a[1..]);
      TraceOverlap(n, a[1..], b);
      DaggerAdd(Scale(t.c, q), r); DaggerScale(t.c, q); PauliDagger(t.p);
      PauliMatSquare(t.p); ScaleSquare(n, t.c.Conj(), q); SumMatSquare(n, a[1..]); DaggerSquare(n, r);
      MulAddLeft(Scale(t.c.Conj(), q), Dagger(r), m);
      MulSquare(n, Scale(t.c.Conj(), q), m); MulSquare(n, Dagger(r), m); MulSquare(n, q, m);
      TraceAdd(n, Mul(Scale(t.c.Conj(), q), m), Mul(Dagger(r), m));
      MulScaleLeft(t.c.Conj(), q, m);
      TraceScale(n, t.c.Conj(), Mul(q, m));
      TraceCoef(n, t.p, b);
      ScalarShuffle(t.c.Conj(), w, Coef(t.p, b));
      TimesPlus(w, t.c.Conj().Times(Coef(t.p, b)), Overlap(a[1..], b));
    }
  }

  lemma ScalarShuffle(c: Complex, w: Complex, v: Complex)
    ensures c.Times(w.Times(v)) == w.Times(c.Times(v))
  {
    hide *;
    TimesAssoc(c, w, v); TimesComm(c, w); TimesAssoc(w, c, v);
  }

  lemma {:induction false} CoefAbsent(p: Pauli, ts: seq<Term>)
    requires !HasKey(ts, p)
    ensures Coef(p, ts) == ZERO
  {
    hide Complex.Plus;
    if |ts| > 0 {
      assert ts[0].p != p;
      forall i | 0 <= i < |ts| - 1 ensures ts[1..][i].p != p {
        assert ts[i + 1].p != p;
      }
      CoefAbsent(p, ts[1..]);
      PlusZero(ZERO);
    }
  }

  lemma {:induction false} CoefPresent(i: nat, ts: seq<Term>)
    requires Distinct(ts) && i < |ts|
    ensures Coef(ts[i].p, ts) == ts[i].c
  {
    hide Complex.Plus;
    if i == 0 {
      forall j | 0 <= j < |ts| - 1 ensures ts[1..][j].p != ts[0].p {
        assert ts[1..][j] == ts[j + 1];
      }
      CoefAbsent(ts[0].p, ts[1..]);
    } else {
      CoefPresent(i - 1, ts[1..]);
    }
    PlusZero(ts[i].c);
  }

  /** The overlap of a sum with itself is `hs_norm`. */
  lemma OverlapSelf(ts: seq<Term>)
    requires Distinct(ts)
    ensures Overlap(ts, ts) == Real(Norm2(ts))
  {
    OverlapSuffix(ts, ts, 0);
  }

  lemma {:induction false} OverlapSuffix(a: seq<Term>, ts: seq<Term>, k: nat)
    requires Distinct(ts) && k <= |ts| && a == ts[k..]
    ensures Overlap(a, ts) == Real(Norm2(a))
    decreases |a|
  {
    hide Coef, Complex.Times, Complex.Plus, Complex.Abs2, Real;
    if |a| == 0 {
      RealZero();
    } else {
      OverlapSuffix(a[1..], ts, k + 1);
      CoefPresent(k, ts);
      ConjSelf(a[0].c);
      RealPlus(a[0].c.Abs2(), Norm2(a[1..]));
    }
  }

  lemma RealZero()
    ensures Real(0.0) == ZERO
  {
  }

  lemma RealPlus(a: real, b: real)
    ensures Real(a).Plus(Real(b)) == Real(a + b)
  {
  }
}
