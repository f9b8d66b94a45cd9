/**
 `dense_pauli_expectation`: the expectation of a Pauli label in a state vector by one xor-gather with
 phases, proved equal to contracting with the Kronecker product of the single-qubit matrices.
 */
module Expectation {
  import opened Complexes
  import opened Dense
  import opened Paulis

  // ---- Index bits ----

  function XorNat(a: nat, b: nat): nat
    decreases a + b
  {
    if a == 0 && b == 0 then 0 else 2 * XorNat(a / 2, b / 2) + (if a % 2 != b % 2 then 1 else 0)
  }

  function OrNat(a: nat, b: nat): nat
    decreases a + b
  {
    if a == 0 && b == 0 then 0 else 2 * OrNat(a / 2, b / 2) + (if a % 2 == 1 || b % 2 == 1 then 1 else 0)
  }

  /** `i & (1 << k) != 0`. */
  predicate TestBit(i: nat, k: nat) {
    if k == 0 then i % 2 == 1 else TestBit(i / 2, k - 1)
  }

  /** `m << k`. */
  function Shl(m: nat, k: nat): nat {
    if k == 0 then m else 2 * Shl(m, k - 1)
  }

  function High(s: bool, k: nat): nat {
    if s then Pow2(k) else 0
  }

  /** Xor splits at any bit: the top bits and the rest do not interact. */
  lemma {:induction false} XorSplit(k: nat, r: bool, j: nat, x: bool, f: nat)
    requires j < Pow2(k) && f < Pow2(k)
    ensures XorNat(High(r, k) + j, High(x, k) + f) == High(r != x, k) + XorNat(j, f)
    ensures XorNat(j, f) < Pow2(k)
  {
    hide XorNat;
    if k > 0 {
      XorSplit(k - 1, r, j / 2, x, f / 2);
      Halved(k, r, j); Halved(k, x, f);
      XorStep(High(r, k) + j, High(x, k) + f); XorStep(j, f);
    } else {
      XorStep(High(r, 0), High(x, 0)); XorStep(0, 0);
    }
  }

  lemma XorStep(a: nat, b: nat)
    ensures XorNat(a, b) == 2 * XorNat(a / 2, b / 2) + (if a % 2 != b % 2 then 1 else 0)
  {
  }

  lemma Halved(k: nat, r: bool, j: nat)
    requires k > 0
    ensures (High(r, k) + j) / 2 == High(r, k - 1) + j / 2 && (High(r, k) + j) % 2 == j % 2
  {
  }

  lemma {:induction false} TestSplit(k: nat, s: bool, j: nat, i: nat)
    requires j < Pow2(k) && i <= k
    ensures TestBit(High(s, k) + j, i) == if i == k then s else TestBit(j, i)
  {
    if k > 0 {
      Halved(k, s, j);
      if i > 0 {
        TestSplit(k - 1, s, j / 2, i - 1);
      }
    }
  }

  lemma {:induction false} OrNone(m: nat)
    ensures OrNat(m, 0) == m
  {
    if m > 0 {
      OrNone(m / 2);
    }
  }

  /** Setting a bit below every set bit adds it. */
  lemma {:induction false} OrNewBit(m: nat, k: nat)
    ensures OrNat(Shl(m, k + 1), Pow2(k)) == Shl(m, k + 1) + Pow2(k)
    ensures Shl(m, k + 1) == Shl(2 * m, k) && Shl(2 * m + 1, k) == Shl(2 * m, k) + Pow2(k)
  {
    if k == 0 {
      OrNone(m);
      OrStep(2 * m, 1);
    } else {
      OrNewBit(m, k - 1);
      OrStep(Shl(m, k + 1), Pow2(k));
      assert Shl(m, k + 1) / 2 == Shl(m, k) && Pow2(k) / 2 == Pow2(k - 1);
    }
  }

  lemma OrStep(a: nat, b: nat)
    ensures OrNat(a, b) == 2 * OrNat(a / 2, b / 2) + (if a % 2 == 1 || b % 2 == 1 then 1 else 0)
  {
  }

  // ---- Vectors ----

  type Vec = seq<Complex>

  function AddVec(a: Vec, b: Vec): (r: Vec)
    ensures |a| == |b| ==> |r| == |a| && forall i :: 0 <= i < |a| ==> r[i] == a[i].Plus(b[i])
  {
    if |a| != |b| then [] else seq(|a|, i requires 0 <= i < |a| => a[i].Plus(b[i]))
  }

  /** The matrix-vector product. */
  function Apply(m: Mat, w: Vec): Vec {
    match m
    case Scalar(v) => if |w| == 1 then [v.Times(w[0])] else []
    case Block(p, q, r, s) =>
      var h := |w| / 2;
      AddVec(Apply(p, w[..h]), Apply(q, w[h..])) + AddVec(Apply(r, w[..h]), Apply(s, w[h..]))
    case Mismatch => []
  }

  /** `np.vdot`. */
  function Inner(u: Vec, w: Vec): Complex
    requires |u| == |w|
  {
    if |u| == 0 then ZERO else u[0].Conj().Times(w[0]).Plus(Inner(u[1..], w[1..]))
  }

  lemma ApplyStep(m: Mat, w: Vec)
    ensures m.Scalar? && |w| == 1 ==> Apply(m, w) == [m.v.Times(w[0])]
    ensures m.Block? ==>
              var h := |w| / 2;
              Apply(m, w) == AddVec(Apply(m.nw, w[..h]), Apply(m.ne, w[h..])) + AddVec(Apply(m.sw, w[..h]), Apply(m.se, w[h..]))
  {
  }

  /** Entry `j` of a block product, by the half of `w` and of the result. */
  lemma {:induction false} ApplyLength(n: nat, m: Mat, w: Vec)
    requires Square(m, n) && |w| == Pow2(n)
    ensures |Apply(m, w)| == Pow2(n)
    decreases n
  {
    hide Apply, Square, AddVec, Complex.Plus, Complex.Times;
    SquareStep(m, n); ApplyStep(m, w);
    if n > 0 {
      var h := |w| / 2;
      assert Pow2(n) == 2 * Pow2(n - 1);
      ApplyLength(n - 1, m.nw, w[..h]); ApplyLength(n - 1, m.ne, w[h..]);
      ApplyLength(n - 1, m.sw, w[..h]); ApplyLength(n - 1, m.se, w[h..]);
    }
  }

  lemma BlockEntry(n: nat, m: Mat, w: Vec, r: bool, j: nat)
    requires n > 0 && Square(m, n) && |w| == Pow2(n) && j < Pow2(n - 1)
    ensures m.Block? && |Apply(m, w)| == Pow2(n)
    ensures
      var h := Pow2(n - 1);
      var left, right := Apply(if r then m.sw else m.nw, w[..h]), Apply(if r then m.se else m.ne, w[h..]);
      |left| == |right| == h && Apply(m, w)[High(r, n - 1) + j] == left[j].Plus(right[j])
  {
    hide Apply, Square, Complex.Plus, Complex.Times;
    SquareStep(m, n); ApplyStep(m, w);
    var h := |w| / 2;
    assert Pow2(n) == 2 * Pow2(n - 1);
    ApplyLength(n - 1, m.nw, w[..h]); ApplyLength(n - 1, m.ne, w[h..]);
    ApplyLength(n - 1, m.sw, w[..h]); ApplyLength(n - 1, m.se, w[h..]);
  }

  lemma {:induction false} ApplyZero(n: nat, w: Vec, j: nat)
    requires |w| == Pow2(n) && j < Pow2(n)
    ensures |Apply(Zero(n), w)| == Pow2(n) && Apply(Zero(n), w)[j] == ZERO
    decreases n
  {
    hide Apply, Zero, Square, Complex.Plus, Complex.Times;
    ZeroStep(n); ZeroSquare(n); ApplyLength(n, Zero(n), w);
    if n == 0 {
      ApplyStep(Zero(0), w);
      TimesUnits(w[0]);
    } else {
      var h := Pow2(n - 1);
      var r := j >= h;
      var k := if r then j - h else j;
      BlockEntry(n, Zero(n), w, r, k);
      ApplyZero(n - 1, w[..h], k); ApplyZero(n - 1, w[h..], k);
      PlusZero(ZERO);
    }
  }

  lemma {:induction false} ApplyTurn(n: nat, t: int, m: Mat, w: Vec, j: nat)
    requires Square(m, n) && |w| == Pow2(n) && j < Pow2(n)
    ensures |Apply(m, w)| == |Apply(TurnMat(t, m), w)| == Pow2(n)
    ensures Apply(TurnMat(t, m), w)[j] == Turn(t, Apply(m, w)[j])
    decreases n
  {
    hide Apply, Square, TurnMat, Turn, Complex.Plus, Complex.Times;
    SquareStep(m, n); TurnMatStep(t, m); TurnMatSquare(n, t, m);
    ApplyLength(n, m, w); ApplyLength(n, TurnMat(t, m), w);
    if n == 0 {
      ApplyStep(m, w); ApplyStep(TurnMat(t, m), w);
      TurnLeft(t, m.v, w[0]);
    } else {
      var h := Pow2(n - 1);
      var r := j >= h;
      var k := if r then j - h else j;
      BlockEntry(n, m, w, r, k); BlockEntry(n, TurnMat(t, m), w, r, k);
      var a, b := if r then m.sw else m.nw, if r then m.se else m.ne;
      ApplyTurn(n - 1, t, a, w[..h], k); ApplyTurn(n - 1, t, b, w[h..], k);
      TurnPlus(t, Apply(a, w[..h])[k], Apply(b, w[h..])[k]);
    }
  }

  // ---- The gather ----

  /** The bits a string flips, qubit 0 most significant. */
  function FlipOf(p: Pauli): (f: nat)
    requires p.On(|p.x|)
    ensures f < Pow2(|p.x|)
    decreases |p.x|
  {
    if |p.x| == 0 then 0 else High(p.x[0], |p.x| - 1) + FlipOf(Tail(p))
  }

  /** Exponent of the phase of `P|i>`: one `i` per `Y`, one sign per occupied `Z` or `Y`. */
  function PhaseAt(p: Pauli, i: nat): int
    requires p.On(|p.x|)
    decreases |p.x|
  {
    if |p.x| == 0 then 0
    else Bit(p.x[0] && p.z[0]) + 2 * Bit(p.z[0] && TestBit(i, |p.x| - 1)) + PhaseAt(Tail(p), i)
  }

  lemma {:induction false} PhaseLow(p: Pauli, k: nat, s: bool, j: nat)
    requires p.On(|p.x|) && |p.x| <= k && j < Pow2(k)
    ensures PhaseAt(p, High(s, k) + j) == PhaseAt(p, j)
    decreases |p.x|
  {
    if |p.x| > 0 {
      TestSplit(k, s, j, |p.x| - 1);
      PhaseLow(Tail(p), k, s, j);
    }
  }

  /** One block row of a Pauli matrix reads one half of the vector. */
  lemma KronEntry(x: bool, z: bool, n: nat, m: Mat, w: Vec, r: bool, j: nat)
    requires Square(m, n) && |w| == Pow2(n + 1) && j < Pow2(n)
    ensures
      var h, s := Pow2(n), r != x;
      var half := if s then w[h..] else w[..h];
      && |Apply(PauliKron(x, z, n, m), w)| == Pow2(n + 1) && |Apply(m, half)| == h
      && Apply(PauliKron(x, z, n, m), w)[High(r, n) + j]
         == Turn(Bit(x && z) + 2 * Bit(z && s), Apply(m, half)[j])
  {
    hide Apply, Square, TurnMat, Turn, Zero, Complex.Plus, PauliKron;
    var h, s := Pow2(n), r != x;
    var half := if s then w[h..] else w[..h];
    var t := Bit(x && z) + 2 * Bit(z && s);
    PauliKronSquare(x, z, n, m);
    PauliKronEntries(x, z, n, m);
    BlockEntry(n + 1, PauliKron(x, z, n, m), w, r, j);
    ApplyTurn(n, t, m, half, j);
    ApplyZero(n, if s then w[..h] else w[h..], j);
    PlusZero(Apply(TurnMat(t, m), half)[j]);
  }

  /** Entry `j` of `P w` is one amplitude of `w`, at `j ^ flip`, with the phase of that source index. */
  lemma {:induction false} GatherEntry(p: Pauli, w: Vec, j: nat)
    requires p.On(|p.x|) && |w| == Pow2(|p.x|) && j < Pow2(|p.x|)
    ensures
      var src := XorNat(j, FlipOf(p));
      src < |w| == |Apply(PauliMat(p), w)| && Apply(PauliMat(p), w)[j] == Turn(PhaseAt(p, src), w[src])
    decreases |p.x|
  {
    hide Apply, PauliMat, PauliKron, Turn, XorNat, TestBit, Square, Complex.Times, FlipOf, PhaseAt, Bit;
    PauliMatStep(p);
    GatherStep(p, j);
    if |p.x| == 0 {
      ApplyStep(Scalar(ONE), w);
      TimesUnits(w[0]); TurnNone(w[0]);
    } else {
      var n := |p.x| - 1;
      var h := Pow2(n);
      var r := j >= h;
      var k := if r then j - h else j;
      var s := r != p.x[0];
      var half := if s then w[h..] else w[..h];
      PauliMatSquare(Tail(p));
      KronEntry(p.x[0], p.z[0], n, PauliMat(Tail(p)), w, r, k);
      GatherEntry(Tail(p), half, k);
      var src' := XorNat(k, FlipOf(Tail(p)));
      TurnTurn(Bit(p.x[0] && p.z[0]) + 2 * Bit(p.z[0] && s), PhaseAt(Tail(p), src'), half[src']);
    }
  }

  /** The source index and its phase, one qubit at a time. */
  lemma GatherStep(p: Pauli, j: nat)
    requires p.On(|p.x|) && j < Pow2(|p.x|)
    ensures |p.x| == 0 ==> XorNat(j, FlipOf(p)) == 0 && PhaseAt(p, 0) == 0
    ensures |p.x| > 0 ==>
              var n := |p.x| - 1;
              var r := j >= Pow2(n);
              var k := if r then j - Pow2(n) else j;
              var s, src := r != p.x[0], XorNat(k, FlipOf(Tail(p)));
              && XorNat(j, FlipOf(p)) == High(s, n) + src
              && PhaseAt(p, High(s, n) + src) == Bit(p.x[0] && p.z[0]) + 2 * Bit(p.z[0] && s) + PhaseAt(Tail(p), src)
  {
    hide XorNat, TestBit, Bit;
    if |p.x| == 0 {
      XorStep(0, 0);
    } else {
      var n := |p.x| - 1;
      var r := j >= Pow2(n);
      var k := if r then j - Pow2(n) else j;
      var s, src := r != p.x[0], XorNat(k, FlipOf(Tail(p)));
      XorSplit(n, r, k, p.x[0], FlipOf(Tail(p)));
      TestSplit(n, s, src, n);
      PhaseLow(Tail(p), n, s, src);
    }
  }

  // ---- Labels ----

  datatype LabelError = WrongSize | BadCharacter

  datatype Outcome<T> = Ok(value: T) | Err(error: LabelError)

  predicate PauliChar(ch: char) {
    ch == 'I' || ch == 'X' || ch == 'Y' || ch == 'Z'
  }

  predicate Label(text: string) {
    forall i :: 0 <= i < |text| ==> PauliChar(text[i])
  }

  lemma LabelCharacters(text: string)
    ensures Label(text) <==> forall i :: 0 <= i < |text| ==> text[i] in {'I', 'X', 'Y', 'Z'}
  {
  }

  function FlipsAt(ch: char): bool {
    ch == 'X' || ch == 'Y'
  }

  function SignsAt(ch: char): bool {
    ch == 'Z' || ch == 'Y'
  }

  /** The string a label spells, character `q` on qubit `q`. */
  function LabelKey(text: string): (p: Pauli)
    ensures p.On(|text|)
    ensures forall q :: 0 <= q < |text| ==> p.x[q] == FlipsAt(text[q]) && p.z[q] == SignsAt(text[q])
  {
    Pauli(seq(|text|, q requires 0 <= q < |text| => FlipsAt(text[q])),
          seq(|text|, q requires 0 <= q < |text| => SignsAt(text[q])))
  }

  /** The one-qubit matrices, written out. */
  function CharMat(ch: char): (m: Mat)
    ensures m.Block? && m.nw.Scalar? && m.ne.Scalar? && m.sw.Scalar? && m.se.Scalar?
  {
    if ch == 'X' then Block(Scalar(ZERO), Scalar(ONE), Scalar(ONE), Scalar(ZERO))
    else if ch == 'Y' then Block(Scalar(ZERO), Scalar(Complex(0.0, -1.0)), Scalar(Complex(0.0, 1.0)), Scalar(ZERO))
    else if ch == 'Z' then Block(Scalar(ONE), Scalar(ZERO), Scalar(ZERO), Scalar(Complex(-1.0, 0.0)))
    else Block(Scalar(ONE), Scalar(ZERO), Scalar(ZERO), Scalar(ONE))
  }

  /** `np.kron` of a one-qubit matrix and any other. */
  function Kron(a: Mat, m: Mat): Mat
    requires a.Block? && a.nw.Scalar? && a.ne.Scalar? && a.sw.Scalar? && a.se.Scalar?
  {
    Block(Scale(a.nw.v, m), Scale(a.ne.v, m), Scale(a.sw.v, m), Scale(a.se.v, m))
  }

  /** The Kronecker product of a label's characters, the first most significant. */
  function KronOf(text: string): Mat {
    if |text| == 0 then Scalar(ONE) else Kron(CharMat(text[0]), KronOf(text[1..]))
  }

  /** The key of a label denotes that product. */
  lemma {:induction false} LabelIsKron(text: string)
    requires Label(text)
    ensures PauliMat(LabelKey(text)) == KronOf(text)
  {
    hide PauliMat, Kron, CharMat, LabelKey, PauliChar;
    PauliMatStep(LabelKey(text));
    if |text| > 0 {
      KeyTail(text);
      LabelIsKron(text[1..]);
      PauliMatSquare(LabelKey(text[1..]));
      CharIsKron(text[0], |text| - 1, KronOf(text[1..]));
    }
  }

  lemma CharIsKron(ch: char, n: nat, m: Mat)
    requires PauliChar(ch) && Square(m, n)
    ensures PauliKron(FlipsAt(ch), SignsAt(ch), n, m) == Kron(CharMat(ch), m)
  {
    hide Scale, TurnMat, Square, Zero;
    ScaleUnits(n, m);
    TurnMatIsScale(1, m); TurnMatIsScale(2, m); TurnMatIsScale(3, m);
    Units();
  }

  lemma Units()
    ensures IPow(1) == Complex(0.0, 1.0) && IPow(2) == Complex(-1.0, 0.0) && IPow(3) == Complex(0.0, -1.0)
  {
  }

  // ---- Adjoints ----

  lemma {:induction false} InnerConcat(u: Vec, v: Vec, w: Vec, x: Vec)
    requires |u| == |w| && |v| == |x|
    ensures Inner(u + v, w + x) == Inner(u, w).Plus(Inner(v, x))
  {
    hide Complex.Plus, Complex.Times, Complex.Conj;
    if |u| == 0 {
      assert u + v == v && w + x == x;
      PlusZero(Inner(v, x));
    } else {
      assert (u + v)[1..] == u[1..] + v && (w + x)[1..] == w[1..] + x;
      InnerConcat(u[1..], v, w[1..], x);
      PlusAssoc(u[0].Conj().Times(w[0]), Inner(u[1..], w[1..]), Inner(v, x));
    }
  }

  lemma {:induction false} InnerAdd(u: Vec, a: Vec, b: Vec)
    requires |u| == |a| == |b|
    ensures Inner(u, AddVec(a, b)) == Inner(u, a).Plus(Inner(u, b))
    ensures Inner(AddVec(a, b), u) == Inner(a, u).Plus(Inner(b, u))
  {
    hide Complex.Plus, Complex.Times, Complex.Conj;
    if |u| == 0 {
      PlusZero(ZERO);
    } else {
      assert AddVec(a, b)[1..] == AddVec(a[1..], b[1..]);
      InnerAdd(u[1..], a[1..], b[1..]);
      TimesPlus(u[0].Conj(), a[0], b[0]);
      ConjPlus(a[0], b[0]);
      TimesPlus(u[0], a[0].Conj(), b[0].Conj());
      PlusSwap(u[0].Conj().Times(a[0]), u[0].Conj().Times(b[0]), Inner(u[1..], a[1..]), Inner(u[1..], b[1..]));
      PlusSwap(a[0].Conj().Times(u[0]), b[0].Conj().Times(u[0]), Inner(a[1..], u[1..]), Inner(b[1..], u[1..]));
    }
  }

  lemma {:induction false} InnerConj(u: Vec, w: Vec)
    requires |u| == |w|
    ensures Inner(w, u) == Inner(u, w).Conj()
  {
    hide Complex.Plus, Complex.Times, Complex.Conj;
    if |u| == 0 {
      ConjUnits();
    } else {
      InnerConj(u[1..], w[1..]);
      ConjPlus(u[0].Conj().Times(w[0]), Inner(u[1..], w[1..]));
      ConjTimes(u[0].Conj(), w[0]); ConjConj(u[0]);
      TimesComm(u[0], w[0].Conj());
    }
  }

  /** The adjoint moves to the other side of the inner product. */
  lemma {:induction false} InnerDagger(n: nat, m: Mat, u: Vec, w: Vec)
    requires Square(m, n) && |u| == |w| == Pow2(n)
    ensures |Apply(m, w)| == |Apply(Dagger(m), u)| == Pow2(n)
    ensures Inner(u, Apply(m, w)) == Inner(Apply(Dagger(m), u), w)
    decreases n
  {
    hide *;
    DaggerSquare(n, m);
    ApplyLength(n, m, w); ApplyLength(n, Dagger(m), u);
    SquareStep(m, n); DaggerStep(m);
    ApplyStep(m, w); ApplyStep(Dagger(m), u);
    PowHalves(n);
    if n == 0 {
      InnerScalar(m.v, u, w);
    } else {
      var h := Pow2(n - 1);
      var a, b, c, d := u[..h], u[h..], w[..h], w[h..];
      assert u == a + b && w == c + d;
      InnerDagger(n - 1, m.nw, a, c); InnerDagger(n - 1, m.ne, a, d);
      InnerDagger(n - 1, m.sw, b, c); InnerDagger(n - 1, m.se, b, d);
      var p, q, r, t := Apply(m.nw, c), Apply(m.ne, d), Apply(m.sw, c), Apply(m.se, d);
      var x := Summed(a, p, q);
      var y := Summed(b, r, t);
      var x' := Summed(c, Apply(Dagger(m.nw), a), Apply(Dagger(m.sw), b));
      var y' := Summed(d, Apply(Dagger(m.ne), a), Apply(Dagger(m.se), b));
      InnerHalves(a, b, c, d, x, y, x', y', Inner(a, p), Inner(a, q), Inner(b, r), Inner(b, t));
    }
  }

  lemma PowHalves(n: nat)
    ensures n == 0 ==> Pow2(n) == 1
    ensures n > 0 ==> Pow2(n) == 2 * Pow2(n - 1)
  {
  }

  lemma InnerScalar(v: Complex, u: Vec, w: Vec)
    requires |u| == |w| == 1
    ensures Inner(u, [v.Times(w[0])]) == Inner([v.Conj().Times(u[0])], w)
  {
    hide Complex.Times, Complex.Conj, Complex.Plus;
    var a, b := u[0], w[0];
    ConjTimes(v.Conj(), a); ConjConj(v);
    TimesComm(v, a.Conj()); TimesAssoc(a.Conj(), v, b);
    assert u[1..] == [] && w[1..] == [] && [v.Times(b)][1..] == [] && [v.Conj().Times(a)][1..] == [];
  }

  lemma Summed(u: Vec, a: Vec, b: Vec) returns (s: Vec)
    requires |u| == |a| == |b|
    ensures s == AddVec(a, b) && |s| == |u| && Inner(u, s) == Inner(u, a).Plus(Inner(u, b)) && Inner(s, u) == Inner(a, u).Plus(Inner(b, u))
  {
    s := AddVec(a, b);
    InnerAdd(u, a, b);
  }

  lemma InnerHalves(a: Vec, b: Vec, c: Vec, d: Vec, x: Vec, y: Vec, x': Vec, y': Vec, i: Complex, j: Complex, k: Complex, l: Complex)
    requires |a| == |b| == |c| == |d| == |x| == |y| == |x'| == |y'|
    requires Inner(a, x) == i.Plus(j) && Inner(b, y) == k.Plus(l) && Inner(x', c) == i.Plus(k) && Inner(y', d) == j.Plus(l)
    ensures Inner(a + b, x + y) == Inner(x' + y', c + d)
  {
    hide Inner, Complex.Plus;
    InnerConcat(a, b, x, y); InnerConcat(x', y', c, d);
    PlusSwap(i, j, k, l);
  }

  /** The expectation of a Pauli string is real. */
  lemma ExpectationIsReal(p: Pauli, w: Vec)
    requires p.On(|p.x|) && |w| == Pow2(|p.x|)
    ensures |Apply(PauliMat(p), w)| == |w| && Inner(w, Apply(PauliMat(p), w)).im == 0.0
  {
    hide *;
    PauliMatSquare(p);
    PauliDagger(p);
    InnerDagger(|p.x|, PauliMat(p), w, w);
    InnerConj(w, Apply(PauliMat(p), w));
    OwnConjugate(Inner(w, Apply(PauliMat(p), w)));
  }

  lemma OwnConjugate(c: Complex)
    requires c == c.Conj()
    ensures c.im == 0.0
  {
  }

  lemma KeyTail(text: string)
    requires |text| > 0
    ensures Tail(LabelKey(text)) == LabelKey(text[1..])
  {
    var p, q := Tail(LabelKey(text)), LabelKey(text[1..]);
    assert p.x == q.x && p.z == q.z;
  }

  /** The flip mask, one `|=` per flipping character. */
  method FlipMask(text: string) returns (flip: nat)
    ensures flip == FlipOf(LabelKey(text))
  {
    hide OrNat, Shl, LabelKey;
    var n := |text|;
    flip := 0;
    ghost var m: nat := 0;
    ShlZero(n);
    assert text[0..] == text;
    for q := 0 to n
      invariant flip == Shl(m, n - q)
      invariant flip + FlipOf(LabelKey(text[q..])) == FlipOf(LabelKey(text))
    {
      KeyTail(text[q..]);
      assert text[q..][1..] == text[q + 1..];
      OrNewBit(m, n - 1 - q);
      m := 2 * m;
      if FlipsAt(text[q]) {
        flip := OrNat(flip, Pow2(n - 1 - q));
        m := m + 1;
      }
    }
  }

  lemma {:induction false} ShlZero(k: nat)
    ensures Shl(0, k) == 0
  {
    if k > 0 {
      ShlZero(k - 1);
    }
  }

  /** One in-place pass over all indices: `phase * (+-1)`, then `* i` for a `Y`. */
  method PhasePass(out: array<Complex>, source: seq<nat>, bit: nat, isY: bool, ghost e: seq<int>)
    requires out.Length == |source| == |e| && forall j :: 0 <= j < |source| ==> out[j] == IPow(e[j])
    modifies out
    ensures forall j :: 0 <= j < |source| ==> out[j] == IPow(e[j] + 2 * Bit(TestBit(source[j], bit)) + Bit(isY))
  {
    hide TestBit, IPow, Bit;
    for j := 0 to |source|
      invariant forall i :: 0 <= i < j ==> out[i] == IPow(e[i] + 2 * Bit(TestBit(source[i], bit)) + Bit(isY))
      invariant forall i :: j <= i < |source| ==> out[i] == IPow(e[i])
    {
      var c := Stepped(out[j], TestBit(source[j], bit), isY, e[j]);
      out[j] := c;
    }
  }

  method Stepped(c: Complex, occupied: bool, isY: bool, ghost e: int) returns (r: Complex)
    requires c == IPow(e)
    ensures r == IPow(e + 2 * Bit(occupied) + Bit(isY))
  {
    hide Complex.Times, IPow;
    SignStep(c, occupied, e);
    ImagStep(e + 2 * Bit(occupied));
    r := c.Times(Complex(if occupied then -1.0 else 1.0, 0.0));
    if isY {
      r := r.Times(IMAG);
    }
  }

  /** What the characters before `q` contribute to the phase of index `i`. */
  ghost function PhaseBefore(text: string, q: nat, i: nat): int
    requires q <= |text|
  {
    PhaseAt(LabelKey(text), i) - PhaseAt(LabelKey(text[q..]), i)
  }

  lemma PhaseBeforeStep(text: string, q: nat, i: nat)
    requires q < |text|
    ensures PhaseBefore(text, 0, i) == 0
    ensures PhaseBefore(text, q + 1, i)
         == PhaseBefore(text, q, i) + if SignsAt(text[q]) then 2 * Bit(TestBit(i, |text| - 1 - q)) + Bit(FlipsAt(text[q])) else 0
  {
    hide TestBit;
    assert text[0..] == text;
    KeyTail(text[q..]);
    assert text[q..][1..] == text[q + 1..];
  }

  lemma PhaseBeforeEnds(text: string, i: nat)
    ensures PhaseBefore(text, 0, i) == 0 && PhaseBefore(text, |text|, i) == PhaseAt(LabelKey(text), i)
  {
    assert text[0..] == text;
  }

  /** The phases, one pass per signing character. */
  method Phases(text: string, source: seq<nat>) returns (phase: Vec)
    ensures |phase| == |source| && forall j :: 0 <= j < |source| ==> phase[j] == IPow(PhaseAt(LabelKey(text), source[j]))
  {
    hide TestBit, IPow, PhaseBefore, Bit, PhaseAt;
    var n := |text|;
    var out := new Complex[|source|](_ => ONE);
    IPowZero();
    forall j | 0 <= j < |source| ensures PhaseBefore(text, 0, source[j]) == 0 {
      PhaseBeforeEnds(text, source[j]);
    }
    for q := 0 to n
      invariant forall j :: 0 <= j < |source| ==> out[j] == IPow(PhaseBefore(text, q, source[j]))
    {
      forall j | 0 <= j < |source|
        ensures PhaseBefore(text, q + 1, source[j])
             == PhaseBefore(text, q, source[j]) + if SignsAt(text[q]) then 2 * Bit(TestBit(source[j], n - 1 - q)) + Bit(FlipsAt(text[q])) else 0
      {
        PhaseBeforeStep(text, q, source[j]);
      }
      if SignsAt(text[q]) {
        PhasePass(out, source, n - 1 - q, FlipsAt(text[q]), seq(|source|, j requires 0 <= j < |source| => PhaseBefore(text, q, source[j])));
      }
    }
    forall j | 0 <= j < |source| ensures PhaseBefore(text, n, source[j]) == PhaseAt(LabelKey(text), source[j]) {
      PhaseBeforeEnds(text, source[j]);
    }
    return out[..];
  }

  lemma SignStep(c: Complex, occupied: bool, e: int)
    requires c == IPow(e)
    ensures c.Times(Complex(if occupied then -1.0 else 1.0, 0.0)) == IPow(e + 2 * Bit(occupied))
  {
    hide Complex.Times, Turn;
    TimesUnits(c);
    TimesComm(c, Complex(-1.0, 0.0));
    NegIsTurn(c);
    TurnTurn(2, e, ONE);
  }

  lemma NegIsTurn(c: Complex)
    ensures Turn(2, c) == c.Neg() && Turn(1, c) == Complex(-c.im, c.re)
  {
  }

  lemma ImagStep(e: int)
    ensures IPow(e).Times(IMAG) == IPow(e + 1)
  {
    hide Complex.Times, Turn;
    TimesUnits(IPow(e)); TimesComm(IPow(e), IMAG);
    NegIsTurn(IPow(e));
    TurnTurn(1, e, ONE);
  }

  lemma IPowZero()
    ensures IPow(0) == ONE
  {
  }

  method Vdot(u: Vec, w: Vec) returns (r: Complex)
    requires |u| == |w|
    ensures r == Inner(u, w)
  {
    hide Complex.Times, Complex.Plus, Complex.Conj;
    r := ZERO;
    PlusZero(Inner(u, w));
    assert u[0..] == u && w[0..] == w;
    for i := 0 to |u|
      invariant Inner(u, w) == r.Plus(Inner(u[i..], w[i..]))
    {
      assert u[i..][1..] == u[i + 1..] && w[i..][1..] == w[i + 1..];
      PlusAssoc(r, u[i].Conj().Times(w[i]), Inner(u[i + 1..], w[i + 1..]));
      r := r.Plus(u[i].Conj().Times(w[i]));
    }
    PlusZero(r);
  }

  /** `dense_pauli_expectation`: the size is checked before the characters; otherwise `<state| P |state>`. */
  method DensePauliExpectation(state: Vec, text: string) returns (r: Outcome<Complex>)
    ensures r == Err(WrongSize) <==> |state| != Pow2(|text|)
    ensures r == Err(BadCharacter) <==> |state| == Pow2(|text|) && exists i :: 0 <= i < |text| && text[i] !in {'I', 'X', 'Y', 'Z'}
    ensures r.Ok? ==> |Apply(PauliMat(LabelKey(text)), state)| == |state|
    ensures r.Ok? ==> r.value == Inner(state, Apply(PauliMat(LabelKey(text)), state))
    ensures r.Ok? ==> PauliMat(LabelKey(text)) == KronOf(text) && r.value.im == 0.0
  {
    hide KronOf, Apply, PauliMat, Inner, XorNat, FlipOf, PhaseAt, Turn, Complex.Times, PauliChar, FlipsAt, SignsAt, IPow;
    if |state| != Pow2(|text|) {
      return Err(WrongSize);
    }
    LabelCharacters(text);
    if !Label(text) {
      return Err(BadCharacter);
    }
    ghost var p := LabelKey(text);
    var flip := FlipMask(text);
    var source := Sources(|state|, flip);
    var phase := Phases(text, source);
    forall j | 0 <= j < |state|
      ensures source[j] < |state| == |Apply(PauliMat(p), state)|
      ensures Apply(PauliMat(p), state)[j] == phase[j].Times(state[source[j]])
    {
      GatherEntry(p, state, j);
      IPowTimes(PhaseAt(p, source[j]), state[source[j]]);
    }
    var gathered := seq(|state|, j requires 0 <= j < |state| => phase[j].Times(state[source[j]]));
    GatherEntry(p, state, 0);
    assert gathered == Apply(PauliMat(p), state);
    var value := Vdot(state, gathered);
    LabelIsKron(text);
    ExpectationIsReal(p, state);
    return Ok(value);
  }

  function Sources(size: nat, flip: nat): (r: seq<nat>)
    ensures |r| == size && forall j :: 0 <= j < size ==> r[j] == XorNat(j, flip)
  {
    seq(size, j requires 0 <= j < size => XorNat(j, flip))
  }

  // ---- Where the phase is taken ----

  function CountY(p: Pauli): nat
    requires p.On(|p.x|)
  {
    Popcount(And(p.x, p.z))
  }

  /** Taking the phase at the destination instead costs one sign per `Y`. */
  lemma {:induction false} DestinationPhase(p: Pauli, j: nat)
    requires p.On(|p.x|) && j < Pow2(|p.x|)
    ensures (PhaseAt(p, j) - PhaseAt(p, XorNat(j, FlipOf(p))) - 2 * CountY(p)) % 4 == 0
    decreases |p.x|
  {
    hide XorNat, TestBit, FlipOf, PhaseAt, CountY, Bit;
    GatherStep(p, j);
    if |p.x| == 0 {
      EmptyPhases(p, j);
    } else {
      var n := |p.x| - 1;
      var r := j >= Pow2(n);
      var k := if r then j - Pow2(n) else j;
      DestinationPhase(Tail(p), k);
      PhaseTop(p, r, k);
      CountYStep(p);
      var s := r != p.x[0];
      SignDifference(p.x[0], p.z[0], r);
      var d := PhaseAt(Tail(p), k) - PhaseAt(Tail(p), XorNat(k, FlipOf(Tail(p)))) - 2 * CountY(Tail(p));
      var e := 2 * Bit(p.z[0] && r) - 2 * Bit(p.z[0] && s) - 2 * Bit(p.x[0] && p.z[0]);
      assert PhaseAt(p, j) - PhaseAt(p, XorNat(j, FlipOf(p))) - 2 * CountY(p) == d + e;
      FourDivides(d, e);
    }
  }

  lemma FourDivides(d: int, e: int)
    requires d % 4 == 0 && e % 4 == 0
    ensures (d + e) % 4 == 0
  {
  }

  lemma SignDifference(x: bool, z: bool, r: bool)
    ensures (2 * Bit(z && r) - 2 * Bit(z && r != x) - 2 * Bit(x && z)) % 4 == 0
  {
  }

  lemma EmptyPhases(p: Pauli, j: nat)
    requires p.On(|p.x|) && |p.x| == 0 && j == 0
    ensures PhaseAt(p, j) == 0 && CountY(p) == 0
  {
  }

  lemma CountYStep(p: Pauli)
    requires p.On(|p.x|) && |p.x| > 0
    ensures CountY(p) == Bit(p.x[0] && p.z[0]) + CountY(Tail(p))
  {
    RowTails(p.x, p.z);
  }

  lemma PhaseTop(p: Pauli, r: bool, k: nat)
    requires p.On(|p.x|) && |p.x| > 0 && k < Pow2(|p.x| - 1)
    ensures PhaseAt(p, High(r, |p.x| - 1) + k) == Bit(p.x[0] && p.z[0]) + 2 * Bit(p.z[0] && r) + PhaseAt(Tail(p), k)
  {
    hide TestBit, Bit;
    TestSplit(|p.x| - 1, r, k, |p.x| - 1);
    PhaseLow(Tail(p), |p.x| - 1, r, k);
  }
}
