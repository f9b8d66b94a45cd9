/**
 Pauli strings in the symplectic `(x, z)` encoding of `pauli_string.rs`, with their product phase,
 their commutation test, and the dense matrix each one denotes.
 */
module Paulis {
  import opened Complexes
  import opened Dense

  type Row = seq<bool>

  function And(a: Row, b: Row): (r: Row)
    requires |a| == |b|
    ensures |r| == |a| && forall i :: 0 <= i < |a| ==> r[i] == (a[i] && b[i])
  {
    seq(|a|, i requires 0 <= i < |a| => a[i] && b[i])
  }

  function Xor(a: Row, b: Row): (r: Row)
    requires |a| == |b|
    ensures |r| == |a| && forall i :: 0 <= i < |a| ==> r[i] == (a[i] != b[i])
  {
    seq(|a|, i requires 0 <= i < |a| => a[i] != b[i])
  }

  function Bit(b: bool): nat {
    if b then 1 else 0
  }

  /** Set bits of a row. */
  function Popcount(a: Row): nat {
    if |a| == 0 then 0 else Bit(a[0]) + Popcount(a[1..])
  }

  /** A Pauli string on `|x|` qubits; `Y` is `(1, 1)` with no phase. */
  datatype Pauli = Pauli(x: Row, z: Row) {
    predicate On(n: nat) {
      |x| == n && |z| == n
    }
  }

  /** Exponent of the phase `mul_assign` returns: `self * other == i^PhaseOf * (self xor other)`. */
  function PhaseOf(p: Pauli, q: Pauli): int
    requires p.On(|q.x|) && q.On(|q.x|)
  {
    2 * Popcount(And(p.z, q.x)) + Popcount(And(p.x, p.z)) + Popcount(And(q.x, q.z))
    - Popcount(And(Xor(p.x, q.x), Xor(p.z, q.z)))
  }

  function ProductKey(p: Pauli, q: Pauli): (r: Pauli)
    requires p.On(|q.x|) && q.On(|q.x|)
    ensures r.On(|q.x|)
  {
    Pauli(Xor(p.x, q.x), Xor(p.z, q.z))
  }

  /** `commutes_with`: one popcount of the folded symplectic form. */
  predicate Commutes(p: Pauli, q: Pauli)
    requires p.On(|q.x|) && q.On(|q.x|)
  {
    Popcount(Xor(And(p.x, q.z), And(p.z, q.x))) % 2 == 0
  }

  // ---- The dense matrix of a string ----

  /** `np.kron` of one of `_PAULI_MATRICES` (I, X, Z and the Hermitian Y) with a matrix on `n` qubits. */
  function PauliKron(x: bool, z: bool, n: nat, m: Mat): Mat {
    var o := Zero(n);
    if !x && !z then Block(m, o, o, m)
    else if x && !z then Block(o, m, m, o)
    else if x then Block(o, TurnMat(3, m), TurnMat(1, m), o)
    else Block(m, o, o, TurnMat(2, m))
  }

  function Tail(p: Pauli): (r: Pauli)
    requires p.On(|p.x|) && |p.x| > 0
    ensures r.On(|p.x| - 1)
  {
    Pauli(p.x[1..], p.z[1..])
  }

  /** `_pauli_matrix`: the Kronecker product of the characters, first character most significant. */
  function PauliMat(p: Pauli): Mat
    requires p.On(|p.x|)
    decreases |p.x|
  {
    if |p.x| == 0 then Scalar(ONE)
    else PauliKron(p.x[0], p.z[0], |p.x| - 1, PauliMat(Tail(p)))
  }

  lemma {:induction false} PauliMatSquare(p: Pauli)
    requires p.On(|p.x|)
    ensures Square(PauliMat(p), |p.x|)
    decreases |p.x|
  {
    hide Square, PauliKron;
    SquareStep(Scalar(ONE), 0);
    if |p.x| > 0 {
      PauliMatSquare(Tail(p));
      PauliKronSquare(p.x[0], p.z[0], |p.x| - 1, PauliMat(Tail(p)));
    }
  }

  lemma PauliKronSquare(x: bool, z: bool, n: nat, m: Mat)
    requires Square(m, n)
    ensures Square(PauliKron(x, z, n, m), n + 1)
  {
    hide Square, TurnMat, Zero;
    SquareStep(PauliKron(x, z, n, m), n + 1); ZeroSquare(n);
    TurnMatSquare(n, 1, m); TurnMatSquare(n, 2, m); TurnMatSquare(n, 3, m);
  }

  // ---- The product law ----

  /** The phase of one qubit: `2bc + ab + cd - (a xor c)(b xor d)`. */
  function Phase1(a: bool, b: bool, c: bool, d: bool): int {
    2 * Bit(b && c) + Bit(a && b) + Bit(c && d) - Bit(a != c && b != d)
  }

  /** Block entry `(r, s)` of a Pauli matrix: a power of `i`, or none. */
  function PauliEntry(x: bool, z: bool, r: bool, s: bool, n: nat, m: Mat): Mat {
    if (r != s) == x then TurnMat(Bit(x && z) + 2 * Bit(z && s), m) else Zero(n)
  }

  lemma PauliKronEntries(x: bool, z: bool, n: nat, m: Mat)
    ensures PauliKron(x, z, n, m)
         == Block(PauliEntry(x, z, false, false, n, m), PauliEntry(x, z, false, true, n, m),
                  PauliEntry(x, z, true, false, n, m), PauliEntry(x, z, true, true, n, m))
  {
    TurnMatNone(m);
  }

  /** One entry of a product of two Pauli blocks: exactly one of the two paths `r -> t -> s` survives. */
  lemma PauliEntryProduct(a: bool, b: bool, c: bool, d: bool, r: bool, s: bool, n: nat, m: Mat, m': Mat)
    requires Square(m, n) && Square(m', n)
    ensures Add(Mul(PauliEntry(a, b, r, false, n, m), PauliEntry(c, d, false, s, n, m')),
                Mul(PauliEntry(a, b, r, true, n, m), PauliEntry(c, d, true, s, n, m')))
         == TurnMat(Phase1(a, b, c, d), PauliEntry(a != c, b != d, r, s, n, Mul(m, m')))
  {
    hide Mul, Add, TurnMat, Zero, Square;
    var k := Phase1(a, b, c, d);
    var t := r != a;
    var j := Bit(a && b) + 2 * Bit(b && t);
    var l := Bit(c && d) + 2 * Bit(d && s);
    var l' := Bit(a != c && b != d) + 2 * Bit(b != d && s);
    MulSquare(n, m, m'); ZeroSquare(n);
    TurnMatSquare(n, j, m); TurnMatSquare(n, l, m');
    MulZero(n, TurnMat(j, m)); MulZero(n, TurnMat(l, m')); MulZero(n, Zero(n));
    AddZero(n, Zero(n));
    TurnMatZero(n, k);
    TurnMatMul(j, l, m, m');
    TurnMatSquare(n, j + l, Mul(m, m'));
    AddZero(n, TurnMat(j + l, Mul(m, m')));
    TurnMatTurnMat(k, l', Mul(m, m'));
    if (r != s) == (a != c) {
      assert (j + l) % 4 == (k + l') % 4;
      TurnMatMod(j + l, k + l', Mul(m, m'));
    }
  }

  lemma PauliKronProduct(a: bool, b: bool, c: bool, d: bool, n: nat, m: Mat, m': Mat)
    requires Square(m, n) && Square(m', n)
    ensures Mul(PauliKron(a, b, n, m), PauliKron(c, d, n, m'))
         == TurnMat(Phase1(a, b, c, d), PauliKron(a != c, b != d, n, Mul(m, m')))
  {
    hide *;
    MulStep(PauliKron(a, b, n, m), PauliKron(c, d, n, m'));
    TurnMatStep(Phase1(a, b, c, d), PauliKron(a != c, b != d, n, Mul(m, m')));
    PauliKronEntries(a, b, n, m);
    PauliKronEntries(c, d, n, m');
    PauliKronEntries(a != c, b != d, n, Mul(m, m'));
    PauliEntryProduct(a, b, c, d, false, false, n, m, m');
    PauliEntryProduct(a, b, c, d, false, true, n, m, m');
    PauliEntryProduct(a, b, c, d, true, false, n, m, m');
    PauliEntryProduct(a, b, c, d, true, true, n, m, m');
  }

  /** A phase on the tail of a Kronecker product moves to the front. */
  lemma PauliKronTurn(x: bool, z: bool, k: int, n: nat, m: Mat)
    ensures PauliKron(x, z, n, TurnMat(k, m)) == TurnMat(k, PauliKron(x, z, n, m))
  {
    hide Zero, TurnMat;
    TurnMatStep(k, PauliKron(x, z, n, m));
    TurnMatZero(n, k);
    TurnMatTurnMat(1, k, m); TurnMatTurnMat(2, k, m); TurnMatTurnMat(3, k, m);
    TurnMatTurnMat(k, 1, m); TurnMatTurnMat(k, 2, m); TurnMatTurnMat(k, 3, m);
  }

  lemma RowTails(a: Row, b: Row)
    requires |a| == |b| > 0
    ensures And(a, b)[1..] == And(a[1..], b[1..])
    ensures Xor(a, b)[1..] == Xor(a[1..], b[1..])
  {
  }

  lemma PhaseStep(p: Pauli, q: Pauli)
    requires p.On(|q.x|) && q.On(|q.x|) && |q.x| > 0
    ensures PhaseOf(p, q) == Phase1(p.x[0], p.z[0], q.x[0], q.z[0]) + PhaseOf(Tail(p), Tail(q))
  {
    RowTails(p.z, q.x); RowTails(p.x, p.z); RowTails(q.x, q.z);
    RowTails(p.x, q.x); RowTails(p.z, q.z);
    RowTails(Xor(p.x, q.x), Xor(p.z, q.z));
  }

  lemma ProductKeyStep(p: Pauli, q: Pauli)
    requires p.On(|q.x|) && q.On(|q.x|) && |q.x| > 0
    ensures Tail(ProductKey(p, q)) == ProductKey(Tail(p), Tail(q))
    ensures ProductKey(p, q).x[0] == (p.x[0] != q.x[0]) && ProductKey(p, q).z[0] == (p.z[0] != q.z[0])
  {
    RowTails(p.x, q.x);
    RowTails(p.z, q.z);
  }

  /** The dense product of two strings is `mul_assign`'s phase times its key, at every width. */
  lemma {:induction false} ProductIsDense(p: Pauli, q: Pauli)
    requires p.On(|q.x|) && q.On(|q.x|)
    ensures Mul(PauliMat(p), PauliMat(q)) == TurnMat(PhaseOf(p, q), PauliMat(ProductKey(p, q)))
    decreases |q.x|
  {
    hide Mul, TurnMat, PauliMat;
    if |q.x| == 0 {
      PauliMatStep(p); PauliMatStep(q); PauliMatStep(ProductKey(p, q));
      ScalarProduct();
    } else {
      ProductIsDense(Tail(p), Tail(q));
      ProductStep(p, q);
    }
  }

  lemma ScalarProduct()
    ensures Mul(Scalar(ONE), Scalar(ONE)) == Scalar(ONE) == TurnMat(0, Scalar(ONE))
  {
    hide *;
    MulStep(Scalar(ONE), Scalar(ONE)); TurnMatNone(Scalar(ONE));
    TimesUnits(ONE);
  }

  lemma PauliMatStep(p: Pauli)
    requires p.On(|p.x|)
    ensures |p.x| == 0 ==> PauliMat(p) == Scalar(ONE)
    ensures |p.x| > 0 ==> PauliMat(p) == PauliKron(p.x[0], p.z[0], |p.x| - 1, PauliMat(Tail(p)))
  {
  }

  lemma ProductStep(p: Pauli, q: Pauli)
    requires p.On(|q.x|) && q.On(|q.x|) && |q.x| > 0
    requires Mul(PauliMat(Tail(p)), PauliMat(Tail(q)))
          == TurnMat(PhaseOf(Tail(p), Tail(q)), PauliMat(ProductKey(Tail(p), Tail(q))))
    ensures Mul(PauliMat(p), PauliMat(q)) == TurnMat(PhaseOf(p, q), PauliMat(ProductKey(p, q)))
  {
    hide Mul, PhaseOf, ProductKey, Phase1, PauliKron, TurnMat, PauliMat;
    var n := |q.x| - 1;
    var m, m' := PauliMat(Tail(p)), PauliMat(Tail(q));
    var rest := PauliMat(ProductKey(Tail(p), Tail(q)));
    var k1, k2 := Phase1(p.x[0], p.z[0], q.x[0], q.z[0]), PhaseOf(Tail(p), Tail(q));
    PhaseStep(p, q);
    ProductKeyStep(p, q);
    PauliMatStep(p); PauliMatStep(q); PauliMatStep(ProductKey(p, q));
    PauliMatSquare(Tail(p)); PauliMatSquare(Tail(q));
    PauliKronProduct(p.x[0], p.z[0], q.x[0], q.z[0], n, m, m');
    PauliKronTurn(p.x[0] != q.x[0], p.z[0] != q.z[0], k2, n, rest);
    TurnMatTurnMat(k1, k2, PauliMat(ProductKey(p, q)));
  }

  // ---- Commutation ----

  function NoBits(n: nat): (r: Row)
    ensures |r| == n && forall i :: 0 <= i < n ==> !r[i]
  {
    seq(n, i => false)
  }

  function IdentityKey(n: nat): (p: Pauli)
    ensures p.On(n)
  {
    Pauli(NoBits(n), NoBits(n))
  }

  lemma {:induction false} PopcountXor(a: Row, b: Row)
    requires |a| == |b|
    ensures Popcount(Xor(a, b)) % 2 == (Popcount(a) + Popcount(b)) % 2
  {
    if |a| > 0 {
      RowTails(a, b);
      PopcountXor(a[1..], b[1..]);
    }
  }

  lemma {:induction false} PopcountNone(n: nat)
    ensures Popcount(NoBits(n)) == 0
  {
    if n > 0 {
      assert NoBits(n)[1..] == NoBits(n - 1);
      PopcountNone(n - 1);
    }
  }

  lemma RowSymmetry(a: Row, b: Row)
    requires |a| == |b|
    ensures And(a, b) == And(b, a) && Xor(a, b) == Xor(b, a)
  {
  }

  /** Exchanging the factors changes the phase by `0` or `2`, as `commutes_with` says. */
  lemma PhaseSwap(p: Pauli, q: Pauli)
    requires p.On(|q.x|) && q.On(|q.x|)
    ensures ProductKey(p, q) == ProductKey(q, p)
    ensures PhaseOf(q, p) % 4 == (PhaseOf(p, q) + (if Commutes(p, q) then 0 else 2)) % 4
    ensures Commutes(p, q) == Commutes(q, p)
  {
    hide Popcount;
    RowSymmetry(p.x, q.x); RowSymmetry(p.z, q.z);
    RowSymmetry(p.z, q.x); RowSymmetry(p.x, q.z);
    RowSymmetry(And(p.x, q.z), And(p.z, q.x));
    PopcountXor(And(p.x, q.z), And(p.z, q.x));
    var u, v := Popcount(And(p.x, q.z)), Popcount(And(p.z, q.x));
    assert PhaseOf(q, p) == PhaseOf(p, q) + 2 * u - 2 * v;
    SwapMod(PhaseOf(p, q), u, v);
  }

  lemma SwapMod(f: int, u: int, v: int)
    ensures (f + 2 * u - 2 * v) % 4 == (f + (if (u + v) % 2 == 0 then 0 else 2)) % 4
  {
    var h := (u + v) / 2;
    if (u + v) % 2 == 0 {
      assert f + 2 * u - 2 * v == f + 4 * (h - v);
    } else {
      assert f + 2 * u - 2 * v == f + 2 + 4 * (h - v);
    }
  }

  /** `P Q == Q P` when the symplectic form vanishes, `P Q == - Q P` otherwise. */
  lemma CommutesIsDense(p: Pauli, q: Pauli)
    requires p.On(|q.x|) && q.On(|q.x|)
    ensures Mul(PauliMat(q), PauliMat(p))
         == TurnMat(if Commutes(p, q) then 0 else 2, Mul(PauliMat(p), PauliMat(q)))
  {
    hide Commutes, PhaseOf, ProductKey, PauliMat, Mul, TurnMat;
    var k := if Commutes(p, q) then 0 else 2;
    var m := PauliMat(ProductKey(p, q));
    PhaseSwap(p, q);
    ProductIsDense(p, q);
    ProductIsDense(q, p);
    TurnMatTurnMat(k, PhaseOf(p, q), m);
    TurnMatMod(PhaseOf(q, p), k + PhaseOf(p, q), m);
  }

  lemma {:induction false} IdentityKeyMat(n: nat)
    ensures PauliMat(IdentityKey(n)) == Identity(n)
  {
    hide Identity, PauliMat, Zero;
    PauliMatStep(IdentityKey(n)); IdentityStep(n);
    if n > 0 {
      assert Tail(IdentityKey(n)) == IdentityKey(n - 1);
      IdentityKeyMat(n - 1);
    }
  }

  lemma PhaseOfSquare(p: Pauli)
    requires p.On(|p.x|)
    ensures ProductKey(p, p) == IdentityKey(|p.x|)
    ensures PhaseOf(p, p) % 4 == 0
  {
    var n := |p.x|;
    assert Xor(p.x, p.x) == NoBits(n) && Xor(p.z, p.z) == NoBits(n);
    assert And(NoBits(n), NoBits(n)) == NoBits(n);
    PopcountNone(n);
    RowSymmetry(p.x, p.z);
    assert PhaseOf(p, p) == 4 * Popcount(And(p.x, p.z));
  }

  /** A Pauli string squares to the identity. */
  lemma SquareIsIdentity(p: Pauli)
    requires p.On(|p.x|)
    ensures Mul(PauliMat(p), PauliMat(p)) == Identity(|p.x|)
  {
    hide Mul, PauliMat, Identity, TurnMat, PhaseOf, ProductKey, IdentityKey;
    var n := |p.x|;
    PhaseOfSquare(p);
    ProductIsDense(p, p);
    TurnMatMod(PhaseOf(p, p), 0, PauliMat(IdentityKey(n)));
    TurnMatNone(PauliMat(IdentityKey(n)));
    IdentityKeyMat(n);
  }

  lemma {:induction false} PauliDagger(p: Pauli)
    requires p.On(|p.x|)
    ensures Dagger(PauliMat(p)) == PauliMat(p)
    decreases |p.x|
  {
    hide Dagger, PauliMat, PauliKron, Complex.Conj;
    PauliMatStep(p);
    if |p.x| == 0 {
      DaggerStep(Scalar(ONE));
      ConjUnits();
    } else {
      PauliDagger(Tail(p));
      PauliKronDagger(p.x[0], p.z[0], |p.x| - 1, PauliMat(Tail(p)));
    }
  }

  lemma PauliKronDagger(x: bool, z: bool, n: nat, m: Mat)
    requires Dagger(m) == m
    ensures Dagger(PauliKron(x, z, n, m)) == PauliKron(x, z, n, m)
  {
    hide Dagger, TurnMat, Zero;
    DaggerStep(PauliKron(x, z, n, m));
    DaggerZero(n);
    TurnMatDagger(1, m); TurnMatDagger(2, m); TurnMatDagger(3, m);
    TurnMatMod(-1, 3, m); TurnMatMod(-2, 2, m); TurnMatMod(-3, 1, m);
  }

  // ---- Orthogonality of the Pauli basis ----

  function Pow2(n: nat): (r: nat)
    ensures r > 0
  {
    if n == 0 then 1 else 2 * Pow2(n - 1)
  }

  lemma IdentityKeyStep(p: Pauli)
    requires p.On(|p.x|)
    ensures |p.x| == 0 ==> p == IdentityKey(|p.x|)
    ensures |p.x| > 0 ==> (p == IdentityKey(|p.x|) <==> !p.x[0] && !p.z[0] && Tail(p) == IdentityKey(|p.x| - 1))
  {
    var n := |p.x|;
    if n == 0 {
      assert p.x == NoBits(0) && p.z == NoBits(0);
    } else {
      assert NoBits(n)[1..] == NoBits(n - 1);
      assert p.x == [p.x[0]] + Tail(p).x && p.z == [p.z[0]] + Tail(p).z;
      assert NoBits(n) == [false] + NoBits(n - 1);
    }
  }

  lemma RealPow2(n: nat)
    ensures n == 0 ==> Real(Pow2(n) as real) == ONE
    ensures n > 0 ==> Real(Pow2(n) as real) == Real(Pow2(n - 1) as real).Plus(Real(Pow2(n - 1) as real))
  {
  }

  /** Only the identity string has a trace. */
  lemma {:induction false} PauliTrace(p: Pauli)
    requires p.On(|p.x|)
    ensures Trace(PauliMat(p)) == if p == IdentityKey(|p.x|) then Real(Pow2(|p.x|) as real) else ZERO
    decreases |p.x|
  {
    hide Trace, PauliMat, PauliKron, IdentityKey, Square, Real, Pow2, Complex.Plus;
    IdentityKeyStep(p);
    RealPow2(|p.x|);
    PauliMatStep(p);
    if |p.x| == 0 {
      TraceStep(Scalar(ONE));
    } else {
      PauliTrace(Tail(p));
      PauliMatSquare(Tail(p));
      PauliKronTrace(p.x[0], p.z[0], |p.x| - 1, PauliMat(Tail(p)));
      PlusZero(ZERO);
    }
  }

  lemma PauliKronTrace(x: bool, z: bool, n: nat, m: Mat)
    requires Square(m, n)
    ensures Trace(PauliKron(x, z, n, m)) == if x || z then ZERO else Trace(m).Plus(Trace(m))
  {
    hide Trace, TurnMat, Square, Zero;
    TraceStep(PauliKron(x, z, n, m));
    TraceZero(n);
    TurnMatTrace(n, 2, m);
    PlusZero(ZERO);
  }

  lemma TurnMatTrace(n: nat, k: int, a: Mat)
    requires Square(a, n)
    ensures Trace(TurnMat(k, a)) == Turn(k, Trace(a))
  {
    hide *;
    TurnMatIsScale(k, a);
    TraceScale(n, IPow(k), a);
    IPowTimes(k, Trace(a));
  }

  /** `Tr(P Q) == 2^n` when the strings are equal and `0` otherwise. */
  lemma PauliOrthogonal(p: Pauli, q: Pauli)
    requires p.On(|q.x|) && q.On(|q.x|)
    ensures Trace(Mul(PauliMat(p), PauliMat(q))) == if p == q then Real(Pow2(|q.x|) as real) else ZERO
  {
    hide Trace, Mul, PauliMat, TurnMat, Square, PhaseOf, ProductKey, IdentityKey, Turn;
    var k, r := PhaseOf(p, q), ProductKey(p, q);
    ProductIsDense(p, q);
    PauliMatSquare(r);
    TurnMatTrace(|q.x|, k, PauliMat(r));
    PauliTrace(r);
    ProductKeyIdentity(p, q);
    if p == q {
      PhaseOfSquare(p);
      TurnMod(k, 0, Trace(PauliMat(r)));
      TurnNone(Trace(PauliMat(r)));
    } else {
      TurnZero(k);
    }
  }

  lemma TurnZero(k: int)
    ensures Turn(k, ZERO) == ZERO
  {
    hide *;
    IPowTimes(k, ZERO);
    TimesUnits(IPow(k));
  }

  lemma ProductKeyIdentity(p: Pauli, q: Pauli)
    requires p.On(|q.x|) && q.On(|q.x|)
    ensures ProductKey(p, q) == IdentityKey(|q.x|) <==> p == q
  {
    var n := |q.x|;
    if ProductKey(p, q) == IdentityKey(n) {
      forall i | 0 <= i < n
        ensures p.x[i] == q.x[i] && p.z[i] == q.z[i]
      {
        assert !Xor(p.x, q.x)[i] && !Xor(p.z, q.z)[i];
      }
      assert p.x == q.x && p.z == q.z;
    } else if p == q {
      PhaseOfSquare(p);
    }
  }
}
