/**
 The dense meaning of the Clifford tables: pushing a signed string through a gate is conjugation by the
 gate's matrix.  Every gate is a combination of `1, a, b, a b` for two single-qubit Paulis `a` and `b`.
 */
module CliffordDense {
  import opened Complexes
  import opened Dense
  import opened Paulis
  import opened OleTrace
  import opened Otoc
  import opened OtocDense
  import opened Cliffords
  import opened Expectation
  import opened Cluster

  // ---- Combinations of two Paulis ----

  datatype Coefs = Coefs(i: Complex, a: Complex, b: Complex, ab: Complex)

  /** `c.i + c.a a + c.b b + c.ab a b`. */
  function Combo(n: nat, a: Mat, b: Mat, c: Coefs): Mat {
    Add(Add(Scale(c.i, Identity(n)), Scale(c.a, a)), Add(Scale(c.b, b), Scale(c.ab, Mul(a, b))))
  }

  /** Two involutions that commute (`k == 0`) or anticommute (`k == 2`). */
  ghost predicate Frame(n: nat, a: Mat, b: Mat, k: int) {
    && Square(a, n) && Square(b, n) && Mul(a, a) == Identity(n) && Mul(b, b) == Identity(n)
    && Mul(b, a) == TurnMat(k, Mul(a, b))
  }

  lemma LeftA(n: nat, a: Mat, b: Mat, k: int, c: Coefs)
    requires Frame(n, a, b, k)
    ensures Mul(a, Combo(n, a, b, c)) == Combo(n, a, b, Coefs(c.a, c.i, c.ab, c.b))
  {
    hide Add, Scale, Mul, Identity, Square, TurnMat;
    var e, ab := Identity(n), Mul(a, b);
    MulAddRight(a, Add(Scale(c.i, e), Scale(c.a, a)), Add(Scale(c.b, b), Scale(c.ab, ab)));
    MulAddRight(a, Scale(c.i, e), Scale(c.a, a)); MulAddRight(a, Scale(c.b, b), Scale(c.ab, ab));
    MulScaleRight(c.i, a, e); MulScaleRight(c.a, a, a); MulScaleRight(c.b, a, b); MulScaleRight(c.ab, a, ab);
    MulIdentity(n, a); MulIdentity(n, b); MulAssoc(a, a, b);
    AddComm(Scale(c.i, a), Scale(c.a, e)); AddComm(Scale(c.b, ab), Scale(c.ab, b));
  }

  lemma LeftB(n: nat, a: Mat, b: Mat, k: int, c: Coefs)
    requires Frame(n, a, b, k)
    ensures Mul(b, Combo(n, a, b, c)) == Combo(n, a, b, Coefs(c.b, Turn(k, c.ab), c.i, Turn(k, c.a)))
  {
    hide Add, Scale, Mul, Identity, Square, TurnMat, Turn;
    var e, ab := Identity(n), Mul(a, b);
    MulAddRight(b, Add(Scale(c.i, e), Scale(c.a, a)), Add(Scale(c.b, b), Scale(c.ab, ab)));
    MulAddRight(b, Scale(c.i, e), Scale(c.a, a)); MulAddRight(b, Scale(c.b, b), Scale(c.ab, ab));
    MulScaleRight(c.i, b, e); MulScaleRight(c.a, b, a); MulScaleRight(c.b, b, b); MulScaleRight(c.ab, b, ab);
    MulIdentity(n, b); MulIdentity(n, a);
    MulAssoc(b, a, b); TurnTimesMat(k, ab, b); MulAssoc(a, b, b);
    ScaleTurn(k, c.a, ab); ScaleTurn(k, c.ab, a);
    AddComm(Add(Scale(c.i, b), Scale(Turn(k, c.a), ab)), Add(Scale(c.b, e), Scale(Turn(k, c.ab), a)));
  }

  lemma TurnTimesMat(k: int, a: Mat, b: Mat)
    ensures Mul(TurnMat(k, a), b) == TurnMat(k, Mul(a, b)) == Mul(a, TurnMat(k, b))
  {
    hide *;
    TurnMatMul(k, 0, a, b); TurnMatMul(0, k, a, b); TurnMatNone(a); TurnMatNone(b);
  }

  lemma ScaleTurn(k: int, c: Complex, m: Mat)
    ensures Scale(c, TurnMat(k, m)) == Scale(Turn(k, c), m) == TurnMat(k, Scale(c, m))
  {
    hide *;
    TurnScale(k, c, m); TurnMatIsScale(k, Scale(c, m)); ScaleScale(IPow(k), c, m); IPowTimes(k, c);
  }

  lemma TurnCombo(n: nat, a: Mat, b: Mat, t: int, c: Coefs)
    ensures TurnMat(t, Combo(n, a, b, c)) == Combo(n, a, b, Coefs(Turn(t, c.i), Turn(t, c.a), Turn(t, c.b), Turn(t, c.ab)))
  {
    hide Add, Scale, Mul, Identity, TurnMat, Turn;
    var e, ab := Identity(n), Mul(a, b);
    TurnMatAdd(t, Add(Scale(c.i, e), Scale(c.a, a)), Add(Scale(c.b, b), Scale(c.ab, ab)));
    TurnMatAdd(t, Scale(c.i, e), Scale(c.a, a)); TurnMatAdd(t, Scale(c.b, b), Scale(c.ab, ab));
    ScaleTurn(t, c.i, e); ScaleTurn(t, c.a, a); ScaleTurn(t, c.b, b); ScaleTurn(t, c.ab, ab);
  }

  /** Moving a combination past a string that commutes or anticommutes with `a` and with `b`. */
  lemma PastString(n: nat, a: Mat, b: Mat, p: Mat, ka: int, kb: int, c: Coefs)
    requires Square(p, n) && Mul(a, p) == TurnMat(ka, Mul(p, a)) && Mul(b, p) == TurnMat(kb, Mul(p, b))
    ensures Mul(Combo(n, a, b, c), p) == Mul(p, Combo(n, a, b, Coefs(c.i, Turn(ka, c.a), Turn(kb, c.b), Turn(ka + kb, c.ab))))
  {
    hide Add, Scale, Mul, Identity, TurnMat, Turn, Square;
    var e, ab := Identity(n), Mul(a, b);
    var a', b', ab' := Turn(ka, c.a), Turn(kb, c.b), Turn(ka + kb, c.ab);
    MulAddLeft(Add(Scale(c.i, e), Scale(c.a, a)), Add(Scale(c.b, b), Scale(c.ab, ab)), p);
    MulAddLeft(Scale(c.i, e), Scale(c.a, a), p); MulAddLeft(Scale(c.b, b), Scale(c.ab, ab), p);
    MulScaleLeft(c.i, e, p); MulScaleLeft(c.a, a, p); MulScaleLeft(c.b, b, p); MulScaleLeft(c.ab, ab, p);
    MulAddRight(p, Add(Scale(c.i, e), Scale(a', a)), Add(Scale(b', b), Scale(ab', ab)));
    MulAddRight(p, Scale(c.i, e), Scale(a', a)); MulAddRight(p, Scale(b', b), Scale(ab', ab));
    MulScaleRight(c.i, p, e); MulScaleRight(a', p, a); MulScaleRight(b', p, b); MulScaleRight(ab', p, ab);
    MulIdentity(n, p);
    MulAssoc(a, b, p); TurnTimesMat(kb, a, Mul(p, b)); MulAssoc(a, p, b); TurnTimesMat(ka, Mul(p, a), b);
    MulAssoc(p, a, b); TurnMatTurnMat(kb, ka, Mul(p, ab));
    ScaleTurn(ka, c.a, Mul(p, a)); ScaleTurn(kb, c.b, Mul(p, b)); ScaleTurn(ka + kb, c.ab, Mul(p, ab));
  }

  // ---- The gates ----

  /** The two single-qubit Paulis a gate is built from. */
  function FrameA(n: nat, g: Gate): (p: Pauli)
    ensures p.On(n)
  {
    match g
    case H(q) => Single(n, q, true, false)
    case S(q) => Single(n, q, false, true)
    case Cnot(a, _) => Single(n, a, false, true)
    case Cz(a, _) => Single(n, a, false, true)
  }

  function FrameB(n: nat, g: Gate): (p: Pauli)
    ensures p.On(n)
  {
    match g
    case H(q) => Single(n, q, false, true)
    case S(q) => Single(n, q, true, false)
    case Cnot(_, b) => Single(n, b, true, false)
    case Cz(_, b) => Single(n, b, false, true)
  }

  const MINUS := Complex(-1.0, 0.0)

  /** The coefficients of a gate's matrix, scaled to be Gaussian integers. */
  function GateCoefs(g: Gate): Coefs {
    match g
    case H(_) => Coefs(ZERO, ONE, ONE, ZERO)
    case S(_) => Coefs(Complex(1.0, 1.0), Complex(1.0, -1.0), ZERO, ZERO)
    case Cnot(_, _) => Coefs(ONE, ONE, ONE, MINUS)
    case Cz(_, _) => Coefs(ONE, ONE, ONE, MINUS)
  }

  /** `sqrt(2) H == X + Z`, `2 S == (1 + i) + (1 - i) Z`, `2 CNOT == 1 + Z_a + X_b - Z_a X_b`, `2 CZ == 1 + Z_a + Z_b - Z_a Z_b`. */
  function GateDense(n: nat, g: Gate): Mat {
    Combo(n, PauliMat(FrameA(n, g)), PauliMat(FrameB(n, g)), GateCoefs(g))
  }

  function SignedMat(s: Signed): Mat
    requires s.p.On(|s.p.x|)
  {
    TurnMat(2 * Bit(s.neg), PauliMat(s.p))
  }

  /** How a gate's image is a multiple of `p`: `i^t p a^u b^v`. */
  datatype Move = Move(t: int, u: bool, v: bool)

  function MoveOf(g: Gate, ka: bool, kb: bool): Move {
    match g
    case H(_) => if ka == kb then Move(2 * Bit(ka), false, false) else Move(if kb then 0 else 2, true, true)
    case S(_) => if ka then Move(1, true, false) else Move(0, false, false)
    case Cnot(_, _) => Move(2 * Bit(ka && kb), kb, ka)
    case Cz(_, _) => Move(2 * Bit(ka && kb), kb, ka)
  }

  /** `c` multiplied from the left by `i^t a^u b^v`. */
  function Moved(m: Move, k: int, c: Coefs): Coefs {
    var d := if m.v then Coefs(c.b, Turn(k, c.ab), c.i, Turn(k, c.a)) else c;
    var e := if m.u then Coefs(d.a, d.i, d.ab, d.b) else d;
    Coefs(Turn(m.t, e.i), Turn(m.t, e.a), Turn(m.t, e.b), Turn(m.t, e.ab))
  }

  /** The relation of the two Paulis of a gate. */
  function FrameSign(g: Gate): int {
    if g.H? || g.S? then 2 else 0
  }

  /** Coefficientwise: `G p == p' G`. */
  lemma MoveCoefs(g: Gate, ka: bool, kb: bool)
    ensures
      var c := GateCoefs(g);
      Moved(MoveOf(g, ka, kb), FrameSign(g), c)
      == Coefs(c.i, Turn(2 * Bit(ka), c.a), Turn(2 * Bit(kb), c.b), Turn(2 * Bit(ka) + 2 * Bit(kb), c.ab))
  {
    hide Turn;
    UnitTurns();
    var c := GateCoefs(g);
    Rounds(c.i); Rounds(c.a); Rounds(c.b); Rounds(c.ab);
    Rounds(ONE); Rounds(MINUS); Rounds(ZERO);
  }

  /** No turn, and a full turn. */
  lemma Rounds(c: Complex)
    ensures Turn(0, c) == c && Turn(4, c) == c && Turn(2, Turn(2, c)) == c
  {
  }

  lemma UnitTurns()
    ensures Turn(2, ONE) == MINUS && Turn(2, ZERO) == ZERO && Turn(1, ZERO) == ZERO && Turn(2, MINUS) == ONE
    ensures Turn(1, Complex(1.0, -1.0)) == Complex(1.0, 1.0)
    ensures Turn(1, Complex(1.0, 1.0)) == Turn(2, Complex(1.0, -1.0))
  {
    var one, minus, zero, s, d := ONE, MINUS, ZERO, Complex(1.0, 1.0), Complex(1.0, -1.0);
    TurnParts(one); TurnParts(minus); TurnParts(zero); TurnParts(s); TurnParts(d);
    hide Turn;
  }

  lemma TurnParts(c: Complex)
    ensures Turn(2, c) == Complex(-c.re, -c.im) && Turn(1, c) == Complex(-c.im, c.re)
  {
  }

  function Powered(n: nat, use: bool, m: Mat): Mat {
    if use then m else Identity(n)
  }

  lemma MovedIsProduct(n: nat, a: Mat, b: Mat, k: int, p: Mat, m: Move, c: Coefs)
    requires Frame(n, a, b, k) && Square(p, n)
    ensures Mul(TurnMat(m.t, Mul(Mul(p, Powered(n, m.u, a)), Powered(n, m.v, b))), Combo(n, a, b, c))
         == Mul(p, Combo(n, a, b, Moved(m, k, c)))
  {
    hide Add, Scale, Mul, Identity, TurnMat, Turn, Square, Combo;
    var u, v, g := Powered(n, m.u, a), Powered(n, m.v, b), Combo(n, a, b, c);
    ComboSquare(n, a, b, c);
    MulIdentity(n, g);
    LeftB(n, a, b, k, c);
    var d := if m.v then Coefs(c.b, Turn(k, c.ab), c.i, Turn(k, c.a)) else c;
    assert Mul(v, g) == Combo(n, a, b, d);
    ComboSquare(n, a, b, d);
    MulIdentity(n, Combo(n, a, b, d));
    LeftA(n, a, b, k, d);
    var e := if m.u then Coefs(d.a, d.i, d.ab, d.b) else d;
    assert Mul(u, Combo(n, a, b, d)) == Combo(n, a, b, e);
    MulAssoc(Mul(p, u), v, g); MulAssoc(p, u, Mul(v, g));
    TurnTimesMat(m.t, Mul(Mul(p, u), v), g);
    TurnTimesMat(m.t, p, Combo(n, a, b, e));
    TurnCombo(n, a, b, m.t, e);
  }

  lemma ComboSquare(n: nat, a: Mat, b: Mat, c: Coefs)
    requires Square(a, n) && Square(b, n)
    ensures Square(Combo(n, a, b, c), n)
  {
    hide Add, Scale, Mul, Identity, Square;
    var e, ab := Identity(n), Mul(a, b);
    IdentitySquare(n); MulSquare(n, a, b);
    ScaleSquare(n, c.i, e); ScaleSquare(n, c.a, a); ScaleSquare(n, c.b, b); ScaleSquare(n, c.ab, ab);
    AddSquare(n, Scale(c.i, e), Scale(c.a, a)); AddSquare(n, Scale(c.b, b), Scale(c.ab, ab));
    AddSquare(n, Add(Scale(c.i, e), Scale(c.a, a)), Add(Scale(c.b, b), Scale(c.ab, ab)));
  }

  /** Dense commutation with a single-qubit Pauli, read off one qubit. */
  lemma SinglePast(n: nat, p: Pauli, q: nat, gx: bool, gz: bool)
    requires p.On(n) && q < n
    ensures
      var k := 2 * Bit((p.x[q] && gz) != (p.z[q] && gx));
      Mul(PauliMat(Single(n, q, gx, gz)), PauliMat(p)) == TurnMat(k, Mul(PauliMat(p), PauliMat(Single(n, q, gx, gz))))
  {
    hide Mul, PauliMat, TurnMat, Commutes;
    AnticommutesAt(n, p, q, gx, gz);
    CommutesIsDense(p, Single(n, q, gx, gz));
  }

  /** Multiplying a string by a single-qubit Pauli from the right. */
  lemma SingleProduct(n: nat, p: Pauli, q: nat, gx: bool, gz: bool)
    requires p.On(n) && q < n
    ensures Mul(PauliMat(p), PauliMat(Single(n, q, gx, gz)))
         == TurnMat(Phase1(p.x[q], p.z[q], gx, gz), PauliMat(With(p, q, p.x[q] != gx, p.z[q] != gz)))
  {
    hide Mul, PauliMat, TurnMat, PhaseOf, FormWeight;
    var g := Single(n, q, gx, gz);
    WithSingle(n, p, q, gx, gz);
    ProductIsDense(p, g);
    SameString(ProductKey(p, g), With(p, q, p.x[q] != gx, p.z[q] != gz));
  }

  lemma FrameOf(n: nat, g: Gate)
    requires g.On(n)
    ensures Frame(n, PauliMat(FrameA(n, g)), PauliMat(FrameB(n, g)), FrameSign(g))
  {
    hide Mul, PauliMat, TurnMat, Identity, Square, Single;
    var a, b := FrameA(n, g), FrameB(n, g);
    PauliMatSquare(a); PauliMatSquare(b);
    SquareIsIdentity(a); SquareIsIdentity(b);
    match g
    case H(q) => SinglePast(n, a, q, false, true);
    case S(q) => SinglePast(n, a, q, true, false);
    case Cnot(_, t) => SinglePast(n, a, t, true, false);
    case Cz(_, t) => SinglePast(n, a, t, false, true);
  }

  /** Whether a string anticommutes with the two Paulis of a gate. */
  function PastA(g: Gate, p: Pauli): bool
    requires p.On(|p.x|) && g.On(|p.x|)
  {
    match g
    case H(q) => p.z[q]
    case S(q) => p.x[q]
    case Cnot(a, _) => p.x[a]
    case Cz(a, _) => p.x[a]
  }

  function PastB(g: Gate, p: Pauli): bool
    requires p.On(|p.x|) && g.On(|p.x|)
  {
    match g
    case H(q) => p.x[q]
    case S(q) => p.z[q]
    case Cnot(_, b) => p.z[b]
    case Cz(_, b) => p.x[b]
  }

  lemma FramePast(n: nat, g: Gate, p: Pauli)
    requires p.On(n) && g.On(n)
    ensures Mul(PauliMat(FrameA(n, g)), PauliMat(p)) == TurnMat(2 * Bit(PastA(g, p)), Mul(PauliMat(p), PauliMat(FrameA(n, g))))
    ensures Mul(PauliMat(FrameB(n, g)), PauliMat(p)) == TurnMat(2 * Bit(PastB(g, p)), Mul(PauliMat(p), PauliMat(FrameB(n, g))))
  {
    hide Mul, PauliMat, TurnMat, Single;
    match g
    case H(q) => SinglePast(n, p, q, true, false); SinglePast(n, p, q, false, true);
    case S(q) => SinglePast(n, p, q, false, true); SinglePast(n, p, q, true, false);
    case Cnot(a, b) => SinglePast(n, p, a, false, true); SinglePast(n, p, b, true, false);
    case Cz(a, b) => SinglePast(n, p, a, false, true); SinglePast(n, p, b, false, true);
  }

  /** A string times one Pauli, if it is used. */
  lemma MaybeProduct(n: nat, p: Pauli, q: nat, gx: bool, gz: bool, use: bool)
    requires p.On(n) && q < n
    ensures
      var r := if use then With(p, q, p.x[q] != gx, p.z[q] != gz) else p;
      var k := if use then Phase1(p.x[q], p.z[q], gx, gz) else 0;
      Mul(PauliMat(p), Powered(n, use, PauliMat(Single(n, q, gx, gz)))) == TurnMat(k, PauliMat(r))
  {
    hide Mul, PauliMat, TurnMat, Identity, Single, Square, Phase1;
    PauliMatSquare(p); MulIdentity(n, PauliMat(p)); TurnMatNone(PauliMat(p));
    if use {
      SingleProduct(n, p, q, gx, gz);
    }
  }

  /** The site and kind of a gate's two Paulis. */
  datatype Site = Site(q: nat, gx: bool, gz: bool)

  function SiteA(g: Gate): Site {
    match g
    case H(q) => Site(q, true, false)
    case S(q) => Site(q, false, true)
    case Cnot(a, _) => Site(a, false, true)
    case Cz(a, _) => Site(a, false, true)
  }

  function SiteB(g: Gate): Site {
    match g
    case H(q) => Site(q, false, true)
    case S(q) => Site(q, true, false)
    case Cnot(_, b) => Site(b, true, false)
    case Cz(_, b) => Site(b, false, true)
  }

  lemma SitesAreFrames(n: nat, g: Gate)
    requires g.On(n)
    ensures SiteA(g).q < n && SiteB(g).q < n
    ensures FrameA(n, g) == Single(n, SiteA(g).q, SiteA(g).gx, SiteA(g).gz)
    ensures FrameB(n, g) == Single(n, SiteB(g).q, SiteB(g).gx, SiteB(g).gz)
  {
    hide Single;
  }

  function Hit(p: Pauli, s: Site, use: bool): (r: Pauli)
    requires p.On(|p.x|) && s.q < |p.x|
    ensures r.On(|p.x|)
  {
    if use then With(p, s.q, p.x[s.q] != s.gx, p.z[s.q] != s.gz) else p
  }

  function HitPhase(p: Pauli, s: Site, use: bool): int
    requires p.On(|p.x|) && s.q < |p.x|
  {
    if use then Phase1(p.x[s.q], p.z[s.q], s.gx, s.gz) else 0
  }

  /** `i^t p a^u b^v` is one signed string. */
  lemma MoveProduct(n: nat, g: Gate, p: Pauli, m: Move)
    requires p.On(n) && g.On(n)
    ensures SiteA(g).q < n && SiteB(g).q < n
    ensures
      var r := Hit(p, SiteA(g), m.u);
      TurnMat(m.t, Mul(Mul(PauliMat(p), Powered(n, m.u, PauliMat(FrameA(n, g)))), Powered(n, m.v, PauliMat(FrameB(n, g)))))
      == TurnMat(m.t + HitPhase(p, SiteA(g), m.u) + HitPhase(r, SiteB(g), m.v), PauliMat(Hit(r, SiteB(g), m.v)))
  {
    hide Mul, PauliMat, TurnMat, Identity, Single, Phase1, FrameA, FrameB, SiteA, SiteB, Powered;
    SitesAreFrames(n, g);
    var a, b := SiteA(g), SiteB(g);
    var r := Hit(p, a, m.u);
    MaybeProduct(n, p, a.q, a.gx, a.gz, m.u);
    MaybeProduct(n, r, b.q, b.gx, b.gz, m.v);
    var j, k := HitPhase(p, a, m.u), HitPhase(r, b, m.v);
    var v := Powered(n, m.v, PauliMat(FrameB(n, g)));
    TurnTimesMat(j, PauliMat(r), v);
    TurnMatTurnMat(j, k, PauliMat(Hit(r, b, m.v)));
    TurnMatTurnMat(m.t, j + k, PauliMat(Hit(r, b, m.v)));
  }

  /** That string and its sign are what the table gives. */
  lemma MoveIsTable(n: nat, g: Gate, p: Pauli)
    requires p.On(n) && g.On(n)
    ensures SiteA(g).q < n && SiteB(g).q < n
    ensures
      var m := MoveOf(g, PastA(g, p), PastB(g, p));
      var r := Hit(p, SiteA(g), m.u);
      var s := ApplyGate(g, Signed(p, false));
      && Hit(r, SiteB(g), m.v) == s.p
      && (m.t + HitPhase(p, SiteA(g), m.u) + HitPhase(r, SiteB(g), m.v)) % 4 == 2 * Bit(s.neg)
  {
    hide ApplyGate, Phase1, Hit, HitPhase, MoveOf, PastA, PastB;
    GateRule(g, Signed(p, false));
    match g
    case H(q) => HadamardMove(p, q);
    case S(q) => PhaseMove(p, q);
    case Cnot(a, b) => CnotMove(p, a, b);
    case Cz(a, b) => CzMove(p, a, b);
  }

  lemma HadamardMove(p: Pauli, q: nat)
    requires p.On(|p.x|) && q < |p.x|
    ensures
      var g := H(q);
      var m := MoveOf(g, PastA(g, p), PastB(g, p));
      var r := Hit(p, SiteA(g), m.u);
      && Hit(r, SiteB(g), m.v) == With(p, q, p.z[q], p.x[q])
      && (m.t + HitPhase(p, SiteA(g), m.u) + HitPhase(r, SiteB(g), m.v)) % 4 == 2 * Bit(p.x[q] && p.z[q])
  {
    var g := H(q);
    var m := MoveOf(g, PastA(g, p), PastB(g, p));
    SameString(Hit(Hit(p, SiteA(g), m.u), SiteB(g), m.v), With(p, q, p.z[q], p.x[q]));
  }

  lemma PhaseMove(p: Pauli, q: nat)
    requires p.On(|p.x|) && q < |p.x|
    ensures
      var g := S(q);
      var m := MoveOf(g, PastA(g, p), PastB(g, p));
      var r := Hit(p, SiteA(g), m.u);
      && Hit(r, SiteB(g), m.v) == With(p, q, p.x[q], p.z[q] != p.x[q])
      && (m.t + HitPhase(p, SiteA(g), m.u) + HitPhase(r, SiteB(g), m.v)) % 4 == 2 * Bit(p.x[q] && p.z[q])
  {
    var g := S(q);
    var m := MoveOf(g, PastA(g, p), PastB(g, p));
    SameString(Hit(Hit(p, SiteA(g), m.u), SiteB(g), m.v), With(p, q, p.x[q], p.z[q] != p.x[q]));
  }

  lemma CnotMove(p: Pauli, a: nat, b: nat)
    requires p.On(|p.x|) && a < |p.x| && b < |p.x| && a != b
    ensures
      var g := Cnot(a, b);
      var m := MoveOf(g, PastA(g, p), PastB(g, p));
      var r := Hit(p, SiteA(g), m.u);
      && Hit(r, SiteB(g), m.v) == With(With(p, a, p.x[a], p.z[a] != p.z[b]), b, p.x[b] != p.x[a], p.z[b])
      && (m.t + HitPhase(p, SiteA(g), m.u) + HitPhase(r, SiteB(g), m.v)) % 4 == 2 * Bit(p.x[a] && p.z[b] && p.x[b] == p.z[a])
  {
    var g := Cnot(a, b);
    var m := MoveOf(g, PastA(g, p), PastB(g, p));
    SameString(Hit(Hit(p, SiteA(g), m.u), SiteB(g), m.v), With(With(p, a, p.x[a], p.z[a] != p.z[b]), b, p.x[b] != p.x[a], p.z[b]));
    hide Phase1;
    PhaseTable(p.x[a], p.z[a]); PhaseTable(p.x[b], p.z[b]);
  }

  lemma CzMove(p: Pauli, a: nat, b: nat)
    requires p.On(|p.x|) && a < |p.x| && b < |p.x| && a != b
    ensures
      var g := Cz(a, b);
      var m := MoveOf(g, PastA(g, p), PastB(g, p));
      var r := Hit(p, SiteA(g), m.u);
      && Hit(r, SiteB(g), m.v) == With(With(p, a, p.x[a], p.z[a] != p.x[b]), b, p.x[b], p.z[b] != p.x[a])
      && (m.t + HitPhase(p, SiteA(g), m.u) + HitPhase(r, SiteB(g), m.v)) % 4 == 2 * Bit(p.x[a] && p.x[b] && p.z[a] != p.z[b])
  {
    var g := Cz(a, b);
    var m := MoveOf(g, PastA(g, p), PastB(g, p));
    SameString(Hit(Hit(p, SiteA(g), m.u), SiteB(g), m.v), With(With(p, a, p.x[a], p.z[a] != p.x[b]), b, p.x[b], p.z[b] != p.x[a]));
    hide Phase1;
    PhaseTable(p.x[a], p.z[a]); PhaseTable(p.x[b], p.z[b]);
  }

  // ---- Conjugation ----

  lemma PlainGate(n: nat, g: Gate, p: Pauli)
    requires p.On(n) && g.On(n)
    ensures Mul(GateDense(n, g), PauliMat(p)) == Mul(SignedMat(ApplyGate(g, Signed(p, false))), GateDense(n, g))
  {
    hide Mul, PauliMat, TurnMat, Identity, Combo, FrameA, FrameB, Frame, ApplyGate, Turn, GateCoefs, MoveOf, Moved, PastA, PastB, SiteA, SiteB, Hit, HitPhase, Square, Powered;
    var a, b, m := PauliMat(FrameA(n, g)), PauliMat(FrameB(n, g)), PauliMat(p);
    var ka, kb := PastA(g, p), PastB(g, p);
    var c, move := GateCoefs(g), MoveOf(g, ka, kb);
    FrameOf(n, g); FramePast(n, g, p); PauliMatSquare(p);
    PastString(n, a, b, m, 2 * Bit(ka), 2 * Bit(kb), c);
    MoveCoefs(g, ka, kb);
    MovedIsProduct(n, a, b, FrameSign(g), m, move, c);
    MoveProduct(n, g, p, move);
    MoveIsTable(n, g, p);
    var r := Hit(p, SiteA(g), move.u);
    TurnMatMod(move.t + HitPhase(p, SiteA(g), move.u) + HitPhase(r, SiteB(g), move.v), 2 * Bit(ApplyGate(g, Signed(p, false)).neg),
               PauliMat(Hit(r, SiteB(g), move.v)));
  }

  /** The sign of the input carries over. */
  lemma ApplySign(g: Gate, s: Signed)
    requires s.p.On(|s.p.x|) && g.On(|s.p.x|)
    ensures
      var plain := ApplyGate(g, Signed(s.p, false));
      ApplyGate(g, s) == Signed(plain.p, s.neg != plain.neg)
  {
    hide ApplyGate;
    GateRule(g, s); GateRule(g, Signed(s.p, false));
  }

  /** The tables are conjugation: `G P == P' G` for the gate's dense matrix. */
  lemma GateIsConjugation(n: nat, g: Gate, s: Signed)
    requires s.p.On(n) && g.On(n)
    ensures Mul(GateDense(n, g), SignedMat(s)) == Mul(SignedMat(ApplyGate(g, s)), GateDense(n, g))
  {
    hide Mul, PauliMat, TurnMat, ApplyGate, GateDense;
    var plain := ApplyGate(g, Signed(s.p, false));
    ApplySign(g, s);
    PlainGate(n, g, s.p);
    var k, j := 2 * Bit(s.neg), 2 * Bit(plain.neg);
    TurnTimesMat(k, GateDense(n, g), PauliMat(s.p));
    TurnTimesMat(k, SignedMat(plain), GateDense(n, g));
    TurnMatTurnMat(k, j, PauliMat(plain.p));
    TurnMatMod(k + j, 2 * Bit(s.neg != plain.neg), PauliMat(plain.p));
  }

  /** The matrix of a circuit, first gate applied first. */
  function CircuitDense(n: nat, gs: seq<Gate>): Mat {
    if |gs| == 0 then Identity(n) else Mul(GateDense(n, gs[|gs| - 1]), CircuitDense(n, gs[..|gs| - 1]))
  }

  /** A whole circuit: `C P == Push(P) C`, so a generator of a state becomes a generator of the prepared state. */
  lemma {:induction false} PushIsConjugation(n: nat, gs: seq<Gate>, s: Signed)
    requires s.p.On(n) && GatesOn(n, gs)
    ensures Mul(CircuitDense(n, gs), SignedMat(s)) == Mul(SignedMat(Push(gs, s)), CircuitDense(n, gs))
  {
    hide Mul, ApplyGate, GateDense, SignedMat, Identity, Square;
    if |gs| == 0 {
      SignedSquare(n, s);
      MulIdentity(n, SignedMat(s));
    } else {
      var k := |gs| - 1;
      var g, c := GateDense(n, gs[k]), CircuitDense(n, gs[..k]);
      var t := Push(gs[..k], s);
      PushIsConjugation(n, gs[..k], s);
      GateIsConjugation(n, gs[k], t);
      MulAssoc(g, c, SignedMat(s)); MulAssoc(g, SignedMat(t), c); MulAssoc(SignedMat(ApplyGate(gs[k], t)), g, c);
    }
  }

  /** For every simple graph and edge order, the preparation's matrix turns each `Z_q` into the listed generator. */
  lemma PreparedGenerators(n: nat, edges: seq<Edge>, order: seq<Edge>, q: nat)
    requires Bonds(n, edges) && SimpleGraph(edges) && Bonds(n, order) && multiset(order) == multiset(edges) && q < n
    ensures
      var c := CircuitDense(n, Preparation(n, order));
      Mul(c, PauliMat(Single(n, q, false, true))) == Mul(PauliMat(LabelKey(Listed(n, edges, q))), c)
  {
    hide Push, Preparation, LabelKey, SimpleGraph, Bonds, CircuitDense, Mul, PauliMat, TurnMat, Listed, Single;
    SimpleGraphPrepared(n, edges, order, q);
    PushIsConjugation(n, Preparation(n, order), ZeroGenerator(n, q));
    TurnMatNone(PauliMat(Single(n, q, false, true)));
    TurnMatNone(PauliMat(LabelKey(Listed(n, edges, q))));
  }

  lemma SignedSquare(n: nat, s: Signed)
    requires s.p.On(n)
    ensures Square(SignedMat(s), n)
  {
    hide PauliMat, TurnMat, Square;
    PauliMatSquare(s.p);
    TurnMatSquare(n, 2 * Bit(s.neg), PauliMat(s.p));
  }

  // ---- The matrices are unitary up to their scale ----

  function PlusCoefs(c: Coefs, d: Coefs): Coefs {
    Coefs(c.i.Plus(d.i), c.a.Plus(d.a), c.b.Plus(d.b), c.ab.Plus(d.ab))
  }

  function TimesCoefs(x: Complex, c: Coefs): Coefs {
    Coefs(x.Times(c.i), x.Times(c.a), x.Times(c.b), x.Times(c.ab))
  }

  lemma ComboPlus(n: nat, a: Mat, b: Mat, c: Coefs, d: Coefs)
    ensures Add(Combo(n, a, b, c), Combo(n, a, b, d)) == Combo(n, a, b, PlusCoefs(c, d))
  {
    hide Add, Scale, Mul, Identity, Complex.Plus;
    var e, ab := Identity(n), Mul(a, b);
    AddSwap(Add(Scale(c.i, e), Scale(c.a, a)), Add(Scale(c.b, b), Scale(c.ab, ab)),
            Add(Scale(d.i, e), Scale(d.a, a)), Add(Scale(d.b, b), Scale(d.ab, ab)));
    AddSwap(Scale(c.i, e), Scale(c.a, a), Scale(d.i, e), Scale(d.a, a));
    AddSwap(Scale(c.b, b), Scale(c.ab, ab), Scale(d.b, b), Scale(d.ab, ab));
    ScalePlus(c.i, d.i, e); ScalePlus(c.a, d.a, a); ScalePlus(c.b, d.b, b); ScalePlus(c.ab, d.ab, ab);
  }

  lemma ComboScale(n: nat, a: Mat, b: Mat, x: Complex, c: Coefs)
    ensures Scale(x, Combo(n, a, b, c)) == Combo(n, a, b, TimesCoefs(x, c))
  {
    hide Add, Scale, Mul, Identity, Complex.Times;
    var e, ab := Identity(n), Mul(a, b);
    ScaleAdd(x, Add(Scale(c.i, e), Scale(c.a, a)), Add(Scale(c.b, b), Scale(c.ab, ab)));
    ScaleAdd(x, Scale(c.i, e), Scale(c.a, a)); ScaleAdd(x, Scale(c.b, b), Scale(c.ab, ab));
    ScaleScale(x, c.i, e); ScaleScale(x, c.a, a); ScaleScale(x, c.b, b); ScaleScale(x, c.ab, ab);
  }

  /** The coefficients of a product. */
  function MulCoefs(k: int, d: Coefs, c: Coefs): Coefs {
    var bc := Coefs(c.b, Turn(k, c.ab), c.i, Turn(k, c.a));
    PlusCoefs(PlusCoefs(TimesCoefs(d.i, c), TimesCoefs(d.a, Coefs(c.a, c.i, c.ab, c.b))),
              PlusCoefs(TimesCoefs(d.b, bc), TimesCoefs(d.ab, Coefs(bc.a, bc.i, bc.ab, bc.b))))
  }

  lemma ComboMul(n: nat, a: Mat, b: Mat, k: int, d: Coefs, c: Coefs)
    requires Frame(n, a, b, k)
    ensures Mul(Combo(n, a, b, d), Combo(n, a, b, c)) == Combo(n, a, b, MulCoefs(k, d, c))
  {
    hide Add, Scale, Mul, Identity, Turn, Square, TurnMat, PlusCoefs, TimesCoefs;
    var e, ab, g := Identity(n), Mul(a, b), Combo(n, a, b, c);
    var ac := Coefs(c.a, c.i, c.ab, c.b);
    var bc := Coefs(c.b, Turn(k, c.ab), c.i, Turn(k, c.a));
    var abc := Coefs(bc.a, bc.i, bc.ab, bc.b);
    ComboSquare(n, a, b, c);
    LeftA(n, a, b, k, c); LeftB(n, a, b, k, c); LeftA(n, a, b, k, bc);
    Distribute(n, a, b, d, g);
    ComboScale(n, a, b, d.i, c); ComboScale(n, a, b, d.a, ac); ComboScale(n, a, b, d.b, bc); ComboScale(n, a, b, d.ab, abc);
    ComboPlus(n, a, b, TimesCoefs(d.i, c), TimesCoefs(d.a, ac));
    ComboPlus(n, a, b, TimesCoefs(d.b, bc), TimesCoefs(d.ab, abc));
    ComboPlus(n, a, b, PlusCoefs(TimesCoefs(d.i, c), TimesCoefs(d.a, ac)), PlusCoefs(TimesCoefs(d.b, bc), TimesCoefs(d.ab, abc)));
  }

  lemma Distribute(n: nat, a: Mat, b: Mat, d: Coefs, g: Mat)
    requires Square(g, n)
    ensures Mul(Combo(n, a, b, d), g)
         == Add(Add(Scale(d.i, g), Scale(d.a, Mul(a, g))), Add(Scale(d.b, Mul(b, g)), Scale(d.ab, Mul(a, Mul(b, g)))))
  {
    hide Add, Scale, Mul, Identity, Square;
    var e, ab := Identity(n), Mul(a, b);
    MulAddLeft(Add(Scale(d.i, e), Scale(d.a, a)), Add(Scale(d.b, b), Scale(d.ab, ab)), g);
    MulAddLeft(Scale(d.i, e), Scale(d.a, a), g); MulAddLeft(Scale(d.b, b), Scale(d.ab, ab), g);
    MulScaleLeft(d.i, e, g); MulScaleLeft(d.a, a, g); MulScaleLeft(d.b, b, g); MulScaleLeft(d.ab, ab, g);
    MulIdentity(n, g); MulAssoc(a, b, g);
  }

  lemma ComboDagger(n: nat, a: Mat, b: Mat, k: int, c: Coefs)
    requires Frame(n, a, b, k) && Dagger(a) == a && Dagger(b) == b
    ensures Dagger(Combo(n, a, b, c)) == Combo(n, a, b, Coefs(c.i.Conj(), c.a.Conj(), c.b.Conj(), Turn(k, c.ab.Conj())))
  {
    hide Add, Scale, Mul, Identity, Dagger, Turn, TurnMat, Square, Complex.Conj;
    var e, ab := Identity(n), Mul(a, b);
    DaggerAdd(Add(Scale(c.i, e), Scale(c.a, a)), Add(Scale(c.b, b), Scale(c.ab, ab)));
    DaggerAdd(Scale(c.i, e), Scale(c.a, a)); DaggerAdd(Scale(c.b, b), Scale(c.ab, ab));
    DaggerScale(c.i, e); DaggerScale(c.a, a); DaggerScale(c.b, b); DaggerScale(c.ab, ab);
    DaggerIdentity(n); DaggerMul(a, b);
    ScaleTurn(k, c.ab.Conj(), ab);
  }

  function Weight(g: Gate): Complex {
    if g.H? then Complex(2.0, 0.0) else Complex(4.0, 0.0)
  }

  function Adjoint(g: Gate): Coefs {
    if g.S? then Coefs(Complex(1.0, -1.0), Complex(1.0, 1.0), ZERO, ZERO) else GateCoefs(g)
  }

  lemma AdjointCoefs(g: Gate)
    ensures
      var c := GateCoefs(g);
      Coefs(c.i.Conj(), c.a.Conj(), c.b.Conj(), Turn(FrameSign(g), c.ab.Conj())) == Adjoint(g)
  {
    hide Turn, Complex.Conj;
    UnitTurns(); Rounds(MINUS); Rounds(ZERO);
    var c := GateCoefs(g);
    ConjParts(c.i); ConjParts(c.a); ConjParts(c.b); ConjParts(c.ab);
  }

  lemma ConjParts(c: Complex)
    ensures c.Conj() == Complex(c.re, -c.im)
  {
  }

  lemma PlusFour(w: Coefs, x: Coefs, y: Coefs, z: Coefs)
    ensures PlusCoefs(PlusCoefs(w, x), PlusCoefs(y, z))
         == Coefs(Complex(w.i.re + x.i.re + y.i.re + z.i.re, w.i.im + x.i.im + y.i.im + z.i.im),
                  Complex(w.a.re + x.a.re + y.a.re + z.a.re, w.a.im + x.a.im + y.a.im + z.a.im),
                  Complex(w.b.re + x.b.re + y.b.re + z.b.re, w.b.im + x.b.im + y.b.im + z.b.im),
                  Complex(w.ab.re + x.ab.re + y.ab.re + z.ab.re, w.ab.im + x.ab.im + y.ab.im + z.ab.im))
  {
  }

  lemma TimesUnit(c: Coefs)
    ensures TimesCoefs(ONE, c) == c && TimesCoefs(ZERO, c) == Coefs(ZERO, ZERO, ZERO, ZERO)
    ensures TimesCoefs(MINUS, c) == Coefs(c.i.Neg(), c.a.Neg(), c.b.Neg(), c.ab.Neg())
  {
    hide Complex.Times;
    TimesUnits(c.i); TimesUnits(c.a); TimesUnits(c.b); TimesUnits(c.ab);
  }

  lemma NegParts(c: Complex)
    ensures c.Neg() == Complex(-c.re, -c.im)
  {
  }

  lemma HadamardSquare(c: Coefs)
    requires c == Coefs(ZERO, ONE, ONE, ZERO)
    ensures MulCoefs(2, c, c) == Coefs(Complex(2.0, 0.0), ZERO, ZERO, ZERO)
  {
    hide Turn, TimesCoefs, PlusCoefs, Complex.Neg;
    UnitTurns();
    var ac := Coefs(c.a, c.i, c.ab, c.b);
    var bc := Coefs(c.b, Turn(2, c.ab), c.i, Turn(2, c.a));
    var abc := Coefs(bc.a, bc.i, bc.ab, bc.b);
    TimesUnit(c); TimesUnit(ac); TimesUnit(bc); TimesUnit(abc);
    PlusFour(TimesCoefs(c.i, c), TimesCoefs(c.a, ac), TimesCoefs(c.b, bc), TimesCoefs(c.ab, abc));
  }

  lemma ControlledSquare(c: Coefs)
    requires c == Coefs(ONE, ONE, ONE, MINUS)
    ensures MulCoefs(0, c, c) == Coefs(Complex(4.0, 0.0), ZERO, ZERO, ZERO)
  {
    hide Turn, TimesCoefs, PlusCoefs, Complex.Neg;
    Rounds(c.ab); Rounds(c.a);
    var ac := Coefs(c.a, c.i, c.ab, c.b);
    var bc := Coefs(c.b, c.ab, c.i, c.a);
    var abc := Coefs(c.ab, c.b, c.a, c.i);
    TimesUnit(c); TimesUnit(ac); TimesUnit(bc); TimesUnit(abc);
    NegParts(c.i); NegParts(c.ab);
    PlusFour(TimesCoefs(c.i, c), TimesCoefs(c.a, ac), TimesCoefs(c.b, bc), TimesCoefs(c.ab, abc));
  }

  lemma PhaseProducts(s: Complex, d: Complex)
    requires s.re == 1.0 && s.im == 1.0 && d.re == 1.0 && d.im == -1.0
    ensures d.Times(s) == Complex(2.0, 0.0) == s.Times(d)
    ensures d.Times(d) == Complex(0.0, -2.0) && s.Times(s) == Complex(0.0, 2.0)
  {
  }

  lemma PhaseSquare(d: Coefs, c: Coefs)
    requires c == Coefs(Complex(1.0, 1.0), Complex(1.0, -1.0), ZERO, ZERO) && d == Coefs(c.a, c.i, ZERO, ZERO)
    ensures MulCoefs(2, d, c) == Coefs(Complex(4.0, 0.0), ZERO, ZERO, ZERO)
  {
    hide Turn, PlusCoefs, Complex.Times;
    UnitTurns();
    PhaseProducts(c.i, c.a);
    var ac := Coefs(c.a, c.i, c.ab, c.b);
    var bc := Coefs(c.b, Turn(2, c.ab), c.i, Turn(2, c.a));
    var abc := Coefs(bc.a, bc.i, bc.ab, bc.b);
    TimesUnit(bc); TimesUnit(abc); TimesUnits(c.i); TimesUnits(c.a);
    PlusFour(TimesCoefs(d.i, c), TimesCoefs(d.a, ac), TimesCoefs(d.b, bc), TimesCoefs(d.ab, abc));
  }

  lemma SquareCoefs(g: Gate)
    ensures MulCoefs(FrameSign(g), Adjoint(g), GateCoefs(g)) == Coefs(Weight(g), ZERO, ZERO, ZERO)
  {
    hide MulCoefs;
    match g
    case H(_) => HadamardSquare(GateCoefs(g));
    case S(_) => PhaseSquare(Adjoint(g), GateCoefs(g));
    case Cnot(_, _) => ControlledSquare(GateCoefs(g));
    case Cz(_, _) => ControlledSquare(GateCoefs(g));
  }

  /** `G^dagger G` is 2 for `sqrt(2) H` and 4 for the gates written as twice themselves. */
  lemma GateScaledUnitary(n: nat, g: Gate)
    requires g.On(n)
    ensures Mul(Dagger(GateDense(n, g)), GateDense(n, g)) == Scale(Weight(g), Identity(n))
  {
    hide Mul, PauliMat, TurnMat, Identity, Combo, FrameA, FrameB, Frame, Turn, GateCoefs, Adjoint, MulCoefs, Dagger, Scale, Square;
    var a, b := PauliMat(FrameA(n, g)), PauliMat(FrameB(n, g));
    FrameOf(n, g);
    PauliDagger(FrameA(n, g)); PauliDagger(FrameB(n, g));
    ComboDagger(n, a, b, FrameSign(g), GateCoefs(g));
    AdjointCoefs(g);
    ComboMul(n, a, b, FrameSign(g), Adjoint(g), GateCoefs(g));
    SquareCoefs(g);
    PauliMatSquare(FrameA(n, g)); PauliMatSquare(FrameB(n, g));
    OnlyIdentity(n, a, b, Weight(g));
  }

  lemma OnlyIdentity(n: nat, a: Mat, b: Mat, w: Complex)
    requires Square(a, n) && Square(b, n)
    ensures Combo(n, a, b, Coefs(w, ZERO, ZERO, ZERO)) == Scale(w, Identity(n))
  {
    hide Add, Scale, Mul, Identity, Square, Zero;
    var e, ab := Identity(n), Mul(a, b);
    IdentitySquare(n); MulSquare(n, a, b); ScaleSquare(n, w, e);
    ScaleUnits(n, a); ScaleUnits(n, b); ScaleUnits(n, ab);
    ZeroSquare(n); AddZero(n, Scale(w, e)); AddZero(n, Zero(n));
  }

  // ---- The literal gate matrices ----

  /** A two by two matrix. */
  function Two(a: Complex, b: Complex, c: Complex, d: Complex): Mat {
    Block(Scalar(a), Scalar(b), Scalar(c), Scalar(d))
  }

  lemma OneQubit(x: bool, z: bool)
    ensures PauliMat(Single(1, 0, x, z)) == PauliKron(x, z, 0, Scalar(ONE))
  {
    hide PauliKron;
    var p := Single(1, 0, x, z);
    PauliMatStep(p); PauliMatStep(Tail(p));
  }

  lemma PauliLiterals()
    ensures PauliMat(Single(1, 0, true, false)) == Two(ZERO, ONE, ONE, ZERO)
    ensures PauliMat(Single(1, 0, false, true)) == Two(ONE, ZERO, ZERO, MINUS)
    ensures Identity(1) == Two(ONE, ZERO, ZERO, ONE) && Zero(1) == Two(ZERO, ZERO, ZERO, ZERO)
  {
    hide PauliMat, Turn, TurnMat, Zero, Identity, Single;
    OneQubit(true, false); OneQubit(false, true);
    ZeroStep(0); ZeroStep(1); IdentityStep(0); IdentityStep(1);
    TurnMatStep(2, Scalar(ONE)); UnitTurns();
  }

  lemma AddTwo(a: Complex, b: Complex, c: Complex, d: Complex, p: Complex, q: Complex, r: Complex, s: Complex)
    ensures Add(Two(a, b, c, d), Two(p, q, r, s)) == Two(a.Plus(p), b.Plus(q), c.Plus(r), d.Plus(s))
  {
    hide Add, Complex.Plus;
    AddStep(Two(a, b, c, d), Two(p, q, r, s));
    AddStep(Scalar(a), Scalar(p)); AddStep(Scalar(b), Scalar(q)); AddStep(Scalar(c), Scalar(r)); AddStep(Scalar(d), Scalar(s));
  }

  lemma ScaleTwo(w: Complex, a: Complex, b: Complex, c: Complex, d: Complex)
    ensures Scale(w, Two(a, b, c, d)) == Two(w.Times(a), w.Times(b), w.Times(c), w.Times(d))
  {
    hide Scale, Complex.Times;
    ScaleStep(w, Two(a, b, c, d));
    ScaleStep(w, Scalar(a)); ScaleStep(w, Scalar(b)); ScaleStep(w, Scalar(c)); ScaleStep(w, Scalar(d));
  }

  /** `sqrt(2) H` is the sign matrix of the source. */
  lemma HadamardLiteral()
    ensures GateDense(1, H(0)) == Two(ONE, ONE, ONE, MINUS)
  {
    hide PauliMat, Identity, Zero, Add, Scale, Mul, Square, Complex.Plus, Single, Two;
    var a, b := PauliMat(Single(1, 0, true, false)), PauliMat(Single(1, 0, false, true));
    PauliLiterals();
    PauliMatSquare(Single(1, 0, true, false)); PauliMatSquare(Single(1, 0, false, true));
    IdentitySquare(1); MulSquare(1, a, b);
    ScaleUnits(1, a); ScaleUnits(1, b); ScaleUnits(1, Identity(1)); ScaleUnits(1, Mul(a, b));
    AddZero(1, a); AddZero(1, b);
    AddTwo(ZERO, ONE, ONE, ZERO, ONE, ZERO, ZERO, MINUS);
    PlusZero(ONE); PlusZero(MINUS);
  }

  /** `2 S` is twice the source's `diag(1, i)`. */
  lemma PhaseLiteral()
    ensures GateDense(1, S(0)) == Two(Complex(2.0, 0.0), ZERO, ZERO, Complex(0.0, 2.0))
  {
    hide PauliMat, Identity, Zero, Add, Scale, Mul, Square, Complex.Plus, Complex.Times, Single, Two;
    var z, x := PauliMat(Single(1, 0, false, true)), PauliMat(Single(1, 0, true, false));
    var u, v := Complex(1.0, 1.0), Complex(1.0, -1.0);
    PauliLiterals();
    PauliMatSquare(Single(1, 0, true, false)); PauliMatSquare(Single(1, 0, false, true));
    MulSquare(1, z, x); IdentitySquare(1); ScaleSquare(1, u, Identity(1)); ScaleSquare(1, v, z);
    AddSquare(1, Scale(u, Identity(1)), Scale(v, z));
    ScaleUnits(1, x); ScaleUnits(1, Mul(z, x));
    ZeroSquare(1); AddZero(1, Zero(1)); AddZero(1, Add(Scale(u, Identity(1)), Scale(v, z)));
    ScaleTwo(u, ONE, ZERO, ZERO, ONE); ScaleTwo(v, ONE, ZERO, ZERO, MINUS);
    TimesUnits(u); TimesUnits(v); MinusTimes(v);
    AddTwo(u, ZERO, ZERO, u, v, ZERO, ZERO, Complex(-1.0, 1.0));
    PlusZero(ZERO); PartsPlus(u, v); PartsPlus(u, Complex(-1.0, 1.0));
  }

  lemma MinusTimes(c: Complex)
    ensures c.Times(MINUS) == Complex(-c.re, -c.im)
  {
  }

  lemma PartsPlus(a: Complex, b: Complex)
    ensures a.Plus(b) == Complex(a.re + b.re, a.im + b.im)
  {
  }

  /** Two qubits, the first one diagonal. */
  function Diagonal(a: Mat, b: Mat): Mat {
    Block(a, Zero(1), Zero(1), b)
  }

  lemma TwoQubits(x: bool, z: bool)
    ensures PauliMat(Single(2, 1, x, z)) == Diagonal(PauliMat(Single(1, 0, x, z)), PauliMat(Single(1, 0, x, z)))
    ensures PauliMat(Single(2, 0, false, true)) == Diagonal(Identity(1), TurnMat(2, Identity(1)))
    ensures Identity(2) == Diagonal(Identity(1), Identity(1))
  {
    hide PauliMat, Identity, Zero, TurnMat;
    var p, q := Single(2, 1, x, z), Single(2, 0, false, true);
    PauliMatStep(p); PauliMatStep(q);
    SingleTail(2, 1, x, z); SingleTail(2, 0, false, true);
    IdentityKeyMat(1);
    IdentityStep(2);
  }

  lemma DiagonalAdd(a: Mat, b: Mat, c: Mat, d: Mat)
    ensures Add(Diagonal(a, b), Diagonal(c, d)) == Diagonal(Add(a, c), Add(b, d))
  {
    hide Add, Zero, Square;
    AddStep(Diagonal(a, b), Diagonal(c, d));
    ZeroSquare(1); AddZero(1, Zero(1));
  }

  lemma DiagonalMul(a: Mat, b: Mat, c: Mat, d: Mat)
    requires Square(a, 1) && Square(b, 1) && Square(c, 1) && Square(d, 1)
    ensures Mul(Diagonal(a, b), Diagonal(c, d)) == Diagonal(Mul(a, c), Mul(b, d))
  {
    hide Add, Zero, Square, Mul;
    MulStep(Diagonal(a, b), Diagonal(c, d));
    ZeroSquare(1); AddZero(1, Zero(1)); MulZero(1, Zero(1));
    MulZero(1, a); MulZero(1, b); MulZero(1, c); MulZero(1, d);
    MulSquare(1, a, c); MulSquare(1, b, d); AddZero(1, Mul(a, c)); AddZero(1, Mul(b, d));
  }

  lemma DiagonalTurn(k: int, a: Mat, b: Mat)
    ensures TurnMat(k, Diagonal(a, b)) == Diagonal(TurnMat(k, a), TurnMat(k, b))
  {
    hide TurnMat, Zero;
    TurnMatStep(k, Diagonal(a, b));
    TurnMatZero(1, k);
  }

  /** Twice a controlled gate: nothing on one half, the target's matrix on the other. */
  lemma ControlledLiteral(g: Gate, m: Mat)
    requires (g == Cnot(0, 1) && m == PauliMat(Single(1, 0, true, false))) || (g == Cz(0, 1) && m == PauliMat(Single(1, 0, false, true)))
    ensures GateDense(2, g) == Diagonal(Scale(TWO, Identity(1)), Scale(TWO, m))
  {
    hide PauliMat, Identity, Zero, Add, Scale, Mul, Square, TurnMat, Single, Diagonal;
    var e, n := Identity(1), TurnMat(2, Identity(1));
    var a, b := PauliMat(FrameA(2, g)), PauliMat(FrameB(2, g));
    TwoQubits(true, false); TwoQubits(false, true);
    PauliMatSquare(Single(1, 0, true, false)); PauliMatSquare(Single(1, 0, false, true));
    IdentitySquare(1); TurnMatSquare(1, 2, e); TurnMatSquare(1, 2, m);
    assert a == Diagonal(e, n) && b == Diagonal(m, m);
    DiagonalMul(e, n, m, m);
    MulIdentity(1, m); TurnTimesMat(2, e, m);
    assert Mul(a, b) == Diagonal(m, TurnMat(2, m));
    UnitScales(2, Identity(2), a, b, Mul(a, b), g);
    DiagonalTurn(2, m, TurnMat(2, m));
    DiagonalAdd(e, e, e, n); DiagonalAdd(m, m, TurnMat(2, m), TurnMat(2, TurnMat(2, m)));
    TurnMatTurnMat(2, 2, m); TurnMatMod(4, 0, m); TurnMatNone(m);
    DoubleOrNothing(1, e); DoubleOrNothing(1, m);
    DiagonalAdd(Scale(TWO, e), Zero(1), Zero(1), Scale(TWO, m));
    ScaleSquare(1, TWO, e); ScaleSquare(1, TWO, m); AddZero(1, Scale(TWO, e)); AddZero(1, Scale(TWO, m));
  }

  /** Coefficients 1 and -1 as themselves and as a half turn. */
  lemma UnitScales(n: nat, e: Mat, a: Mat, b: Mat, ab: Mat, g: Gate)
    requires g.On(n) && n == 2 && (g.Cnot? || g.Cz?)
    requires e == Identity(n) && a == PauliMat(FrameA(n, g)) && b == PauliMat(FrameB(n, g)) && ab == Mul(a, b)
    ensures GateDense(n, g) == Add(Add(e, a), Add(b, TurnMat(2, ab)))
  {
    hide PauliMat, Identity, Add, Scale, Mul, Square, TurnMat, FrameA, FrameB, IPow;
    PauliMatSquare(FrameA(n, g)); PauliMatSquare(FrameB(n, g)); IdentitySquare(n); MulSquare(n, a, b);
    ScaleUnits(n, e); ScaleUnits(n, a); ScaleUnits(n, b);
    TurnMatIsScale(2, ab); Signs();
  }
}
