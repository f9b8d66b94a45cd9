/** Complex numbers over exact reals, the coefficient field of every Pauli sum. */
module Complexes {

  datatype Complex = Complex(re: real, im: real) {

    function Plus(b: Complex): Complex {
      Complex(re + b.re, im + b.im)
    }

    function Times(b: Complex): Complex {
      Complex(re * b.re - im * b.im, re * b.im + im * b.re)
    }

    function Neg(): Complex {
      Complex(-re, -im)
    }

    function Conj(): Complex {
      Complex(re, -im)
    }

    /** `|c|^2`. */
    function Abs2(): real {
      re * re + im * im
    }
  }

  const ZERO := Complex(0.0, 0.0)
  const ONE := Complex(1.0, 0.0)
  const IMAG := Complex(0.0, 1.0)

  function Real(r: real): Complex {
    Complex(r, 0.0)
  }

  /** `i^k c`, with the exponent reduced mod 4. */
  function Turn(k: int, c: Complex): Complex {
    var r := k % 4;
    if r == 0 then c
    else if r == 1 then Complex(-c.im, c.re)
    else if r == 2 then c.Neg()
    else Complex(c.im, -c.re)
  }

  /** The phase `i^k`. */
  function IPow(k: int): Complex {
    Turn(k, ONE)
  }

  lemma PlusAssoc(a: Complex, b: Complex, c: Complex)
    ensures a.Plus(b).Plus(c) == a.Plus(b.Plus(c))
  {
  }

  lemma PlusComm(a: Complex, b: Complex)
    ensures a.Plus(b) == b.Plus(a)
  {
  }

  lemma PlusZero(a: Complex)
    ensures a.Plus(ZERO) == a == ZERO.Plus(a)
  {
  }

  lemma ConjPlus(a: Complex, b: Complex)
    ensures a.Plus(b).Conj() == a.Conj().Plus(b.Conj())
  {
  }

  lemma ConjConj(a: Complex)
    ensures a.Conj().Conj() == a
  {
  }

  lemma ConjReal(c: Complex)
    requires c.im == 0.0
    ensures c.Conj() == c
  {
  }

  lemma ConjUnits()
    ensures ZERO.Conj() == ZERO && ONE.Conj() == ONE
  {
    var o, e := ZERO, ONE;
    assert o.im == 0.0 && e.im == 0.0;
    hide Complex.Conj;
    ConjReal(o);
    ConjReal(e);
  }

  lemma PlusSwap(a: Complex, b: Complex, c: Complex, d: Complex)
    ensures a.Plus(b).Plus(c.Plus(d)) == a.Plus(c).Plus(b.Plus(d))
  {
  }

  lemma TimesComm(a: Complex, b: Complex)
    ensures a.Times(b) == b.Times(a)
  {
  }

  lemma TimesAssoc(a: Complex, b: Complex, c: Complex)
    ensures a.Times(b).Times(c) == a.Times(b.Times(c))
  {
  }

  lemma TimesPlus(a: Complex, b: Complex, c: Complex)
    ensures a.Times(b.Plus(c)) == a.Times(b).Plus(a.Times(c))
    ensures b.Plus(c).Times(a) == b.Times(a).Plus(c.Times(a))
  {
  }

  lemma ConjTimes(a: Complex, b: Complex)
    ensures a.Times(b).Conj() == a.Conj().Times(b.Conj())
  {
  }

  lemma ConjSelf(a: Complex)
    ensures a.Conj().Times(a) == Real(a.Abs2())
    ensures a.Times(a.Conj()) == Real(a.Abs2())
  {
  }

  lemma TimesUnits(c: Complex)
    ensures ONE.Times(c) == c == c.Times(ONE)
    ensures ZERO.Times(c) == ZERO == c.Times(ZERO)
    ensures IMAG.Times(c) == Complex(-c.im, c.re)
    ensures Complex(-1.0, 0.0).Times(c) == c.Neg()
    ensures Complex(0.0, -1.0).Times(c) == Complex(c.im, -c.re)
  {
  }

  lemma ModSum(j: int, k: int)
    ensures (j + k) % 4 == if j % 4 + k % 4 < 4 then j % 4 + k % 4 else j % 4 + k % 4 - 4
  {
  }

  lemma TurnTurn(j: int, k: int, c: Complex)
    ensures Turn(j, Turn(k, c)) == Turn(j + k, c)
  {
    ModSum(j, k);
  }

  lemma TurnMod(j: int, k: int, c: Complex)
    requires j % 4 == k % 4
    ensures Turn(j, c) == Turn(k, c)
  {
  }

  lemma TurnNone(c: Complex)
    ensures Turn(0, c) == c
  {
  }

  lemma TurnLeft(k: int, a: Complex, b: Complex)
    ensures Turn(k, a).Times(b) == Turn(k, a.Times(b))
  {
    hide Complex.Times;
    QuarterTurns(a, b);
  }

  lemma QuarterTurns(a: Complex, b: Complex)
    ensures Complex(-a.im, a.re).Times(b) == Complex(-a.Times(b).im, a.Times(b).re)
    ensures a.Neg().Times(b) == a.Times(b).Neg()
    ensures Complex(a.im, -a.re).Times(b) == Complex(a.Times(b).im, -a.Times(b).re)
  {
  }

  lemma TurnPlus(k: int, a: Complex, b: Complex)
    ensures Turn(k, a.Plus(b)) == Turn(k, a).Plus(Turn(k, b))
  {
  }

  lemma TurnConj(k: int, a: Complex)
    ensures Turn(k, a).Conj() == Turn(-k, a.Conj())
  {
    NegMod(k);
  }

  lemma NegMod(k: int)
    ensures (-k) % 4 == if k % 4 == 0 then 0 else 4 - k % 4
  {
  }

  /** Multiplying by the phase `i^k` is `Turn`. */
  lemma IPowTimes(k: int, c: Complex)
    ensures IPow(k).Times(c) == Turn(k, c) == c.Times(IPow(k))
  {
    TurnLeft(k, ONE, c);
    TimesUnits(c);
    TimesComm(IPow(k), c);
  }

  /** The product of two reals, named so that proofs can treat it abstractly. */
  function Prod(a: real, b: real): real {
    a * b
  }

  lemma ProdLaws(a: real, b: real, c: real)
    ensures Prod(a, b) == Prod(b, a)
    ensures Prod(a, Prod(b, c)) == Prod(Prod(a, b), c)
    ensures Prod(a, b + c) == Prod(a, b) + Prod(a, c)
  {
  }

  lemma ProdUnits(a: real, b: real)
    ensures Prod(1.0, a) == a == Prod(a, 1.0)
    ensures Prod(0.0, a) == 0.0 == Prod(a, 0.0)
    ensures Prod(-a, b) == -Prod(a, b) == Prod(a, -b)
  {
  }
}
