/**
 Dense `2^n x 2^n` matrices, the ground truth every symplectic algorithm is compared with.
 A matrix is a scalar (`n = 0`) or four half-size blocks split by the first qubit,
 and every law below is proved blockwise.  `Mismatch` is the
 result of combining matrices of different sizes; the ring laws then need no side condition.

 Proofs hide the recursive definitions and unfold them one block level at a time through the
 `...Step` lemmas.
 */
module Dense {
  import opened Complexes

  datatype Mat = Scalar(v: Complex) | Block(nw: Mat, ne: Mat, sw: Mat, se: Mat) | Mismatch

  function Add(a: Mat, b: Mat): Mat {
    match (a, b)
    case (Scalar(u), Scalar(v)) => Scalar(u.Plus(v))
    case (Block(p, q, r, s), Block(p', q', r', s')) => Block(Add(p, p'), Add(q, q'), Add(r, r'), Add(s, s'))
    case _ => Mismatch
  }

  function Scale(c: Complex, a: Mat): Mat {
    match a
    case Scalar(v) => Scalar(c.Times(v))
    case Block(p, q, r, s) => Block(Scale(c, p), Scale(c, q), Scale(c, r), Scale(c, s))
    case Mismatch => Mismatch
  }

  /** Multiplication by the phase `i^k`. */
  function TurnMat(k: int, a: Mat): Mat {
    match a
    case Scalar(v) => Scalar(Turn(k, v))
    case Block(p, q, r, s) => Block(TurnMat(k, p), TurnMat(k, q), TurnMat(k, r), TurnMat(k, s))
    case Mismatch => Mismatch
  }

  function Mul(a: Mat, b: Mat): Mat {
    match (a, b)
    case (Scalar(u), Scalar(v)) => Scalar(u.Times(v))
    case (Block(p, q, r, s), Block(p', q', r', s')) =>
      Block(Add(Mul(p, p'), Mul(q, r')), Add(Mul(p, q'), Mul(q, s')),
            Add(Mul(r, p'), Mul(s, r')), Add(Mul(r, q'), Mul(s, s')))
    case _ => Mismatch
  }

  /** Conjugate transpose. */
  function Dagger(a: Mat): Mat {
    match a
    case Scalar(v) => Scalar(v.Conj())
    case Block(p, q, r, s) => Block(Dagger(p), Dagger(r), Dagger(q), Dagger(s))
    case Mismatch => Mismatch
  }

  /** `m` is a full `2^n x 2^n` matrix. */
  predicate Square(m: Mat, n: nat)
    decreases m
  {
    match m
    case Scalar(_) => n == 0
    case Block(p, q, r, s) => n > 0 && Square(p, n - 1) && Square(q, n - 1) && Square(r, n - 1) && Square(s, n - 1)
    case Mismatch => false
  }

  function Trace(a: Mat): Complex {
    match a
    case Scalar(v) => v
    case Block(p, q, r, s) => Trace(p).Plus(Trace(s))
    case Mismatch => ZERO
  }

  function Zero(n: nat): Mat {
    if n == 0 then Scalar(ZERO)
    else Block(Zero(n - 1), Zero(n - 1), Zero(n - 1), Zero(n - 1))
  }

  function Identity(n: nat): Mat {
    if n == 0 then Scalar(ONE)
    else Block(Identity(n - 1), Zero(n - 1), Zero(n - 1), Identity(n - 1))
  }

  // ---- One block level of each definition ----

  lemma AddStep(a: Mat, b: Mat)
    ensures a.Scalar? && b.Scalar? ==> Add(a, b) == Scalar(a.v.Plus(b.v))
    ensures a.Block? && b.Block? ==>
              Add(a, b) == Block(Add(a.nw, b.nw), Add(a.ne, b.ne), Add(a.sw, b.sw), Add(a.se, b.se))
    ensures !(a.Scalar? && b.Scalar?) && !(a.Block? && b.Block?) ==> Add(a, b) == Mismatch
  {
  }

  lemma ScaleStep(c: Complex, a: Mat)
    ensures a.Scalar? ==> Scale(c, a) == Scalar(c.Times(a.v))
    ensures a.Block? ==> Scale(c, a) == Block(Scale(c, a.nw), Scale(c, a.ne), Scale(c, a.sw), Scale(c, a.se))
    ensures a.Mismatch? ==> Scale(c, a) == Mismatch
  {
  }

  lemma TurnMatStep(k: int, a: Mat)
    ensures a.Scalar? ==> TurnMat(k, a) == Scalar(Turn(k, a.v))
    ensures a.Block? ==>
              TurnMat(k, a) == Block(TurnMat(k, a.nw), TurnMat(k, a.ne), TurnMat(k, a.sw), TurnMat(k, a.se))
    ensures a.Mismatch? ==> TurnMat(k, a) == Mismatch
  {
  }

  lemma MulStep(a: Mat, b: Mat)
    ensures a.Scalar? && b.Scalar? ==> Mul(a, b) == Scalar(a.v.Times(b.v))
    ensures a.Block? && b.Block? ==>
              Mul(a, b) == Block(Add(Mul(a.nw, b.nw), Mul(a.ne, b.sw)), Add(Mul(a.nw, b.ne), Mul(a.ne, b.se)),
                                 Add(Mul(a.sw, b.nw), Mul(a.se, b.sw)), Add(Mul(a.sw, b.ne), Mul(a.se, b.se)))
    ensures !(a.Scalar? && b.Scalar?) && !(a.Block? && b.Block?) ==> Mul(a, b) == Mismatch
  {
  }

  lemma DaggerStep(a: Mat)
    ensures a.Scalar? ==> Dagger(a) == Scalar(a.v.Conj())
    ensures a.Block? ==> Dagger(a) == Block(Dagger(a.nw), Dagger(a.sw), Dagger(a.ne), Dagger(a.se))
    ensures a.Mismatch? ==> Dagger(a) == Mismatch
  {
  }

  lemma SquareStep(a: Mat, n: nat)
    ensures n == 0 ==> (Square(a, n) <==> a.Scalar?)
    ensures n > 0 ==> (Square(a, n) <==> a.Block? && Square(a.nw, n - 1) && Square(a.ne, n - 1)
                                         && Square(a.sw, n - 1) && Square(a.se, n - 1))
  {
  }

  lemma TraceStep(a: Mat)
    ensures a.Scalar? ==> Trace(a) == a.v
    ensures a.Block? ==> Trace(a) == Trace(a.nw).Plus(Trace(a.se))
  {
  }

  lemma ZeroStep(n: nat)
    ensures n == 0 ==> Zero(n) == Scalar(ZERO)
    ensures n > 0 ==> Zero(n) == Block(Zero(n - 1), Zero(n - 1), Zero(n - 1), Zero(n - 1))
  {
  }

  lemma IdentityStep(n: nat)
    ensures n == 0 ==> Identity(n) == Scalar(ONE)
    ensures n > 0 ==> Identity(n) == Block(Identity(n - 1), Zero(n - 1), Zero(n - 1), Identity(n - 1))
  {
  }

  lemma {:induction false} AddComm(a: Mat, b: Mat)
    ensures Add(a, b) == Add(b, a)
  {
    hide *;
    AddStep(a, b); AddStep(b, a);
    if a.Scalar? && b.Scalar? {
      PlusComm(a.v, b.v);
    } else if a.Block? && b.Block? {
      AddComm(a.nw, b.nw); AddComm(a.ne, b.ne);
      AddComm(a.sw, b.sw); AddComm(a.se, b.se);
    }
  }

  lemma {:induction false} AddAssoc(a: Mat, b: Mat, c: Mat)
    ensures Add(Add(a, b), c) == Add(a, Add(b, c))
  {
    hide *;
    AddStep(a, b); AddStep(b, c); AddStep(Add(a, b), c); AddStep(a, Add(b, c));
    if a.Scalar? && b.Scalar? && c.Scalar? {
      PlusAssoc(a.v, b.v, c.v);
    } else if a.Block? && b.Block? && c.Block? {
      AddAssoc(a.nw, b.nw, c.nw); AddAssoc(a.ne, b.ne, c.ne);
      AddAssoc(a.sw, b.sw, c.sw); AddAssoc(a.se, b.se, c.se);
    }
  }

  /** The exchange `(a + b) + (c + d) == (a + c) + (b + d)` that every block law needs. */
  lemma AddSwap(a: Mat, b: Mat, c: Mat, d: Mat)
    ensures Add(Add(a, b), Add(c, d)) == Add(Add(a, c), Add(b, d))
  {
    hide *;
    AddAssoc(a, b, Add(c, d));
    AddAssoc(b, c, d);
    AddComm(b, c);
    AddAssoc(c, b, d);
    AddAssoc(a, c, Add(b, d));
  }

  lemma {:induction false} ScaleAdd(c: Complex, a: Mat, b: Mat)
    ensures Scale(c, Add(a, b)) == Add(Scale(c, a), Scale(c, b))
  {
    hide *;
    AddStep(a, b); ScaleStep(c, a); ScaleStep(c, b); ScaleStep(c, Add(a, b)); AddStep(Scale(c, a), Scale(c, b));
    if a.Scalar? && b.Scalar? {
      TimesPlus(c, a.v, b.v);
    } else if a.Block? && b.Block? {
      ScaleAdd(c, a.nw, b.nw); ScaleAdd(c, a.ne, b.ne);
      ScaleAdd(c, a.sw, b.sw); ScaleAdd(c, a.se, b.se);
    }
  }

  lemma {:induction false} ScalePlus(c: Complex, d: Complex, a: Mat)
    ensures Scale(c.Plus(d), a) == Add(Scale(c, a), Scale(d, a))
  {
    hide *;
    ScaleStep(c, a); ScaleStep(d, a); ScaleStep(c.Plus(d), a); AddStep(Scale(c, a), Scale(d, a));
    if a.Scalar? {
      TimesPlus(a.v, c, d);
    } else if a.Block? {
      ScalePlus(c, d, a.nw); ScalePlus(c, d, a.ne);
      ScalePlus(c, d, a.sw); ScalePlus(c, d, a.se);
    }
  }

  lemma {:induction false} ScaleScale(c: Complex, d: Complex, a: Mat)
    ensures Scale(c, Scale(d, a)) == Scale(c.Times(d), a)
  {
    hide *;
    ScaleStep(d, a); ScaleStep(c, Scale(d, a)); ScaleStep(c.Times(d), a);
    if a.Scalar? {
      TimesAssoc(c, d, a.v);
    } else if a.Block? {
      ScaleScale(c, d, a.nw); ScaleScale(c, d, a.ne);
      ScaleScale(c, d, a.sw); ScaleScale(c, d, a.se);
    }
  }

  lemma {:induction false} MulScaleLeft(c: Complex, a: Mat, b: Mat)
    ensures Mul(Scale(c, a), b) == Scale(c, Mul(a, b))
  {
    hide *;
    ScaleStep(c, a); MulStep(a, b); MulStep(Scale(c, a), b); ScaleStep(c, Mul(a, b));
    if a.Scalar? && b.Scalar? {
      TimesAssoc(c, a.v, b.v);
    } else if a.Block? && b.Block? {
      MulScaleLeft(c, a.nw, b.nw); MulScaleLeft(c, a.ne, b.sw); ScaleAdd(c, Mul(a.nw, b.nw), Mul(a.ne, b.sw));
      MulScaleLeft(c, a.nw, b.ne); MulScaleLeft(c, a.ne, b.se); ScaleAdd(c, Mul(a.nw, b.ne), Mul(a.ne, b.se));
      MulScaleLeft(c, a.sw, b.nw); MulScaleLeft(c, a.se, b.sw); ScaleAdd(c, Mul(a.sw, b.nw), Mul(a.se, b.sw));
      MulScaleLeft(c, a.sw, b.ne); MulScaleLeft(c, a.se, b.se); ScaleAdd(c, Mul(a.sw, b.ne), Mul(a.se, b.se));
    }
  }

  lemma {:induction false} MulScaleRight(c: Complex, a: Mat, b: Mat)
    ensures Mul(a, Scale(c, b)) == Scale(c, Mul(a, b))
  {
    hide *;
    ScaleStep(c, b); MulStep(a, b); MulStep(a, Scale(c, b)); ScaleStep(c, Mul(a, b));
    if a.Scalar? && b.Scalar? {
      TimesComm(a.v, c.Times(b.v)); TimesAssoc(c, b.v, a.v); TimesComm(b.v, a.v);
    } else if a.Block? && b.Block? {
      MulScaleRight(c, a.nw, b.nw); MulScaleRight(c, a.ne, b.sw); ScaleAdd(c, Mul(a.nw, b.nw), Mul(a.ne, b.sw));
      MulScaleRight(c, a.nw, b.ne); MulScaleRight(c, a.ne, b.se); ScaleAdd(c, Mul(a.nw, b.ne), Mul(a.ne, b.se));
      MulScaleRight(c, a.sw, b.nw); MulScaleRight(c, a.se, b.sw); ScaleAdd(c, Mul(a.sw, b.nw), Mul(a.se, b.sw));
      MulScaleRight(c, a.sw, b.ne); MulScaleRight(c, a.se, b.se); ScaleAdd(c, Mul(a.sw, b.ne), Mul(a.se, b.se));
    }
  }

  lemma {:induction false} MulAddLeft(a: Mat, b: Mat, c: Mat)
    ensures Mul(Add(a, b), c) == Add(Mul(a, c), Mul(b, c))
  {
    hide *;
    AddStep(a, b); MulStep(a, c); MulStep(b, c); MulStep(Add(a, b), c); AddStep(Mul(a, c), Mul(b, c));
    if a.Scalar? && b.Scalar? && c.Scalar? {
      TimesPlus(c.v, a.v, b.v);
    } else if a.Block? && b.Block? && c.Block? {
      MulAddLeft(a.nw, b.nw, c.nw); MulAddLeft(a.ne, b.ne, c.sw);
      AddSwap(Mul(a.nw, c.nw), Mul(b.nw, c.nw), Mul(a.ne, c.sw), Mul(b.ne, c.sw));
      MulAddLeft(a.nw, b.nw, c.ne); MulAddLeft(a.ne, b.ne, c.se);
      AddSwap(Mul(a.nw, c.ne), Mul(b.nw, c.ne), Mul(a.ne, c.se), Mul(b.ne, c.se));
      MulAddLeft(a.sw, b.sw, c.nw); MulAddLeft(a.se, b.se, c.sw);
      AddSwap(Mul(a.sw, c.nw), Mul(b.sw, c.nw), Mul(a.se, c.sw), Mul(b.se, c.sw));
      MulAddLeft(a.sw, b.sw, c.ne); MulAddLeft(a.se, b.se, c.se);
      AddSwap(Mul(a.sw, c.ne), Mul(b.sw, c.ne), Mul(a.se, c.se), Mul(b.se, c.se));
    }
  }

  lemma {:induction false} MulAddRight(a: Mat, b: Mat, c: Mat)
    ensures Mul(a, Add(b, c)) == Add(Mul(a, b), Mul(a, c))
  {
    hide *;
    AddStep(b, c); MulStep(a, b); MulStep(a, c); MulStep(a, Add(b, c)); AddStep(Mul(a, b), Mul(a, c));
    if a.Scalar? && b.Scalar? && c.Scalar? {
      TimesPlus(a.v, b.v, c.v);
    } else if a.Block? && b.Block? && c.Block? {
      MulAddRight(a.nw, b.nw, c.nw); MulAddRight(a.ne, b.sw, c.sw);
      AddSwap(Mul(a.nw, b.nw), Mul(a.nw, c.nw), Mul(a.ne, b.sw), Mul(a.ne, c.sw));
      MulAddRight(a.nw, b.ne, c.ne); MulAddRight(a.ne, b.se, c.se);
      AddSwap(Mul(a.nw, b.ne), Mul(a.nw, c.ne), Mul(a.ne, b.se), Mul(a.ne, c.se));
      MulAddRight(a.sw, b.nw, c.nw); MulAddRight(a.se, b.sw, c.sw);
      AddSwap(Mul(a.sw, b.nw), Mul(a.sw, c.nw), Mul(a.se, b.sw), Mul(a.se, c.sw));
      MulAddRight(a.sw, b.ne, c.ne); MulAddRight(a.se, b.se, c.se);
      AddSwap(Mul(a.sw, b.ne), Mul(a.sw, c.ne), Mul(a.se, b.se), Mul(a.se, c.se));
    }
  }

  /** One block of `(a b) c == a (b c)`: a row `(p, q)` times a 2x2 block matrix times a column `(y, z)`. */
  lemma MulAssocBlock(p: Mat, q: Mat, b: Mat, c: Mat, d: Mat, e: Mat, y: Mat, z: Mat)
    requires Mul(Mul(p, b), y) == Mul(p, Mul(b, y))
    requires Mul(Mul(q, d), y) == Mul(q, Mul(d, y))
    requires Mul(Mul(p, c), z) == Mul(p, Mul(c, z))
    requires Mul(Mul(q, e), z) == Mul(q, Mul(e, z))
    ensures Add(Mul(Add(Mul(p, b), Mul(q, d)), y), Mul(Add(Mul(p, c), Mul(q, e)), z))
         == Add(Mul(p, Add(Mul(b, y), Mul(c, z))), Mul(q, Add(Mul(d, y), Mul(e, z))))
  {
    hide *;
    MulAddLeft(Mul(p, b), Mul(q, d), y);
    MulAddLeft(Mul(p, c), Mul(q, e), z);
    MulAddRight(p, Mul(b, y), Mul(c, z));
    MulAddRight(q, Mul(d, y), Mul(e, z));
    AddSwap(Mul(Mul(p, b), y), Mul(Mul(q, d), y), Mul(Mul(p, c), z), Mul(Mul(q, e), z));
  }

  lemma {:induction false} MulAssoc(a: Mat, b: Mat, c: Mat)
    ensures Mul(Mul(a, b), c) == Mul(a, Mul(b, c))
  {
    hide *;
    MulStep(a, b); MulStep(b, c); MulStep(Mul(a, b), c); MulStep(a, Mul(b, c));
    if a.Scalar? && b.Scalar? && c.Scalar? {
      TimesAssoc(a.v, b.v, c.v);
    } else if a.Block? && b.Block? && c.Block? {
      MulAssoc(a.nw, b.nw, c.nw); MulAssoc(a.ne, b.sw, c.nw); MulAssoc(a.nw, b.ne, c.sw); MulAssoc(a.ne, b.se, c.sw);
      MulAssocBlock(a.nw, a.ne, b.nw, b.ne, b.sw, b.se, c.nw, c.sw);
      MulAssoc(a.nw, b.nw, c.ne); MulAssoc(a.ne, b.sw, c.ne); MulAssoc(a.nw, b.ne, c.se); MulAssoc(a.ne, b.se, c.se);
      MulAssocBlock(a.nw, a.ne, b.nw, b.ne, b.sw, b.se, c.ne, c.se);
      MulAssoc(a.sw, b.nw, c.nw); MulAssoc(a.se, b.sw, c.nw); MulAssoc(a.sw, b.ne, c.sw); MulAssoc(a.se, b.se, c.sw);
      MulAssocBlock(a.sw, a.se, b.nw, b.ne, b.sw, b.se, c.nw, c.sw);
      MulAssoc(a.sw, b.nw, c.ne); MulAssoc(a.se, b.sw, c.ne); MulAssoc(a.sw, b.ne, c.se); MulAssoc(a.se, b.se, c.se);
      MulAssocBlock(a.sw, a.se, b.nw, b.ne, b.sw, b.se, c.ne, c.se);
    }
  }

  lemma {:induction false} DaggerAdd(a: Mat, b: Mat)
    ensures Dagger(Add(a, b)) == Add(Dagger(a), Dagger(b))
  {
    hide *;
    AddStep(a, b); DaggerStep(a); DaggerStep(b); DaggerStep(Add(a, b)); AddStep(Dagger(a), Dagger(b));
    if a.Scalar? && b.Scalar? {
      ConjPlus(a.v, b.v);
    } else if a.Block? && b.Block? {
      DaggerAdd(a.nw, b.nw); DaggerAdd(a.ne, b.ne);
      DaggerAdd(a.sw, b.sw); DaggerAdd(a.se, b.se);
    }
  }

  lemma {:induction false} DaggerScale(c: Complex, a: Mat)
    ensures Dagger(Scale(c, a)) == Scale(c.Conj(), Dagger(a))
  {
    hide *;
    ScaleStep(c, a); DaggerStep(a); DaggerStep(Scale(c, a)); ScaleStep(c.Conj(), Dagger(a));
    if a.Scalar? {
      ConjTimes(c, a.v);
    } else if a.Block? {
      DaggerScale(c, a.nw); DaggerScale(c, a.ne);
      DaggerScale(c, a.sw); DaggerScale(c, a.se);
    }
  }

  lemma {:induction false} DaggerMul(a: Mat, b: Mat)
    ensures Dagger(Mul(a, b)) == Mul(Dagger(b), Dagger(a))
  {
    hide *;
    MulStep(a, b); DaggerStep(a); DaggerStep(b); DaggerStep(Mul(a, b)); MulStep(Dagger(b), Dagger(a));
    if a.Scalar? && b.Scalar? {
      ConjTimes(a.v, b.v); TimesComm(a.v.Conj(), b.v.Conj());
    } else if a.Block? && b.Block? {
      DaggerMul(a.nw, b.nw); DaggerMul(a.ne, b.sw); DaggerAdd(Mul(a.nw, b.nw), Mul(a.ne, b.sw));
      DaggerMul(a.nw, b.ne); DaggerMul(a.ne, b.se); DaggerAdd(Mul(a.nw, b.ne), Mul(a.ne, b.se));
      DaggerMul(a.sw, b.nw); DaggerMul(a.se, b.sw); DaggerAdd(Mul(a.sw, b.nw), Mul(a.se, b.sw));
      DaggerMul(a.sw, b.ne); DaggerMul(a.se, b.se); DaggerAdd(Mul(a.sw, b.ne), Mul(a.se, b.se));
    }
  }

  lemma {:induction false} DaggerDagger(a: Mat)
    ensures Dagger(Dagger(a)) == a
  {
    hide *;
    DaggerStep(a); DaggerStep(Dagger(a));
    if a.Scalar? {
      ConjConj(a.v);
    } else if a.Block? {
      DaggerDagger(a.nw); DaggerDagger(a.ne);
      DaggerDagger(a.sw); DaggerDagger(a.se);
    }
  }

  lemma {:induction false} TurnMatMod(j: int, k: int, a: Mat)
    requires j % 4 == k % 4
    ensures TurnMat(j, a) == TurnMat(k, a)
  {
    hide *;
    TurnMatStep(j, a); TurnMatStep(k, a);
    if a.Scalar? {
      TurnMod(j, k, a.v);
    } else if a.Block? {
      TurnMatMod(j, k, a.nw); TurnMatMod(j, k, a.ne);
      TurnMatMod(j, k, a.sw); TurnMatMod(j, k, a.se);
    }
  }

  lemma {:induction false} TurnMatNone(a: Mat)
    ensures TurnMat(0, a) == a
  {
    hide *;
    TurnMatStep(0, a);
    if a.Scalar? {
      TurnNone(a.v);
    } else if a.Block? {
      TurnMatNone(a.nw); TurnMatNone(a.ne);
      TurnMatNone(a.sw); TurnMatNone(a.se);
    }
  }

  lemma {:induction false} TurnMatTurnMat(j: int, k: int, a: Mat)
    ensures TurnMat(j, TurnMat(k, a)) == TurnMat(j + k, a)
  {
    hide *;
    TurnMatStep(k, a); TurnMatStep(j, TurnMat(k, a)); TurnMatStep(j + k, a);
    if a.Scalar? {
      TurnTurn(j, k, a.v);
    } else if a.Block? {
      TurnMatTurnMat(j, k, a.nw); TurnMatTurnMat(j, k, a.ne);
      TurnMatTurnMat(j, k, a.sw); TurnMatTurnMat(j, k, a.se);
    }
  }

  lemma {:induction false} TurnMatIsScale(k: int, a: Mat)
    ensures TurnMat(k, a) == Scale(IPow(k), a)
  {
    hide *;
    TurnMatStep(k, a); ScaleStep(IPow(k), a);
    if a.Scalar? {
      IPowTimes(k, a.v);
    } else if a.Block? {
      TurnMatIsScale(k, a.nw); TurnMatIsScale(k, a.ne);
      TurnMatIsScale(k, a.sw); TurnMatIsScale(k, a.se);
    }
  }

  lemma {:induction false} TurnMatDagger(k: int, a: Mat)
    ensures Dagger(TurnMat(k, a)) == TurnMat(-k, Dagger(a))
  {
    hide *;
    TurnMatStep(k, a); DaggerStep(a); DaggerStep(TurnMat(k, a)); TurnMatStep(-k, Dagger(a));
    if a.Scalar? {
      TurnConj(k, a.v);
    } else if a.Block? {
      TurnMatDagger(k, a.nw); TurnMatDagger(k, a.ne);
      TurnMatDagger(k, a.sw); TurnMatDagger(k, a.se);
    }
  }

  lemma TurnMatAdd(k: int, a: Mat, b: Mat)
    ensures TurnMat(k, Add(a, b)) == Add(TurnMat(k, a), TurnMat(k, b))
  {
    hide *;
    TurnMatIsScale(k, a); TurnMatIsScale(k, b); TurnMatIsScale(k, Add(a, b));
    ScaleAdd(IPow(k), a, b);
  }

  lemma TurnMatMul(j: int, k: int, a: Mat, b: Mat)
    ensures Mul(TurnMat(j, a), TurnMat(k, b)) == TurnMat(j + k, Mul(a, b))
  {
    hide *;
    TurnMatIsScale(j, a); TurnMatIsScale(k, b); TurnMatIsScale(k, Mul(a, b));
    MulScaleLeft(IPow(j), a, TurnMat(k, b));
    MulScaleRight(IPow(k), a, b);
    TurnMatIsScale(j, TurnMat(k, Mul(a, b)));
    TurnMatTurnMat(j, k, Mul(a, b));
  }

  // ---- Laws that need the size ----

  lemma {:induction false} ZeroSquare(n: nat)
    ensures Square(Zero(n), n)
  {
    hide *;
    ZeroStep(n); SquareStep(Zero(n), n);
    if n > 0 {
      ZeroSquare(n - 1);
    }
  }

  lemma {:induction false} IdentitySquare(n: nat)
    ensures Square(Identity(n), n)
  {
    hide *;
    IdentityStep(n); SquareStep(Identity(n), n);
    if n > 0 {
      IdentitySquare(n - 1); ZeroSquare(n - 1);
    }
  }

  lemma {:induction false} AddSquare(n: nat, a: Mat, b: Mat)
    requires Square(a, n) && Square(b, n)
    ensures Square(Add(a, b), n)
  {
    hide *;
    SquareStep(a, n); SquareStep(b, n); AddStep(a, b); SquareStep(Add(a, b), n);
    if n > 0 {
      AddSquare(n - 1, a.nw, b.nw); AddSquare(n - 1, a.ne, b.ne);
      AddSquare(n - 1, a.sw, b.sw); AddSquare(n - 1, a.se, b.se);
    }
  }

  lemma {:induction false} ScaleSquare(n: nat, c: Complex, a: Mat)
    requires Square(a, n)
    ensures Square(Scale(c, a), n)
  {
    hide *;
    SquareStep(a, n); ScaleStep(c, a); SquareStep(Scale(c, a), n);
    if n > 0 {
      ScaleSquare(n - 1, c, a.nw); ScaleSquare(n - 1, c, a.ne);
      ScaleSquare(n - 1, c, a.sw); ScaleSquare(n - 1, c, a.se);
    }
  }

  lemma {:induction false} TurnMatSquare(n: nat, k: int, a: Mat)
    requires Square(a, n)
    ensures Square(TurnMat(k, a), n)
  {
    hide *;
    SquareStep(a, n); TurnMatStep(k, a); SquareStep(TurnMat(k, a), n);
    if n > 0 {
      TurnMatSquare(n - 1, k, a.nw); TurnMatSquare(n - 1, k, a.ne);
      TurnMatSquare(n - 1, k, a.sw); TurnMatSquare(n - 1, k, a.se);
    }
  }

  lemma {:induction false} DaggerSquare(n: nat, a: Mat)
    requires Square(a, n)
    ensures Square(Dagger(a), n)
  {
    hide *;
    SquareStep(a, n); DaggerStep(a); SquareStep(Dagger(a), n);
    if n > 0 {
      DaggerSquare(n - 1, a.nw); DaggerSquare(n - 1, a.ne);
      DaggerSquare(n - 1, a.sw); DaggerSquare(n - 1, a.se);
    }
  }

  lemma {:induction false} MulSquare(n: nat, a: Mat, b: Mat)
    requires Square(a, n) && Square(b, n)
    ensures Square(Mul(a, b), n)
  {
    hide *;
    SquareStep(a, n); SquareStep(b, n); MulStep(a, b); SquareStep(Mul(a, b), n);
    if n > 0 {
      MulSquare(n - 1, a.nw, b.nw); MulSquare(n - 1, a.ne, b.sw); AddSquare(n - 1, Mul(a.nw, b.nw), Mul(a.ne, b.sw));
      MulSquare(n - 1, a.nw, b.ne); MulSquare(n - 1, a.ne, b.se); AddSquare(n - 1, Mul(a.nw, b.ne), Mul(a.ne, b.se));
      MulSquare(n - 1, a.sw, b.nw); MulSquare(n - 1, a.se, b.sw); AddSquare(n - 1, Mul(a.sw, b.nw), Mul(a.se, b.sw));
      MulSquare(n - 1, a.sw, b.ne); MulSquare(n - 1, a.se, b.se); AddSquare(n - 1, Mul(a.sw, b.ne), Mul(a.se, b.se));
    }
  }

  lemma {:induction false} AddZero(n: nat, a: Mat)
    requires Square(a, n)
    ensures Add(a, Zero(n)) == a == Add(Zero(n), a)
  {
    hide *;
    SquareStep(a, n); ZeroStep(n); AddStep(a, Zero(n)); AddStep(Zero(n), a);
    if n == 0 {
      PlusZero(a.v);
    } else {
      AddZero(n - 1, a.nw); AddZero(n - 1, a.ne);
      AddZero(n - 1, a.sw); AddZero(n - 1, a.se);
    }
  }

  lemma {:induction false} ScaleUnits(n: nat, a: Mat)
    requires Square(a, n)
    ensures Scale(ONE, a) == a && Scale(ZERO, a) == Zero(n)
  {
    hide *;
    SquareStep(a, n); ZeroStep(n); ScaleStep(ONE, a); ScaleStep(ZERO, a);
    if n == 0 {
      TimesUnits(a.v);
    } else {
      ScaleUnits(n - 1, a.nw); ScaleUnits(n - 1, a.ne);
      ScaleUnits(n - 1, a.sw); ScaleUnits(n - 1, a.se);
    }
  }

  lemma {:induction false} ScaleZero(n: nat, c: Complex)
    ensures Scale(c, Zero(n)) == Zero(n)
  {
    hide *;
    ZeroStep(n); ScaleStep(c, Zero(n));
    if n == 0 {
      TimesUnits(c);
    } else {
      ScaleZero(n - 1, c);
    }
  }

  lemma {:induction false} MulZero(n: nat, a: Mat)
    requires Square(a, n)
    ensures Mul(a, Zero(n)) == Zero(n) == Mul(Zero(n), a)
  {
    hide *;
    SquareStep(a, n); ZeroStep(n); MulStep(a, Zero(n)); MulStep(Zero(n), a);
    if n == 0 {
      TimesUnits(a.v);
    } else {
      MulZero(n - 1, a.nw); MulZero(n - 1, a.ne);
      MulZero(n - 1, a.sw); MulZero(n - 1, a.se);
      ZeroSquare(n - 1); AddZero(n - 1, Zero(n - 1));
    }
  }

  lemma {:induction false} MulIdentity(n: nat, a: Mat)
    requires Square(a, n)
    ensures Mul(a, Identity(n)) == a == Mul(Identity(n), a)
  {
    hide *;
    SquareStep(a, n); IdentityStep(n); MulStep(a, Identity(n)); MulStep(Identity(n), a);
    if n == 0 {
      TimesUnits(a.v);
    } else {
      MulIdentity(n - 1, a.nw); MulIdentity(n - 1, a.ne);
      MulIdentity(n - 1, a.sw); MulIdentity(n - 1, a.se);
      MulZero(n - 1, a.nw); MulZero(n - 1, a.ne);
      MulZero(n - 1, a.sw); MulZero(n - 1, a.se);
      AddZero(n - 1, a.nw); AddZero(n - 1, a.ne);
      AddZero(n - 1, a.sw); AddZero(n - 1, a.se);
    }
  }

  lemma {:induction false} DaggerZero(n: nat)
    ensures Dagger(Zero(n)) == Zero(n)
  {
    hide *;
    ZeroStep(n); DaggerStep(Zero(n));
    if n == 0 {
      ConjUnits();
    } else {
      DaggerZero(n - 1);
    }
  }

  lemma {:induction false} DaggerIdentity(n: nat)
    ensures Dagger(Identity(n)) == Identity(n)
  {
    hide *;
    IdentityStep(n); DaggerStep(Identity(n));
    if n == 0 {
      ConjUnits();
    } else {
      DaggerIdentity(n - 1); DaggerZero(n - 1);
    }
  }

  lemma TurnMatZero(n: nat, k: int)
    ensures TurnMat(k, Zero(n)) == Zero(n)
  {
    hide *;
    TurnMatIsScale(k, Zero(n));
    ScaleZero(n, IPow(k));
  }

  lemma {:induction false} TraceAdd(n: nat, a: Mat, b: Mat)
    requires Square(a, n) && Square(b, n)
    ensures Trace(Add(a, b)) == Trace(a).Plus(Trace(b))
  {
    hide *;
    SquareStep(a, n); SquareStep(b, n); AddStep(a, b); TraceStep(a); TraceStep(b); TraceStep(Add(a, b));
    if n > 0 {
      TraceAdd(n - 1, a.nw, b.nw); TraceAdd(n - 1, a.se, b.se);
      PlusSwap(Trace(a.nw), Trace(b.nw), Trace(a.se), Trace(b.se));
    }
  }

  lemma {:induction false} TraceScale(n: nat, c: Complex, a: Mat)
    requires Square(a, n)
    ensures Trace(Scale(c, a)) == c.Times(Trace(a))
  {
    hide *;
    SquareStep(a, n); ScaleStep(c, a); TraceStep(a); TraceStep(Scale(c, a));
    if n > 0 {
      TraceScale(n - 1, c, a.nw); TraceScale(n - 1, c, a.se);
      TimesPlus(c, Trace(a.nw), Trace(a.se));
    }
  }

  lemma {:induction false} TraceZero(n: nat)
    ensures Trace(Zero(n)) == ZERO
  {
    hide *;
    ZeroStep(n); TraceStep(Zero(n));
    if n > 0 {
      TraceZero(n - 1); PlusZero(ZERO);
    }
  }

  lemma TraceMulBlocks(n: nat, a: Mat, b: Mat)
    requires n > 0 && Square(a, n) && Square(b, n)
    ensures a.Block? && b.Block?
    ensures Trace(Mul(a, b)) ==
            Trace(Mul(a.nw, b.nw)).Plus(Trace(Mul(a.ne, b.sw))).Plus(
              Trace(Mul(a.sw, b.ne)).Plus(Trace(Mul(a.se, b.se))))
  {
    hide *;
    SquareStep(a, n); SquareStep(b, n); MulStep(a, b); TraceStep(Mul(a, b));
    MulSquare(n - 1, a.nw, b.nw); MulSquare(n - 1, a.ne, b.sw); TraceAdd(n - 1, Mul(a.nw, b.nw), Mul(a.ne, b.sw));
    MulSquare(n - 1, a.sw, b.ne); MulSquare(n - 1, a.se, b.se); TraceAdd(n - 1, Mul(a.sw, b.ne), Mul(a.se, b.se));
  }

  /** `Tr(a b) == Tr(b a)`. */
  lemma {:induction false} TraceCyclic(n: nat, a: Mat, b: Mat)
    requires Square(a, n) && Square(b, n)
    ensures Trace(Mul(a, b)) == Trace(Mul(b, a))
  {
    hide *;
    SquareStep(a, n); SquareStep(b, n);
    if n == 0 {
      MulStep(a, b); MulStep(b, a);
      TimesComm(a.v, b.v);
    } else {
      TraceMulBlocks(n, a, b); TraceMulBlocks(n, b, a);
      TraceCyclic(n - 1, a.nw, b.nw); TraceCyclic(n - 1, a.ne, b.sw);
      TraceCyclic(n - 1, a.sw, b.ne); TraceCyclic(n - 1, a.se, b.se);
      PlusSwap(Trace(Mul(a.nw, b.nw)), Trace(Mul(a.ne, b.sw)), Trace(Mul(a.sw, b.ne)), Trace(Mul(a.se, b.se)));
    }
  }
}
