/**
 The moments of the diagonal echo: binomial means over the walk `2k - n`, their recursion, and the cosine
 identity that makes the diagonal echo such a mean.
 */
module OleMoments {
  import opened Complexes
  import opened Paulis
  import opened OleKernel
  import opened OleDiagonal

  // ---- Binomial sums ----

  /** `math.comb`, by Pascal's rule. */
  function Choose(n: nat, k: int): (r: nat)
    ensures k < 0 || k > n ==> r == 0
  {
    if k < 0 || k > n then 0
    else if n == 0 then 1
    else Choose(n - 1, k - 1) + Choose(n - 1, k)
  }

  lemma Pascal(n: nat, k: int)
    ensures Choose(n + 1, k) == Choose(n, k - 1) + Choose(n, k)
  {
  }

  /** `sum_(k < top) binom(n, k) f(2k - n)`. */
  function Partial(n: nat, top: nat, f: int -> real): real {
    if top == 0 then 0.0
    else Partial(n, top - 1, f) + Prod(Choose(n, top - 1) as real, f(2 * (top - 1) - n))
  }

  /** The whole binomial sum. */
  function Walk(n: nat, f: int -> real): real {
    Partial(n, n + 1, f)
  }

  /** `up` and `down` are `f` one place further up and down. */
  ghost predicate Shifts(f: int -> real, up: int -> real, down: int -> real) {
    forall x: int :: ShiftsAt(f, up, down, x)
  }

  predicate ShiftsAt(f: int -> real, up: int -> real, down: int -> real, x: int) {
    up(x) == f(x + 1) && down(x) == f(x - 1)
  }

  /** The step of the walk: one more site moves it up or down. */
  lemma {:induction false} PartialStep(n: nat, top: nat, f: int -> real, up: int -> real, down: int -> real)
    requires Shifts(f, up, down)
    ensures Partial(n + 1, top + 1, f) == Partial(n, top, up) + Partial(n, top + 1, down)
  {
    hide Prod, Choose;
    Pascal(n, top);
    var y := f(2 * top - (n + 1));
    SplitProd(Choose(n, top - 1), Choose(n, top), y);
    assert ShiftsAt(f, up, down, 2 * top - n);
    if top > 0 {
      PartialStep(n, top - 1, f, up, down);
      assert ShiftsAt(f, up, down, 2 * (top - 1) - n);
    } else {
      NoChoice(n);
      ProdUnits(y, 0.0);
    }
  }

  lemma NoChoice(n: nat)
    ensures Choose(n, -1) == 0 && Choose(n, n + 1) == 0
  {
  }

  lemma SplitProd(a: nat, b: nat, y: real)
    ensures Prod((a + b) as real, y) == Prod(a as real, y) + Prod(b as real, y)
  {
  }

  lemma WalkStep(n: nat, f: int -> real, up: int -> real, down: int -> real)
    requires Shifts(f, up, down)
    ensures Walk(n + 1, f) == Walk(n, up) + Walk(n, down)
  {
    hide Prod, Choose;
    PartialStep(n, n + 1, f, up, down);
    NoChoice(n);
    ProdUnits(down(2 * (n + 1) - n), 0.0);
  }

  lemma {:induction false} PartialLinear(n: nat, top: nat, f: int -> real, g: int -> real, h: int -> real, a: real, b: real)
    requires forall x :: f(x) == Prod(a, g(x)) + Prod(b, h(x))
    ensures Partial(n, top, f) == Prod(a, Partial(n, top, g)) + Prod(b, Partial(n, top, h))
  {
    hide Prod, Choose;
    if top == 0 {
      ProdUnits(a, 0.0); ProdUnits(b, 0.0);
    } else {
      PartialLinear(n, top - 1, f, g, h, a, b);
      var x := 2 * (top - 1) - n;
      Combine(Choose(n, top - 1) as real, a, b, g(x), h(x), Partial(n, top - 1, g), Partial(n, top - 1, h));
    }
  }

  lemma Combine(c: real, a: real, b: real, y: real, z: real, p: real, q: real)
    ensures Prod(a, p) + Prod(b, q) + Prod(c, Prod(a, y) + Prod(b, z)) == Prod(a, p + Prod(c, y)) + Prod(b, q + Prod(c, z))
  {
    hide Prod;
    ProdLaws(c, Prod(a, y), Prod(b, z));
    ProdLaws(a, p, Prod(c, y)); ProdLaws(b, q, Prod(c, z));
    ProdLaws(c, a, y); ProdLaws(a, c, y);
    ProdLaws(c, b, z); ProdLaws(b, c, z);
  }

  // ---- The first two moments ----

  function One(): int -> real {
    x => 1.0
  }

  function Square(): int -> real {
    x => (x * x) as real
  }

  lemma {:induction false} WalkOne(n: nat)
    ensures Walk(n, One()) == Pow2(n) as real
  {
    hide Prod, Choose, Walk, Pow2, Partial;
    RealDoubles(n);
    if n == 0 {
      NoWalk(One());
    } else {
      WalkOne(n - 1);
      forall x: int ensures ShiftsAt(One(), One(), One(), x) {
      }
      WalkStep(n - 1, One(), One(), One());
    }
  }

  lemma RealDoubles(n: nat)
    ensures Pow2(0) as real == 1.0
    ensures n > 0 ==> Pow2(n) as real == 2.0 * Pow2(n - 1) as real
  {
  }

  lemma NoWalk(f: int -> real)
    ensures Walk(0, f) == f(0)
  {
    assert Partial(0, 0, f) == 0.0;
    assert Choose(0, 0) == 1;
    ProdUnits(f(0), 0.0);
  }

  function Raised(d: int): int -> real {
    x => ((x + d) * (x + d)) as real
  }

  function TwoSquares(): int -> real {
    x => Prod(2.0, Square()(x)) + Prod(2.0, One()(x))
  }

  lemma SquareShifts()
    ensures Shifts(Square(), Raised(1), Raised(-1))
    ensures forall x :: TwoSquares()(x) == Prod(1.0, Raised(1)(x)) + Prod(1.0, Raised(-1)(x))
  {
    hide Prod;
    forall x: int ensures ShiftsAt(Square(), Raised(1), Raised(-1), x) {
    }
    forall x: int ensures TwoSquares()(x) == Prod(1.0, Raised(1)(x)) + Prod(1.0, Raised(-1)(x)) {
      Squares(x);
      assert Square()(x) == (x * x) as real && One()(x) == 1.0;
      assert TwoSquares()(x) == Prod(2.0, (x * x) as real) + Prod(2.0, 1.0);
      assert Raised(1)(x) == ((x + 1) * (x + 1)) as real;
      assert Raised(-1)(x) == ((x - 1) * (x - 1)) as real;
      BothAt(Raised(1)(x), Raised(-1)(x), 0.0);
    }
  }

  /** The mean square of the walk is its length. */
  lemma {:induction false} WalkSquare(n: nat)
    ensures Walk(n, Square()) == (n * Pow2(n)) as real
  {
    hide Prod, Choose, Walk, Partial, Pow2, Square, Raised, One;
    if n == 0 {
      NoWalk(Square());
      NoSquare();
    } else {
      WalkSquare(n - 1);
      WalkOne(n - 1);
      SquareShifts();
      WalkStep(n - 1, Square(), Raised(1), Raised(-1));
      WalkLinear(n - 1, TwoSquares(), Raised(1), Raised(-1), 1.0, 1.0);
      WalkLinear(n - 1, TwoSquares(), Square(), One(), 2.0, 2.0);
      ProdUnits(Walk(n - 1, Raised(1)), 0.0); ProdUnits(Walk(n - 1, Raised(-1)), 0.0);
      Doubling(n);
    }
  }

  lemma NoSquare()
    ensures Square()(0) == 0.0 && (0 * Pow2(0)) as real == 0.0
  {
  }

  lemma WalkLinear(n: nat, f: int -> real, g: int -> real, h: int -> real, a: real, b: real)
    requires forall x :: f(x) == Prod(a, g(x)) + Prod(b, h(x))
    ensures Walk(n, f) == Prod(a, Walk(n, g)) + Prod(b, Walk(n, h))
  {
    hide Prod, Choose;
    PartialLinear(n, n + 1, f, g, h, a, b);
  }

  lemma Squares(x: int)
    ensures ((x + 1) * (x + 1)) as real + ((x - 1) * (x - 1)) as real == Prod(2.0, (x * x) as real) + Prod(2.0, 1.0)
  {
    assert (x + 1) * (x + 1) + (x - 1) * (x - 1) == 2 * (x * x) + 2;
  }

  lemma Doubling(n: nat)
    requires n > 0
    ensures Prod(2.0, ((n - 1) * Pow2(n - 1)) as real) + Prod(2.0, Pow2(n - 1) as real) == (n * Pow2(n)) as real
  {
    assert n * Pow2(n) == 2 * ((n - 1) * Pow2(n - 1)) + 2 * Pow2(n - 1);
  }

  predicate CosineAt(f: int -> real, c: real, x: int) {
    f(x + 1) + f(x - 1) == Prod(2.0 * c, f(x))
  }

  /** A cosine on the integers: `C(0) == 1` and `C(x + 1) + C(x - 1) == 2 c C(x)`. */
  ghost predicate Cosine(f: int -> real, c: real) {
    f(0) == 1.0 && forall x: int :: CosineAt(f, c, x)
  }

  function Moved(f: int -> real, d: int): int -> real {
    x => f(x + d)
  }

  function Both(f: int -> real): int -> real {
    x => Prod(1.0, Moved(f, 1)(x)) + Prod(1.0, Moved(f, -1)(x))
  }

  lemma CosineShifts(f: int -> real, c: real)
    requires Cosine(f, c)
    ensures Shifts(f, Moved(f, 1), Moved(f, -1))
    ensures forall x :: Both(f)(x) == Prod(2.0 * c, f(x)) + Prod(0.0, f(x))
  {
    forall x: int ensures ShiftsAt(f, Moved(f, 1), Moved(f, -1), x) {
    }
    forall x: int ensures Both(f)(x) == Prod(2.0 * c, f(x)) + Prod(0.0, f(x)) {
      assert CosineAt(f, c, x);
      assert Moved(f, 1)(x) == f(x + 1);
      assert Moved(f, -1)(x) == f(x - 1);
      BothAt(f(x + 1), f(x - 1), f(x));
    }
  }

  lemma BothAt(u: real, d: real, y: real)
    ensures Prod(1.0, u) + Prod(1.0, d) == u + d && Prod(0.0, y) == 0.0
  {
  }

  /** The binomial mean of a cosine over the walk is a power of its step. */
  lemma {:induction false} WalkCosine(n: nat, f: int -> real, c: real)
    requires Cosine(f, c)
    ensures Walk(n, f) == Pow(2.0 * c, n)
  {
    hide Prod, Choose, Walk, Partial, Cosine, Shifts, Moved;
    if n == 0 {
      NoWalk(f);
      CosineZero(f, c);
    } else {
      WalkCosine(n - 1, f, c);
      CosineShifts(f, c);
      WalkStep(n - 1, f, Moved(f, 1), Moved(f, -1));
      WalkLinear(n - 1, Both(f), Moved(f, 1), Moved(f, -1), 1.0, 1.0);
      WalkLinear(n - 1, Both(f), f, f, 2.0 * c, 0.0);
      ProdUnits(Walk(n - 1, Moved(f, 1)), 0.0); ProdUnits(Walk(n - 1, Moved(f, -1)), 0.0); ProdUnits(Walk(n - 1, f), 0.0);
    }
  }

  lemma CosineZero(f: int -> real, c: real)
    requires Cosine(f, c)
    ensures f(0) == 1.0
  {
  }

  // ---- The moments ----

  /** `(2k - n)^(2m)` as a function of the walk. */
  function Even(m: nat): int -> real {
    x => Pow(x as real, 2 * m)
  }

  /** `2^-n sum_k binom(n, k) f(2k - n)`. */
  function Mean(n: nat, f: int -> real): real {
    Walk(n, f) / Pow2(n) as real
  }

  /** `sum_n w_n 4^m E_n`, with `E_n` the mean of the even power. */
  function Moment(w: seq<real>, m: nat, from: nat): real {
    if |w| == 0 then 0.0 else Prod(w[0], Prod(Pow(4.0, m), Mean(from, Even(m)))) + Moment(w[1..], m, from + 1)
  }

  /** Every weight over the total. */
  function Normalized(hist: seq<real>, total: real): (w: seq<real>)
    requires total != 0.0
    ensures |w| == |hist| && forall i :: 0 <= i < |w| ==> w[i] == hist[i] / total
  {
    seq(|hist|, i requires 0 <= i < |hist| => hist[i] / total)
  }

  datatype Moments = Values(values: seq<real>) | Undefined

  /** `np.dot(binom, powers)` for one length of the walk. */
  method WalkMean(n: nat, m: nat) returns (mean: real)
    ensures mean == Mean(n, Even(m))
  {
    hide Prod, Choose, Pow, Even;
    mean := 0.0;
    var d := Pow2(n) as real;
    ZeroOver(d);
    for k := 0 to n + 1
      invariant mean == Partial(n, k, Even(m)) / d
    {
      var x := 2 * k - n;
      EvenAt(m, x);
      OneTerm(Partial(n, k, Even(m)), Choose(n, k) as real, Pow(x as real, 2 * m), d);
      mean := mean + Prod(Choose(n, k) as real / d, Pow(x as real, 2 * m));
    }
  }

  lemma ZeroOver(d: real)
    requires d > 0.0
    ensures 0.0 / d == 0.0
  {
  }

  lemma EvenAt(m: nat, x: int)
    ensures Even(m)(x) == Pow(x as real, 2 * m)
  {
  }

  lemma OneTerm(p: real, c: real, y: real, d: real)
    requires d > 0.0
    ensures p / d + Prod(c / d, y) == (p + Prod(c, y)) / d
  {
    var u, v := p / d, c / d;
    assert u * d == p && v * d == c;
    assert (u + v * y) * d == p + c * y;
  }

  /** The normalized weights; no division happens in an empty histogram. */
  function Weights(hist: seq<real>): (w: seq<real>)
    requires |hist| == 0 || SumOf(hist) != 0.0
    ensures |w| == |hist|
  {
    if |hist| == 0 then [] else Normalized(hist, SumOf(hist))
  }

  /** A weight times the total is its bin, and the weights sum to 1. */
  lemma WeightsMean(hist: seq<real>, i: nat)
    requires i < |hist| && SumOf(hist) != 0.0
    ensures Weights(hist)[i] * SumOf(hist) == hist[i] && SumOf(Weights(hist)) == 1.0
  {
    hide *;
    WeightsAre(hist);
    NormalizedSum(hist, SumOf(hist));
    NormalizedBack(hist, SumOf(hist), i);
  }

  lemma WeightsAre(hist: seq<real>)
    requires SumOf(hist) != 0.0
    ensures Weights(hist) == Normalized(hist, SumOf(hist))
  {
  }

  lemma NormalizedBack(hist: seq<real>, total: real, i: nat)
    requires i < |hist| && total != 0.0
    ensures Normalized(hist, total)[i] * total == hist[i]
  {
    hide *;
    var w := Normalized(hist, total)[i];
    assert w == hist[i] / total;
    Quotients(hist[i], total);
  }

  lemma NormalizedSum(hist: seq<real>, total: real)
    requires total != 0.0 && total == SumOf(hist)
    ensures SumOf(Normalized(hist, total)) == 1.0
  {
    hide *;
    SumNormalized(hist, total);
    SelfQuotient(total);
  }

  lemma SelfQuotient(a: real)
    requires a != 0.0
    ensures a / a == 1.0
  {
  }

  /** `diagonal_moments`: undefined when some weight is divided by a zero total; otherwise the moments of the normalized histogram. */
  method DiagonalMoments(hist: seq<real>, orders: nat) returns (r: Moments)
    ensures r == Undefined <==> |hist| > 0 && SumOf(hist) == 0.0
    ensures r.Values? ==> |r.values| == orders + 1
    ensures r.Values? ==> forall m :: 0 <= m <= orders ==> r.values[m] == Moment(Weights(hist), m, 0)
    ensures |hist| == 0 ==> r.Values? && forall m :: 0 <= m <= orders ==> r.values[m] == 0.0
  {
    hide Prod, Pow, Mean, Even, SumOf;
    if |hist| > 0 && SumOf(hist) == 0.0 {
      return Undefined;
    }
    var w := Weights(hist);
    var out := new real[orders + 1](_ => 0.0);
    for n := 0 to |w|
      invariant forall m :: 0 <= m <= orders ==> out[m] + Moment(w[n..], m, n) == Moment(w, m, 0)
    {
      assert w[n..][1..] == w[n + 1..];
      if w[n] != 0.0 {
        AddMoments(out, w[n], n, orders);
      } else {
        forall m | 0 <= m <= orders ensures Prod(w[n], Prod(Pow(4.0, m), Mean(n, Even(m)))) == 0.0 {
          ProdUnits(Prod(Pow(4.0, m), Mean(n, Even(m))), 0.0);
        }
      }
    }
    return Values(out[..]);
  }

  /** One weight's contribution to every order, in place. */
  method AddMoments(out: array<real>, weight: real, n: nat, orders: nat)
    requires out.Length == orders + 1
    modifies out
    ensures forall m :: 0 <= m <= orders ==> out[m] == old(out[m]) + Prod(weight, Prod(Pow(4.0, m), Mean(n, Even(m))))
  {
    hide Prod, Pow, Mean, Even;
    for m := 0 to orders + 1
      invariant forall i :: 0 <= i < m ==> out[i] == old(out[i]) + Prod(weight, Prod(Pow(4.0, i), Mean(n, Even(i))))
      invariant forall i :: m <= i <= orders ==> out[i] == old(out[i])
    {
      var mean := WalkMean(n, m);
      out[m] := out[m] + Prod(weight, Prod(Pow(4.0, m), mean));
    }
  }

  // ---- The binomial identities ----

  lemma {:induction false} PartialEqual(n: nat, top: nat, f: int -> real, g: int -> real)
    requires forall x :: f(x) == g(x)
    ensures Partial(n, top, f) == Partial(n, top, g)
  {
    hide Prod, Choose;
    if top > 0 {
      PartialEqual(n, top - 1, f, g);
    }
  }

  lemma MeanZero(n: nat)
    ensures Mean(n, Even(0)) == 1.0
  {
    forall x: int ensures Even(0)(x) == One()(x) {
      EvenAt(0, x);
    }
    hide Walk, Even, One, Pow2, Partial;
    WalkSame(n, Even(0), One());
    WalkOne(n);
    ProdUnits(Pow2(n) as real, 0.0);
    ProdQuotient(1.0, Pow2(n) as real);
  }

  lemma WalkSame(n: nat, f: int -> real, g: int -> real)
    requires forall x :: f(x) == g(x)
    ensures Walk(n, f) == Walk(n, g)
  {
    PartialEqual(n, n + 1, f, g);
  }

  lemma PowTwo(b: real)
    ensures Pow(b, 2) == b * b && Pow(b, 1) == b && Pow(b, 0) == 1.0
  {
    assert Pow(b, 0) == 1.0;
    assert Pow(b, 1) == b;
  }

  lemma SquareAt(x: int)
    ensures Even(1)(x) == Square()(x)
  {
    EvenAt(1, x);
    PowTwo(x as real);
    assert (x * x) as real == x as real * x as real;
  }

  lemma MeanOne(n: nat)
    ensures Mean(n, Even(1)) == n as real
  {
    forall x: int ensures Even(1)(x) == Square()(x) {
      SquareAt(x);
    }
    hide Walk, Even, Square, Pow2, Partial, Prod;
    WalkSame(n, Even(1), Square());
    WalkSquare(n);
    RealProduct(n, Pow2(n));
    ProdQuotient(n as real, Pow2(n) as real);
  }

  lemma RealProduct(a: nat, b: nat)
    ensures (a * b) as real == Prod(a as real, b as real)
  {
  }

  /** `sum_n n w_n`. */
  function FirstMoment(w: seq<real>, from: nat): real {
    if |w| == 0 then 0.0 else Prod(w[0], from as real) + FirstMoment(w[1..], from + 1)
  }

  lemma {:induction false} MomentZero(w: seq<real>, from: nat)
    ensures Moment(w, 0, from) == SumOf(w)
  {
    hide Prod, Mean, Even, Pow;
    if |w| > 0 {
      MomentZero(w[1..], from + 1);
      MeanZero(from);
      PowTwo(4.0);
      ProdUnits(1.0, 1.0); ProdUnits(w[0], 1.0);
    }
  }

  lemma {:induction false} MomentOne(w: seq<real>, from: nat)
    ensures Moment(w, 1, from) == Prod(4.0, FirstMoment(w, from))
  {
    hide Prod, Mean, Even, Pow;
    if |w| == 0 {
      ProdUnits(4.0, 0.0);
    } else {
      MomentOne(w[1..], from + 1);
      MeanOne(from);
      PowTwo(4.0);
      ProdLaws(w[0], 4.0, from as real); ProdLaws(4.0, w[0], from as real);
      ProdLaws(4.0, Prod(w[0], from as real), FirstMoment(w[1..], from + 1));
    }
  }

  lemma {:induction false} SumNormalized(hist: seq<real>, total: real)
    requires total != 0.0
    ensures SumOf(Normalized(hist, total)) == SumOf(hist) / total
  {
    if |hist| > 0 {
      SumNormalized(hist[1..], total);
      assert Normalized(hist, total)[1..] == Normalized(hist[1..], total);
      SumQuotient(hist[0], SumOf(hist[1..]), total);
    }
  }

  lemma SumQuotient(a: real, b: real, d: real)
    requires d != 0.0
    ensures a / d + b / d == (a + b) / d
  {
    var u, v := a / d, b / d;
    assert u * d == a && v * d == b;
    assert (u + v) * d == a + b;
  }

  /** For every histogram of nonzero weight, the zeroth moment is 1 and the first is four times the mean count. */
  lemma FirstMoments(hist: seq<real>)
    requires SumOf(hist) != 0.0
    ensures
      var w := Weights(hist);
      Moment(w, 0, 0) == 1.0 && Moment(w, 1, 0) == Prod(4.0, FirstMoment(w, 0))
  {
    hide *;
    WeightsAre(hist);
    MomentZero(Weights(hist), 0); MomentOne(Weights(hist), 0);
    NormalizedSum(hist, SumOf(hist));
  }

  /** `sum_n w_n E_n[f]`. */
  function MeanOf(w: seq<real>, f: int -> real, from: nat): real {
    if |w| == 0 then 0.0 else Prod(w[0], Mean(from, f)) + MeanOf(w[1..], f, from + 1)
  }

  lemma {:induction false} PowDoubled(c: real, n: nat)
    ensures Pow(2.0 * c, n) == Prod(Pow(c, n), Pow2(n) as real)
  {
    if n > 0 {
      PowDoubled(c, n - 1);
      DoubledStep(c, Pow(c, n - 1), Pow2(n - 1) as real);
    }
  }

  lemma DoubledStep(c: real, p: real, d: real)
    ensures Prod(2.0 * c, Prod(p, d)) == Prod(Prod(c, p), 2.0 * d)
  {
  }

  lemma MeanCosine(n: nat, f: int -> real, c: real)
    requires Cosine(f, c)
    ensures Mean(n, f) == Pow(c, n)
  {
    hide Walk, Pow, Pow2, Cosine, Prod;
    WalkCosine(n, f, c);
    PowDoubled(c, n);
    ProdQuotient(Pow(c, n), Pow2(n) as real);
  }

  lemma ProdQuotient(a: real, d: real)
    requires d > 0.0
    ensures Prod(a, d) / d == a
  {
  }

  /**
   The diagonal echo is the mean of a cosine over the walk: `sum_n w_n cos^n == sum_n w_n E_n[cos(2 delta (2k - n))]`,
   for every histogram and every function with the cosine's addition law.
   */
  lemma {:induction false} DiagonalEchoIsMean(w: seq<real>, f: int -> real, c: real, from: nat)
    requires Cosine(f, c)
    ensures Powered(w, c, from) == MeanOf(w, f, from)
  {
    hide Prod, Pow, Mean, Cosine;
    if |w| > 0 {
      DiagonalEchoIsMean(w[1..], f, c, from + 1);
      MeanCosine(from, f, c);
    }
  }

  // ---- The truncated series ----

  function Factorial(n: nat): (r: nat)
    ensures r > 0
  {
    if n == 0 then 1 else MulPositive(n, Factorial(n - 1))
  }

  function MulPositive(a: nat, b: nat): (r: nat)
    requires a > 0 && b > 0
    ensures r > 0
  {
    PositiveProduct(a, b);
    a * b
  }

  lemma PositiveProduct(a: nat, b: nat)
    requires a > 0 && b > 0
    ensures a * b > 0
  {
  }

  /** `(-1)^m y^(2m) / (2m)!`, a term of the cosine's Taylor polynomial at `y`. */
  function TaylorTerm(y: real, m: nat): real {
    Signed(m % 2 == 1, Pow(y, 2 * m) / Factorial(2 * m) as real)
  }

  /** The law that determines the cosine's terms: the first is 1, and each is `-y^2 / ((2m + 2) (2m + 1))` times the one before. */
  lemma TaylorRecurrence(y: real, m: nat)
    ensures TaylorTerm(y, 0) == 1.0
    ensures TaylorTerm(y, m + 1) * ((2 * m + 2) * (2 * m + 1)) as real == -(y * y) * TaylorTerm(y, m)
  {
    FirstTerm(y);
    hide Prod, Pow, Factorial;
    PowTwice(y, 2 * m);
    FactorialTwice(2 * m);
    NextTerm(y, Pow(y, 2 * m), Factorial(2 * m) as real, ((2 * m + 2) * (2 * m + 1)) as real, m % 2 == 1);
  }

  lemma FirstTerm(y: real)
    ensures TaylorTerm(y, 0) == 1.0
  {
    assert Pow(y, 0) == 1.0 && Factorial(0) == 1;
  }

  lemma FactorialTwice(k: nat)
    ensures Factorial(k + 2) as real == ((k + 2) * (k + 1)) as real * Factorial(k) as real
  {
    FactorialStep(k); FactorialStep(k + 1);
    hide Factorial;
    TwoFactors(k + 2, k + 1, Factorial(k));
  }

  lemma FactorialStep(k: nat)
    ensures Factorial(k + 1) == (k + 1) * Factorial(k)
  {
  }

  lemma TwoFactors(a: nat, b: nat, f: nat)
    ensures (a * (b * f)) as real == (a * b) as real * f as real
  {
    assert a * (b * f) == (a * b) * f;
    RealTimes(a * b, f);
  }

  lemma RealTimes(a: nat, b: nat)
    ensures (a * b) as real == a as real * b as real
  {
  }

  lemma NextTerm(y: real, p: real, f: real, k: real, odd: bool)
    requires f > 0.0 && k > 0.0 && k * f > 0.0
    ensures Signed(!odd, Prod(y, Prod(y, p)) / (k * f)) * k == -(y * y) * Signed(odd, p / f)
  {
    var q := p / f;
    var r := (y * (y * p)) / (k * f);
    assert q * f == p;
    assert r * (k * f) == y * (y * p);
    assert (r * k) * f == ((y * y) * q) * f;
    Cancelled(r * k, (y * y) * q, f);
  }

  lemma Cancelled(a: real, b: real, f: real)
    requires f > 0.0 && a * f == b * f
    ensures a == b
  {
  }

  /** A list obeying that law at `delta`. */
  predicate CosineCoefficients(t: seq<real>, delta: real) {
    && (|t| > 0 ==> t[0] == 1.0)
    && forall k :: 1 <= k < |t| ==> t[k] * ((2 * k) * (2 * k - 1)) as real == -(delta * delta) * t[k - 1]
  }

  /** `sum_m t_m C_2m`. */
  function Combined(t: seq<real>, w: seq<real>): real {
    if |t| == 0 then 0.0 else Combined(t[..|t| - 1], w) + Prod(t[|t| - 1], Moment(w, |t| - 1, 0))
  }

  lemma {:induction false} CoefficientIsTerm(t: seq<real>, delta: real, m: nat)
    requires CosineCoefficients(t, delta) && m < |t|
    ensures t[m] == TaylorTerm(delta, m)
  {
    hide TaylorTerm;
    if m == 0 {
      FirstTerm(delta);
    } else {
      CoefficientIsTerm(t, delta, m - 1);
      NextCoefficient(delta, m, t[m - 1], t[m]);
    }
  }

  lemma NextCoefficient(delta: real, m: nat, before: real, here: real)
    requires m > 0 && before == TaylorTerm(delta, m - 1) && here * ((2 * m) * (2 * m - 1)) as real == -(delta * delta) * before
    ensures here == TaylorTerm(delta, m)
  {
    hide TaylorTerm;
    TaylorRecurrence(delta, m - 1);
    var k := ((2 * m) * (2 * m - 1)) as real;
    FactorPositive(m);
    assert 2 * (m - 1) + 2 == 2 * m && 2 * (m - 1) + 1 == 2 * m - 1;
    Cancelled(here, TaylorTerm(delta, m), k);
  }

  lemma FactorPositive(m: nat)
    requires m > 0
    ensures ((2 * m) * (2 * m - 1)) as real > 0.0
  {
  }

  lemma {:induction false} CombinedIsSeries(t: seq<real>, w: seq<real>, delta: real)
    requires CosineCoefficients(t, delta) && |t| > 0
    ensures Combined(t, w) == Series(w, delta, |t| - 1)
  {
    hide TaylorTerm, Moment, Prod, CosineCoefficients;
    var m := |t| - 1;
    CoefficientIsTerm(t, delta, m);
    if m > 0 {
      FewerCoefficients(t, delta);
      CombinedIsSeries(t[..m], w, delta);
    } else {
      assert t[..0] == [];
    }
  }

  lemma FewerCoefficients(t: seq<real>, delta: real)
    requires CosineCoefficients(t, delta) && |t| > 0
    ensures CosineCoefficients(t[..|t| - 1], delta)
  {
  }

  /** The cosine's Taylor polynomial, all terms up to `top`. */
  function Taylor(y: real, top: nat): real {
    if top == 0 then TaylorTerm(y, 0) else Taylor(y, top - 1) + TaylorTerm(y, top)
  }

  /** The Taylor polynomial at `2 delta x`, as a function of the walk. */
  function TaylorWalk(delta: real, top: nat): int -> real {
    x => TaylorAt(delta, top, x)
  }

  function TaylorAt(delta: real, top: nat, x: int): real {
    Taylor(Prod(Prod(2.0, delta), x as real), top)
  }

  /** `sum_(m <= top) (-1)^m delta^(2m) / (2m)! C_2m`. */
  function Series(w: seq<real>, delta: real, top: nat): real {
    var last := Prod(TaylorTerm(delta, top), Moment(w, top, 0));
    if top == 0 then last else Series(w, delta, top - 1) + last
  }

  /** `truncated_series`: not a number when the moments are undefined. */
  method TruncatedSeries(hist: seq<real>, delta: real, order: nat) returns (r: Quotient)
    ensures r == NotANumber <==> |hist| > 0 && SumOf(hist) == 0.0
    ensures r.Number? ==> forall t: seq<real> :: CosineCoefficients(t, delta) && |t| == order / 2 + 1 ==> r.value == Combined(t, Weights(hist))
    ensures r.Number? ==> r.value == Series(Weights(hist), delta, order / 2)
    ensures r.Number? ==> r.value == MeanOf(Weights(hist), TaylorWalk(delta, order / 2), 0)
  {
    hide Prod, TaylorTerm, Moment, SumOf, Weights, CosineCoefficients, Combined, MeanOf, TaylorWalk;
    var moments := DiagonalMoments(hist, order / 2);
    if moments == Undefined {
      return NotANumber;
    }
    var sum := Prod(TaylorTerm(delta, 0), moments.values[0]);
    for m := 1 to order / 2 + 1
      invariant sum == Series(Weights(hist), delta, m - 1)
    {
      sum := sum + Prod(TaylorTerm(delta, m), moments.values[m]);
    }
    forall t: seq<real> | CosineCoefficients(t, delta) && |t| == order / 2 + 1 ensures sum == Combined(t, Weights(hist)) {
      CombinedIsSeries(t, Weights(hist), delta);
    }
    SeriesIsTaylorMean(Weights(hist), delta, order / 2);
    return Number(sum);
  }

  lemma {:induction false} PowProduct(a: real, b: real, k: nat)
    ensures Pow(Prod(a, b), k) == Prod(Pow(a, k), Pow(b, k))
  {
    hide Prod;
    if k == 0 {
      ProdUnits(1.0, 1.0);
    } else {
      PowProduct(a, b, k - 1);
      FourProducts(a, b, Pow(a, k - 1), Pow(b, k - 1));
    }
  }

  lemma {:induction false} PowSquared(a: real, m: nat)
    ensures Pow(a, 2 * m) == Pow(Prod(a, a), m)
  {
    hide Prod;
    if m > 0 {
      PowSquared(a, m - 1);
      var p := Pow(a, 2 * (m - 1));
      PowTwice(a, 2 * (m - 1));
      ProdLaws(a, a, p);
    }
  }

  lemma PowTwice(a: real, k: nat)
    ensures Pow(a, k + 2) == Prod(a, Prod(a, Pow(a, k)))
  {
    hide Prod;
    assert Pow(a, k + 1) == Prod(a, Pow(a, k));
  }

  /** One Taylor term at `2 delta x`: the coefficient of the moment times the moment's power. */
  lemma TermSplits(delta: real, x: real, m: nat)
    ensures TaylorTerm(Prod(Prod(2.0, delta), x), m) == Prod(TaylorTerm(delta, m), Prod(Pow(4.0, m), Pow(x, 2 * m)))
  {
    hide Pow, Factorial;
    assert Prod(2.0, 2.0) == 4.0;
    hide Prod;
    PowProduct(Prod(2.0, delta), x, 2 * m);
    PowProduct(2.0, delta, 2 * m);
    PowSquared(2.0, m);
    SplitQuotient(Pow(4.0, m), Pow(delta, 2 * m), Pow(x, 2 * m), Factorial(2 * m) as real, m % 2 == 1);
  }

  lemma SplitQuotient(four: real, d: real, x: real, f: real, o: bool)
    requires f > 0.0
    ensures Signed(o, Prod(Prod(four, d), x) / f) == Prod(Signed(o, d / f), Prod(four, x))
  {
    var q := d / f;
    assert q * f == d;
    assert (four * d) * x == (q * (four * x)) * f;
    assert ((four * d) * x) / f == q * (four * x);
  }

  lemma {:induction false} MeanOfLinear(w: seq<real>, f: int -> real, g: int -> real, h: int -> real, a: real, b: real, from: nat)
    requires forall x :: f(x) == Prod(a, g(x)) + Prod(b, h(x))
    ensures MeanOf(w, f, from) == Prod(a, MeanOf(w, g, from)) + Prod(b, MeanOf(w, h, from))
  {
    hide Prod, Mean;
    if |w| == 0 {
      ProdUnits(a, 0.0); ProdUnits(b, 0.0);
    } else {
      MeanOfLinear(w[1..], f, g, h, a, b, from + 1);
      MeanLinear(from, f, g, h, a, b);
      var y, z := Mean(from, g), Mean(from, h);
      Combine(w[0], a, b, y, z, MeanOf(w[1..], g, from + 1), MeanOf(w[1..], h, from + 1));
    }
  }

  lemma MeanLinear(n: nat, f: int -> real, g: int -> real, h: int -> real, a: real, b: real)
    requires forall x :: f(x) == Prod(a, g(x)) + Prod(b, h(x))
    ensures Mean(n, f) == Prod(a, Mean(n, g)) + Prod(b, Mean(n, h))
  {
    hide Walk, Pow2;
    WalkLinear(n, f, g, h, a, b);
    QuotientLinear(a, b, Walk(n, g), Walk(n, h), Pow2(n) as real);
  }

  lemma QuotientLinear(a: real, b: real, y: real, z: real, d: real)
    requires d > 0.0
    ensures (Prod(a, y) + Prod(b, z)) / d == Prod(a, y / d) + Prod(b, z / d)
  {
    var u, v := y / d, z / d;
    assert u * d == y && v * d == z;
    assert (a * u + b * v) * d == a * y + b * z;
  }

  lemma {:induction false} MomentIsMean(w: seq<real>, m: nat, from: nat)
    ensures Moment(w, m, from) == Prod(Pow(4.0, m), MeanOf(w, Even(m), from))
  {
    hide Prod, Mean, Even, Pow;
    var p := Pow(4.0, m);
    if |w| == 0 {
      ProdUnits(p, 0.0);
    } else {
      MomentIsMean(w[1..], m, from + 1);
      var e := Mean(from, Even(m));
      ProdLaws(w[0], p, e); ProdLaws(p, w[0], e);
      ProdLaws(p, Prod(w[0], e), MeanOf(w[1..], Even(m), from + 1));
    }
  }

  /** The weight of the last term, as a function of the walk. */
  function TermWeight(delta: real, m: nat): real {
    Prod(TaylorTerm(delta, m), Pow(4.0, m))
  }

  lemma TaylorWalkAt(delta: real, top: nat, x: int)
    ensures
      var last := Prod(TermWeight(delta, top), Even(top)(x));
      TaylorWalk(delta, top)(x) == if top == 0 then last else TaylorWalk(delta, top - 1)(x) + last
  {
    hide Prod, TaylorTerm, Pow;
    EvenAt(top, x);
    TermSplits(delta, x as real, top);
    ProdLaws(TaylorTerm(delta, top), Pow(4.0, top), Pow(x as real, 2 * top));
  }

  /**
   The series of the moments is the walk mean of the cosine's Taylor polynomial in `2 delta (2k - n)`: for every
   histogram, angle and order, truncating the moment series is truncating the cosine of `DiagonalEchoIsMean`.
   */
  lemma {:induction false} SeriesIsTaylorMean(w: seq<real>, delta: real, top: nat)
    ensures Series(w, delta, top) == MeanOf(w, TaylorWalk(delta, top), 0)
  {
    hide Prod, TaylorWalk, Even, Moment, MeanOf, TaylorTerm, TermWeight, Pow;
    var f, c := TaylorWalk(delta, top), TermWeight(delta, top);
    MomentIsMean(w, top, 0);
    SeriesTerm(w, delta, top);
    if top == 0 {
      forall x: int ensures f(x) == Prod(c, Even(0)(x)) + Prod(0.0, Even(0)(x)) {
        TaylorWalkAt(delta, 0, x);
        ProdUnits(Even(0)(x), 0.0);
      }
      MeanOfLinear(w, f, Even(0), Even(0), c, 0.0, 0);
      ProdUnits(MeanOf(w, Even(0), 0), 0.0);
    } else {
      var g := TaylorWalk(delta, top - 1);
      SeriesIsTaylorMean(w, delta, top - 1);
      forall x: int ensures f(x) == Prod(1.0, g(x)) + Prod(c, Even(top)(x)) {
        TaylorWalkAt(delta, top, x);
        ProdUnits(g(x), 0.0);
      }
      MeanOfLinear(w, f, g, Even(top), 1.0, c, 0);
      ProdUnits(MeanOf(w, g, 0), 0.0);
    }
  }

  lemma SeriesTerm(w: seq<real>, delta: real, m: nat)
    requires Moment(w, m, 0) == Prod(Pow(4.0, m), MeanOf(w, Even(m), 0))
    ensures Prod(TaylorTerm(delta, m), Moment(w, m, 0)) == Prod(TermWeight(delta, m), MeanOf(w, Even(m), 0))
  {
    hide Prod, TaylorTerm, Moment, MeanOf, Pow, Even;
    ProdLaws(TaylorTerm(delta, m), Pow(4.0, m), MeanOf(w, Even(m), 0));
  }

  // ---- The truncation error ----

  lemma {:induction false} PartialOrdered(n: nat, top: nat, f: int -> real, g: int -> real)
    requires forall x :: f(x) <= g(x)
    ensures Partial(n, top, f) <= Partial(n, top, g)
  {
    hide Prod, Choose;
    if top > 0 {
      PartialOrdered(n, top - 1, f, g);
      var x := 2 * (top - 1) - n;
      ProdOrdered(Choose(n, top - 1) as real, f(x), g(x));
    }
  }

  lemma ProdOrdered(a: real, y: real, z: real)
    requires a >= 0.0 && y <= z
    ensures Prod(a, y) <= Prod(a, z)
  {
  }

  lemma MeanOrdered(n: nat, f: int -> real, g: int -> real)
    requires forall x :: f(x) <= g(x)
    ensures Mean(n, f) <= Mean(n, g)
  {
    hide Partial, Pow2;
    PartialOrdered(n, n + 1, f, g);
    OverOrdered(Walk(n, f), Walk(n, g), Pow2(n) as real);
  }

  lemma OverOrdered(y: real, z: real, d: real)
    requires d > 0.0 && y <= z
    ensures y / d <= z / d
  {
    var u, v := y / d, z / d;
    assert u * d == y && v * d == z;
    CancelledOrder(u, v, d);
  }

  lemma CancelledOrder(u: real, v: real, d: real)
    requires d > 0.0 && u * d <= v * d
    ensures u <= v
  {
  }

  lemma {:induction false} MeanOfOrdered(w: seq<real>, f: int -> real, g: int -> real, from: nat)
    requires (forall i :: 0 <= i < |w| ==> w[i] >= 0.0) && forall x :: f(x) <= g(x)
    ensures MeanOf(w, f, from) <= MeanOf(w, g, from)
  {
    hide Prod, Mean;
    if |w| > 0 {
      MeanOfOrdered(w[1..], f, g, from + 1);
      MeanOrdered(from, f, g);
      ProdOrdered(w[0], Mean(from, f), Mean(from, g));
    }
  }

  function Magnitude(x: real): real {
    if x < 0.0 then -x else x
  }

  /** `f` stays within the first omitted term of the Taylor polynomial, as the cosine of `2 delta x` does. */
  ghost predicate WithinNextTerm(f: int -> real, delta: real, top: nat) {
    forall x: int :: WithinAt(f, delta, top, x)
  }

  predicate WithinAt(f: int -> real, delta: real, top: nat, x: int) {
    Magnitude(f(x) - TaylorAt(delta, top, x)) <= Magnitude(TaylorTerm(Prod(Prod(2.0, delta), x as real), top + 1))
  }

  /** The polynomial and `b` times the next even power. */
  function Shifted(delta: real, top: nat, b: real): int -> real {
    x => ShiftedAt(delta, top, b, x)
  }

  function ShiftedAt(delta: real, top: nat, b: real, x: int): real {
    Prod(1.0, TaylorWalk(delta, top)(x)) + Prod(b, Even(top + 1)(x))
  }

  lemma {:induction false} EvenNonnegative(m: nat, x: int)
    ensures Even(m)(x) >= 0.0
  {
    EvenAt(m, x);
    PowSquared(x as real, m);
    SquareNonnegative(x as real);
    PowNonnegative(Prod(x as real, x as real), m);
  }

  lemma SquareNonnegative(x: real)
    ensures Prod(x, x) >= 0.0
  {
  }

  lemma {:induction false} PowNonnegative(b: real, m: nat)
    requires b >= 0.0
    ensures Pow(b, m) >= 0.0
  {
    hide Prod;
    if m > 0 {
      PowNonnegative(b, m - 1);
      ProdUnits(b, 0.0);
      ProdOrdered(b, 0.0, Pow(b, m - 1));
    }
  }

  lemma MagnitudeProd(a: real, y: real)
    requires y >= 0.0
    ensures Magnitude(Prod(a, y)) == Prod(Magnitude(a), y)
  {
  }

  lemma NextTermSize(delta: real, top: nat, x: int)
    ensures Magnitude(TaylorTerm(Prod(Prod(2.0, delta), x as real), top)) == Prod(Magnitude(TermWeight(delta, top)), Even(top)(x))
  {
    hide Prod, TaylorTerm, Pow, Magnitude;
    EvenAt(top, x);
    EvenNonnegative(top, x);
    TermSplits(delta, x as real, top);
    ProdLaws(TaylorTerm(delta, top), Pow(4.0, top), Pow(x as real, 2 * top));
    MagnitudeProd(TermWeight(delta, top), Even(top)(x));
  }

  lemma Sandwiched(f: int -> real, delta: real, top: nat, x: int)
    requires WithinAt(f, delta, top, x)
    ensures
      var c := Magnitude(TermWeight(delta, top + 1));
      Shifted(delta, top, -c)(x) <= f(x) <= Shifted(delta, top, c)(x)
  {
    hide Prod, TaylorTerm, TermWeight, Even;
    NextTermSize(delta, top + 1, x);
    var c, e, y := Magnitude(TermWeight(delta, top + 1)), Even(top + 1)(x), TaylorWalk(delta, top)(x);
    ProdUnits(y, 0.0);
    ProdUnits(e, c);
    NegProd(c, e);
  }

  lemma NegProd(c: real, e: real)
    ensures Prod(-c, e) == -Prod(c, e)
  {
  }

  lemma ShiftedMean(w: seq<real>, delta: real, top: nat, b: real)
    ensures MeanOf(w, Shifted(delta, top, b), 0) == MeanOf(w, TaylorWalk(delta, top), 0) + Prod(b, MeanOf(w, Even(top + 1), 0))
  {
    hide Prod, MeanOf, Even, TaylorWalk;
    MeanOfLinear(w, Shifted(delta, top, b), TaylorWalk(delta, top), Even(top + 1), 1.0, b, 0);
    ProdUnits(MeanOf(w, TaylorWalk(delta, top), 0), 0.0);
  }

  /**
   Truncating the moment series loses at most the first omitted term: for every histogram of nonnegative
   weights, angle and order, the diagonal echo lies within `delta^(2m) / (2m)! C_2m` of the partial sum, with
   `m` the first order left out.
   */
  lemma TruncationError(w: seq<real>, delta: real, top: nat, f: int -> real, c: real)
    requires Cosine(f, c) && WithinNextTerm(f, delta, top) && forall i :: 0 <= i < |w| ==> w[i] >= 0.0
    ensures Magnitude(Powered(w, c, 0) - Series(w, delta, top)) <= Prod(Magnitude(TaylorTerm(delta, top + 1)), Moment(w, top + 1, 0))
  {
    hide Prod, MeanOf, Even, TaylorWalk, TaylorTerm, Moment, Series, Powered, Cosine, Pow, Shifted, TermWeight, Magnitude;
    var a := Magnitude(TermWeight(delta, top + 1));
    forall x: int ensures Shifted(delta, top, -a)(x) <= f(x) <= Shifted(delta, top, a)(x) {
      assert WithinAt(f, delta, top, x);
      Sandwiched(f, delta, top, x);
    }
    DiagonalEchoIsMean(w, f, c, 0);
    SeriesIsTaylorMean(w, delta, top);
    MeanOfOrdered(w, Shifted(delta, top, -a), f, 0); MeanOfOrdered(w, f, Shifted(delta, top, a), 0);
    ShiftedMean(w, delta, top, a); ShiftedMean(w, delta, top, -a);
    OmittedTerm(w, delta, top + 1);
    Between(Powered(w, c, 0), Series(w, delta, top), a, MeanOf(w, Even(top + 1), 0));
  }

  lemma OmittedTerm(w: seq<real>, delta: real, m: nat)
    ensures Prod(Magnitude(TermWeight(delta, m)), MeanOf(w, Even(m), 0)) == Prod(Magnitude(TaylorTerm(delta, m)), Moment(w, m, 0))
  {
    hide Prod, TaylorTerm, Moment, MeanOf, Pow, Even, Magnitude;
    MomentIsMean(w, m, 0);
    PowNonnegative(4.0, m);
    MagnitudeProd(TaylorTerm(delta, m), Pow(4.0, m));
    ProdLaws(Magnitude(TaylorTerm(delta, m)), Pow(4.0, m), MeanOf(w, Even(m), 0));
  }

  lemma Between(y: real, s: real, a: real, e: real)
    requires s + Prod(-a, e) <= y <= s + Prod(a, e)
    ensures Magnitude(y - s) <= Prod(a, e)
  {
    NegProd(a, e);
  }
}
