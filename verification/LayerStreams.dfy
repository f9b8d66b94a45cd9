/**
 Whole runs through the two-stream merge: each layer splits its rows into the strings that keep their key and
 the sorted branches, merges the two streams, and yields the rows of the simple model.
 */
module LayerStreams {
  import opened Complexes
  import opened Paulis
  import opened PauliSums
  import opened Propagation
  import opened SchmidtMatrix
  import opened MergeStreams
  import Expectation

  // ---- An order on keys ----

  /** The order of one-word keys: by the value of the x word, then of the z word. */
  function KeyRank(): Pauli -> nat {
    (p: Pauli) => Code(p.z + p.x)
  }

  lemma KeyRankOrders(n: nat)
    ensures Order(n, KeyRank())
  {
    hide Code;
    forall p: Pauli, q: Pauli | p.On(n) && q.On(n) && KeyRank()(p) == KeyRank()(q) ensures p == q {
      CodeInjective(p.z + p.x, q.z + q.x);
      assert (p.z + p.x)[..n] == p.z && (p.z + p.x)[n..] == p.x;
      assert (q.z + q.x)[..n] == q.z && (q.z + q.x)[n..] == q.x;
    }
  }

  /** Bit `q` of a word is entry `q` of its row. */
  lemma {:induction false} WordBit(row: Row, q: nat)
    requires q < |row|
    ensures Expectation.TestBit(Code(row), q) == row[q]
  {
    if q > 0 {
      WordBit(row[1..], q - 1);
    }
  }

  /** Keys compare by their x words, and by their z words when those agree. */
  lemma KeyRankLexicographic(n: nat, p: Pauli, q: Pauli)
    requires p.On(n) && q.On(n)
    ensures KeyRank()(p) < KeyRank()(q) <==> Code(p.x) < Code(q.x) || (Code(p.x) == Code(q.x) && Code(p.z) < Code(q.z))
  {
    hide Code, Pow2;
    CodeConcat(p.z, p.x); CodeConcat(q.z, q.x);
    TwoWords(Pow2(n), Code(p.z), Code(p.x), Code(q.z), Code(q.x));
  }

  lemma {:induction false} CodeConcat(a: Row, b: Row)
    ensures Code(a + b) == Code(a) + Pow2(|a|) * Code(b)
  {
    hide Code, Pow2;
    CodeStep(a); CodeStep(a + b);
    if |a| == 0 {
      assert a + b == b;
    } else {
      assert (a + b)[1..] == a[1..] + b;
      CodeConcat(a[1..], b);
      DoubledWord(Bit(a[0]), Code(a[1..]), Pow2(|a| - 1), Code(b));
    }
  }

  lemma CodeStep(a: Row)
    ensures |a| == 0 ==> Code(a) == 0 && Pow2(|a|) == 1
    ensures |a| > 0 ==> Code(a) == Bit(a[0]) + 2 * Code(a[1..]) && Pow2(|a|) == 2 * Pow2(|a| - 1)
  {
  }

  lemma DoubledWord(bit: nat, u: nat, w: nat, c: nat)
    ensures bit + 2 * (u + w * c) == (bit + 2 * u) + (2 * w) * c
  {
  }

  lemma TwoWords(w: nat, a: nat, b: nat, c: nat, d: nat)
    requires a < w && c < w
    ensures a + w * b < c + w * d <==> b < d || (b == d && a < c)
  {
    if b < d {
      NextWord(w, b, d);
    } else if d < b {
      NextWord(w, d, b);
    }
  }

  lemma NextWord(w: nat, b: nat, d: nat)
    requires b < d
    ensures w * b + w <= w * d
  {
    assert w * d == w * (b + 1) + w * (d - b - 1);
    NonnegativeTimes(w, d - b - 1);
  }

  lemma NonnegativeTimes(w: nat, k: nat)
    ensures w * k >= 0
  {
  }

  // ---- Splitting a layer ----

  /** The row of a term that keeps its key. */
  function Stays(r: Rotation, t: Term): (s: Term)
    requires r.g.On(|r.g.x|) && t.p.On(|r.g.x|)
    ensures s.p == t.p
  {
    ApplyAdjoint(r, t)[0]
  }

  /** Its other row, if any. */
  function Branch(r: Rotation, t: Term): (s: seq<Term>)
    requires r.g.On(|r.g.x|) && t.p.On(|r.g.x|)
    ensures OnQubits(|r.g.x|, s)
  {
    ApplyAdjoint(r, t)[1..]
  }

  function Identity(r: Rotation, ts: seq<Term>): (s: seq<Term>)
    requires r.g.On(|r.g.x|) && OnQubits(|r.g.x|, ts)
    ensures |s| == |ts| && forall i :: 0 <= i < |ts| ==> s[i] == Stays(r, ts[i])
  {
    seq(|ts|, i requires 0 <= i < |ts| && OnQubits(|r.g.x|, ts) => Stays(r, ts[i]))
  }

  function Branches(r: Rotation, ts: seq<Term>): (s: seq<Term>)
    requires r.g.On(|r.g.x|) && OnQubits(|r.g.x|, ts)
    ensures OnQubits(|r.g.x|, s)
  {
    if |ts| == 0 then [] else Branch(r, ts[0]) + Branches(r, ts[1..])
  }

  /** The streams hold, key by key, what the layer emits. */
  lemma {:induction false} EmitSplits(r: Rotation, ts: seq<Term>, p: Pauli)
    requires r.g.On(|r.g.x|) && OnQubits(|r.g.x|, ts)
    ensures Coef(p, Emit(r, ts)) == Both(p, Identity(r, ts), Branches(r, ts))
    ensures HasKey(Emit(r, ts), p) <==> HasKey(Identity(r, ts), p) || HasKey(Branches(r, ts), p)
  {
    hide Coef, HasKey, Complex.Plus, ApplyAdjoint, Stays, Branch;
    if |ts| == 0 {
      NoRows(p);
    } else {
      var t, rest := ts[0], ts[1..];
      EmitSplits(r, rest, p);
      var s, b := Stays(r, t), Branch(r, t);
      var rows := ApplyAdjoint(r, t);
      SplitRows(r, t);
      assert Identity(r, ts) == [s] + Identity(r, rest);
      CoefConcat(p, rows, Emit(r, rest)); HasConcat(p, rows, Emit(r, rest));
      CoefConcat(p, [s], b); HasConcat(p, [s], b);
      CoefConcat(p, [s], Identity(r, rest)); HasConcat(p, [s], Identity(r, rest));
      CoefConcat(p, b, Branches(r, rest)); HasConcat(p, b, Branches(r, rest));
      PlusSwap(Coef(p, [s]), Coef(p, b), Coef(p, Identity(r, rest)), Coef(p, Branches(r, rest)));
    }
  }

  lemma NoRows(p: Pauli)
    ensures Coef(p, []) == ZERO && Both(p, [], []) == ZERO && !HasKey([], p)
  {
    PlusZero(ZERO);
  }

  lemma SplitRows(r: Rotation, t: Term)
    requires r.g.On(|r.g.x|) && t.p.On(|r.g.x|)
    ensures ApplyAdjoint(r, t) == [Stays(r, t)] + Branch(r, t)
  {
  }

  // ---- Sorting the branches ----

  function InsertByRank(rank: Pauli -> nat, t: Term, ts: seq<Term>): seq<Term> {
    if |ts| == 0 || rank(t.p) <= rank(ts[0].p) then [t] + ts else [ts[0]] + InsertByRank(rank, t, ts[1..])
  }

  function SortByRank(rank: Pauli -> nat, ts: seq<Term>): seq<Term> {
    if |ts| == 0 then [] else InsertByRank(rank, ts[0], SortByRank(rank, ts[1..]))
  }

  lemma {:induction false} InsertRows(n: nat, rank: Pauli -> nat, t: Term, ts: seq<Term>)
    requires InOrder(rank, ts) && OnQubits(n, ts) && t.p.On(n)
    ensures InOrder(rank, InsertByRank(rank, t, ts)) && OnQubits(n, InsertByRank(rank, t, ts))
    ensures forall u :: u in InsertByRank(rank, t, ts) <==> u == t || u in ts
  {
    if |ts| > 0 && rank(t.p) > rank(ts[0].p) {
      var rest := InsertByRank(rank, t, ts[1..]);
      InsertRows(n, rank, t, ts[1..]);
      assert ts == [ts[0]] + ts[1..];
      forall j | 0 <= j < |rest| ensures rank(ts[0].p) <= rank(rest[j].p) {
        assert rest[j] in rest;
      }
    }
  }

  lemma {:induction false} InsertCoef(rank: Pauli -> nat, t: Term, ts: seq<Term>, p: Pauli)
    ensures Coef(p, InsertByRank(rank, t, ts)) == Coef(p, [t] + ts)
    ensures HasKey(InsertByRank(rank, t, ts), p) <==> HasKey([t] + ts, p)
  {
    hide Coef, HasKey, Complex.Plus;
    if |ts| > 0 && rank(t.p) > rank(ts[0].p) {
      var s, rest := ts[0], ts[1..];
      InsertCoef(rank, t, rest, p);
      assert ts == [s] + rest;
      CoefConcat(p, [s], InsertByRank(rank, t, rest)); HasConcat(p, [s], InsertByRank(rank, t, rest));
      CoefConcat(p, [t], rest); HasConcat(p, [t], rest);
      CoefConcat(p, [t], ts); HasConcat(p, [t], ts);
      CoefConcat(p, [s], rest); HasConcat(p, [s], rest);
      FrontSwap(Coef(p, [s]), Coef(p, [t]), Coef(p, rest));
    }
  }

  lemma FrontSwap(a: Complex, b: Complex, c: Complex)
    ensures a.Plus(b.Plus(c)) == b.Plus(a.Plus(c))
  {
  }

  lemma {:induction false} SortRows(n: nat, rank: Pauli -> nat, ts: seq<Term>, p: Pauli)
    requires OnQubits(n, ts)
    ensures InOrder(rank, SortByRank(rank, ts)) && OnQubits(n, SortByRank(rank, ts))
    ensures Coef(p, SortByRank(rank, ts)) == Coef(p, ts) && (HasKey(SortByRank(rank, ts), p) <==> HasKey(ts, p))
  {
    hide Coef, HasKey, Complex.Plus, InOrder, InsertByRank;
    if |ts| == 0 {
      NothingInOrder(rank);
    } else {
      var t, rest := ts[0], ts[1..];
      SortRows(n, rank, rest, p);
      var sorted := SortByRank(rank, rest);
      InsertRows(n, rank, t, sorted);
      InsertCoef(rank, t, sorted, p);
      assert ts == [t] + rest;
      CoefConcat(p, [t], sorted); HasConcat(p, [t], sorted);
      CoefConcat(p, [t], rest); HasConcat(p, [t], rest);
    }
  }

  lemma NothingInOrder(rank: Pauli -> nat)
    ensures InOrder(rank, [])
  {
  }

  // ---- One layer ----

  /** The rows of a layer, read off what it emits. */
  lemma LayerRow(n: nat, r: Rotation, keep: Term -> bool, ts: seq<Term>, t: Term)
    requires r.On(n) && OnQubits(n, ts)
    ensures OnQubits(n, Emit(r, ts))
    ensures t in Layer(r, keep, ts) <==> HasKey(Emit(r, ts), t.p) && t.c == Coef(t.p, Emit(r, ts)) && t.c != ZERO && keep(t)
  {
    hide Coef, HasKey, Merge, Kept, Complex.Plus, Distinct, SumMat, Emit;
    EmitIsConjugation(n, r, ts);
    var rows := Emit(r, ts);
    MergeMat(n, rows);
    InKept(keep, Merge(rows), t);
    InDistinct(Merge(rows), t);
    MergeCoef(n, t.p, rows);
  }

  /** Merging the two streams of a layer gives the layer's rows. */
  lemma StreamsAreLayer(n: nat, r: Rotation, rank: Pauli -> nat, keep: Term -> bool, ts: seq<Term>, out: seq<Term>, t: Term)
    requires r.On(n) && OnQubits(n, ts) && Exact(keep, out, Identity(r, ts), SortByRank(rank, Branches(r, ts)))
    ensures t in out <==> t in Layer(r, keep, ts)
  {
    hide Coef, HasKey, Complex.Plus, Layer, Emit, Identity, Branches, SortByRank, OnQubits;
    LayerRow(n, r, keep, ts, t);
    EmitSplits(r, ts, t.p);
    SortRows(n, rank, Branches(r, ts), t.p);
    assert t in out <==> Due(keep, t, Identity(r, ts), SortByRank(rank, Branches(r, ts)));
  }

  lemma IdentityAscends(n: nat, r: Rotation, rank: Pauli -> nat, ts: seq<Term>)
    requires r.On(n) && OnQubits(n, ts) && Ascending(rank, ts)
    ensures Ascending(rank, Identity(r, ts)) && OnQubits(n, Identity(r, ts))
  {
    hide Stays;
  }

  /** A rotation layer as the engine runs it: ascending rows in, ascending rows out, the rows of the simple layer. */
  method RotationLayer(n: nat, r: Rotation, rank: Pauli -> nat, keep: Term -> bool, ts: seq<Term>) returns (out: seq<Term>)
    requires r.On(n) && OnQubits(n, ts) && Order(n, rank) && Ascending(rank, ts)
    ensures Ascending(rank, out) && forall t :: t in out <==> t in Layer(r, keep, ts)
  {
    hide Coef, HasKey, Layer, Identity, Branches, SortByRank, Exact, Order, Ascending, InOrder;
    IdentityAscends(n, r, rank, ts);
    SortRows(n, rank, Branches(r, ts), r.g);
    out := MergeIdentityAndRest(n, rank, keep, Identity(r, ts), SortByRank(rank, Branches(r, ts)));
    forall t ensures t in out <==> t in Layer(r, keep, ts) {
      StreamsAreLayer(n, r, rank, keep, ts, out, t);
    }
  }

  // ---- A whole run ----

  ghost predicate SameRows(xs: seq<Term>, ys: seq<Term>) {
    forall t: Term :: t in xs <==> t in ys
  }

  lemma {:induction false} EmitConcat(r: Rotation, a: seq<Term>, b: seq<Term>)
    requires r.g.On(|r.g.x|) && OnQubits(|r.g.x|, a) && OnQubits(|r.g.x|, b)
    ensures Emit(r, a + b) == Emit(r, a) + Emit(r, b)
  {
    hide ApplyAdjoint;
    if |a| == 0 {
      assert a + b == b;
    } else {
      assert (a + b)[1..] == a[1..] + b;
      EmitConcat(r, a[1..], b);
    }
  }

  /** Where the first row of one list sits in another with the same distinct rows. */
  lemma Matched(xs: seq<Term>, ys: seq<Term>) returns (k: nat)
    requires |xs| > 0 && Distinct(xs) && Distinct(ys) && SameRows(xs, ys)
    ensures k < |ys| && ys[k] == xs[0]
    ensures Distinct(xs[1..]) && Distinct(ys[..k] + ys[k + 1..]) && SameRows(xs[1..], ys[..k] + ys[k + 1..])
  {
    assert xs[0] in ys;
    k :| 0 <= k < |ys| && ys[k] == xs[0];
    var rest := ys[..k] + ys[k + 1..];
    forall i, j | 0 <= i < j < |rest| ensures rest[i].p != rest[j].p {
      assert rest[i] == ys[if i < k then i else i + 1] && rest[j] == ys[if j < k then j else j + 1];
    }
    forall t: Term ensures t in xs[1..] <==> t in rest {
      Without(xs, 0, t); Without(ys, k, t);
      assert xs[..0] + xs[1..] == xs[1..];
      assert t in xs <==> t in ys;
    }
  }

  lemma Without(xs: seq<Term>, k: nat, t: Term)
    requires k < |xs| && Distinct(xs)
    ensures t in xs[..k] + xs[k + 1..] <==> t in xs && t != xs[k]
  {
    if t in xs && t != xs[k] {
      var i :| 0 <= i < |xs| && xs[i] == t;
      if i < k {
        assert xs[..k][i] == t;
      } else {
        assert xs[k + 1..][i - k - 1] == t;
      }
    }
  }

  /** What a layer emits does not depend on the order of its rows. */
  lemma {:induction false} EmitSame(r: Rotation, xs: seq<Term>, ys: seq<Term>, p: Pauli)
    requires r.g.On(|r.g.x|) && OnQubits(|r.g.x|, xs) && OnQubits(|r.g.x|, ys) && Distinct(xs) && Distinct(ys) && SameRows(xs, ys)
    ensures Coef(p, Emit(r, xs)) == Coef(p, Emit(r, ys)) && (HasKey(Emit(r, xs), p) <==> HasKey(Emit(r, ys), p))
    decreases |xs|
  {
    hide Coef, HasKey, Complex.Plus, Emit, Distinct, SameRows;
    if |xs| == 0 {
      NoneSame(xs, ys);
    } else {
      var k := Matched(xs, ys);
      var a, b, t := ys[..k], ys[k + 1..], [xs[0]];
      EmitSame(r, xs[1..], a + b, p);
      assert xs == t + xs[1..] && ys == a + (t + b);
      EmitConcat(r, t, xs[1..]); EmitConcat(r, a, b); EmitConcat(r, a, t + b); EmitConcat(r, t, b);
      CoefConcat(p, Emit(r, t), Emit(r, xs[1..])); HasConcat(p, Emit(r, t), Emit(r, xs[1..]));
      CoefConcat(p, Emit(r, a), Emit(r, b)); HasConcat(p, Emit(r, a), Emit(r, b));
      CoefConcat(p, Emit(r, t), Emit(r, b)); HasConcat(p, Emit(r, t), Emit(r, b));
      CoefConcat(p, Emit(r, a), Emit(r, t) + Emit(r, b)); HasConcat(p, Emit(r, a), Emit(r, t) + Emit(r, b));
      FrontSwap(Coef(p, Emit(r, t)), Coef(p, Emit(r, a)), Coef(p, Emit(r, b)));
    }
  }

  lemma NoneSame(xs: seq<Term>, ys: seq<Term>)
    requires |xs| == 0 && SameRows(xs, ys)
    ensures ys == xs
  {
    FirstIn(ys);
  }

  lemma FirstIn(ys: seq<Term>)
    ensures |ys| == 0 || ys[0] in ys
  {
  }

  lemma LayerSame(n: nat, r: Rotation, keep: Term -> bool, xs: seq<Term>, ys: seq<Term>, t: Term)
    requires r.On(n) && OnQubits(n, xs) && OnQubits(n, ys) && Distinct(xs) && Distinct(ys) && SameRows(xs, ys)
    ensures t in Layer(r, keep, xs) <==> t in Layer(r, keep, ys)
  {
    hide Coef, HasKey, Layer, Emit, Distinct, SameRows;
    LayerRow(n, r, keep, xs, t); LayerRow(n, r, keep, ys, t);
    EmitSame(r, xs, ys, t.p);
  }

  lemma AscendingDistinct(rank: Pauli -> nat, ts: seq<Term>)
    requires Ascending(rank, ts)
    ensures Distinct(ts)
  {
    forall i, j | 0 <= i < j < |ts| ensures ts[i].p != ts[j].p {
      assert rank(ts[i].p) < rank(ts[j].p);
    }
  }

  lemma RowsOn(n: nat, xs: seq<Term>, ys: seq<Term>)
    requires SameRows(xs, ys) && OnQubits(n, ys)
    ensures OnQubits(n, xs)
  {
    forall i | 0 <= i < |xs| ensures xs[i].p.On(n) {
      assert xs[i] in xs;
      assert xs[i] in ys;
    }
  }

  lemma SameRowsIs(xs: seq<Term>, ys: seq<Term>)
    requires forall t: Term :: t in xs <==> t in ys
    ensures SameRows(xs, ys)
  {
  }

  /** One layer of the run keeps the correspondence. */
  lemma StepSame(n: nat, r: Rotation, keep: Term -> bool, xs: seq<Term>, ys: seq<Term>, out: seq<Term>)
    requires r.On(n) && OnQubits(n, xs) && OnQubits(n, ys) && Distinct(xs) && Distinct(ys) && SameRows(xs, ys)
    requires forall t: Term :: t in out <==> t in Layer(r, keep, xs)
    ensures OnQubits(n, Layer(r, keep, ys)) && SameRows(out, Layer(r, keep, ys)) && OnQubits(n, out)
  {
    hide Layer, Distinct, SameRows, OnQubits;
    LayerKeys(n, r, keep, ys);
    forall t: Term ensures t in out <==> t in Layer(r, keep, ys) {
      LayerSame(n, r, keep, xs, ys, t);
    }
    SameRowsIs(out, Layer(r, keep, ys));
    RowsOn(n, out, Layer(r, keep, ys));
  }

  /** Heisenberg propagation through ascending streams: the rows of the simple run, in ascending order, for every circuit and policy. */
  method PropagateStreams(n: nat, gs: seq<Rotation>, rank: Pauli -> nat, keep: Term -> bool, ts: seq<Term>) returns (out: seq<Term>)
    requires CircuitOn(n, gs) && OnQubits(n, ts) && Order(n, rank) && Ascending(rank, ts)
    ensures Distinct(ts)
    ensures Ascending(rank, out) && SameRows(out, Run(n, gs, keep, ts))
  {
    hide Ascending, Order, Distinct, SameRows, Layer, OnQubits;
    AscendingDistinct(rank, ts);
    out := ts;
    SameRowsIs(ts, ts);
    assert gs[|gs|..] == [];
    for k := |gs| downto 0
      invariant CircuitOn(n, gs[k..]) && OnQubits(n, out) && Ascending(rank, out) && SameRows(out, Run(n, gs[k..], keep, ts))
    {
      assert gs[k..][1..] == gs[k + 1..];
      ghost var simple := Run(n, gs[k + 1..], keep, ts);
      AscendingDistinct(rank, out);
      var next := RotationLayer(n, gs[k], rank, keep, out);
      StepSame(n, gs[k], keep, out, simple, next);
      out := next;
    }
    assert gs[0..] == gs;
  }
}
