/**
 The engine's two-stream merge: a strictly ascending stream and a sorted one, walked once, equal keys summed
 before the policy sees them.  It keeps exactly what merging all rows and then dropping would keep.
 */
module MergeStreams {
  import opened Complexes
  import opened Paulis
  import opened PauliSums
  import opened Propagation

  /** A total order on the keys of `n` qubits, by an injective position. */
  ghost predicate Order(n: nat, rank: Pauli -> nat) {
    forall p: Pauli, q: Pauli :: p.On(n) && q.On(n) && rank(p) == rank(q) ==> p == q
  }

  predicate Ascending(rank: Pauli -> nat, ts: seq<Term>) {
    forall i, j :: 0 <= i < j < |ts| ==> rank(ts[i].p) < rank(ts[j].p)
  }

  predicate InOrder(rank: Pauli -> nat, ts: seq<Term>) {
    forall i, j :: 0 <= i < j < |ts| ==> rank(ts[i].p) <= rank(ts[j].p)
  }

  predicate AllBelow(rank: Pauli -> nat, ts: seq<Term>, m: nat) {
    forall i :: 0 <= i < |ts| ==> rank(ts[i].p) < m
  }

  predicate AllFrom(rank: Pauli -> nat, ts: seq<Term>, m: nat) {
    forall i :: 0 <= i < |ts| ==> rank(ts[i].p) >= m
  }

  // ---- What the output must hold ----

  /** Total coefficient of a key over both streams. */
  function Both(p: Pauli, x: seq<Term>, y: seq<Term>): Complex {
    Coef(p, x).Plus(Coef(p, y))
  }

  /** The rows a merge of `x` and `y` must emit. */
  ghost predicate Due(keep: Term -> bool, t: Term, x: seq<Term>, y: seq<Term>) {
    (HasKey(x, t.p) || HasKey(y, t.p)) && t.c == Both(t.p, x, y) && t.c != ZERO && keep(t)
  }

  ghost predicate Exact(keep: Term -> bool, out: seq<Term>, x: seq<Term>, y: seq<Term>) {
    forall t: Term :: t in out <==> Due(keep, t, x, y)
  }

  /** `x'` is `x` with more rows of one key. */
  ghost predicate Grew(key: Pauli, x: seq<Term>, x': seq<Term>) {
    forall p: Pauli :: p != key ==> Unmoved(p, x, x')
  }

  ghost predicate Unmoved(p: Pauli, x: seq<Term>, x': seq<Term>) {
    HasKey(x, p) == HasKey(x', p) && Coef(p, x) == Coef(p, x')
  }

  lemma {:induction false} CoefSnoc(p: Pauli, x: seq<Term>, t: Term)
    ensures Coef(p, x + [t]) == if t.p == p then Coef(p, x).Plus(t.c) else Coef(p, x)
  {
    hide Complex.Plus;
    if |x| == 0 {
      assert x + [t] == [t] && [t][1..] == [];
      PlusZero(t.c); PlusZero(ZERO);
    } else {
      assert (x + [t])[1..] == x[1..] + [t];
      CoefSnoc(p, x[1..], t);
      PlusAssoc(if x[0].p == p then x[0].c else ZERO, Coef(p, x[1..]), t.c);
    }
  }

  lemma HasSnoc(p: Pauli, x: seq<Term>, t: Term)
    ensures HasKey(x + [t], p) <==> HasKey(x, p) || t.p == p
  {
    if HasKey(x, p) {
      var i :| 0 <= i < |x| && x[i].p == p;
      assert (x + [t])[i].p == p;
    }
    assert (x + [t])[|x|] == t;
  }

  lemma GrewOne(x: seq<Term>, t: Term)
    ensures Grew(t.p, x, x + [t]) && HasKey(x + [t], t.p) && Coef(t.p, x + [t]) == Coef(t.p, x).Plus(t.c)
  {
    hide Coef, HasKey;
    forall p: Pauli | p != t.p ensures Unmoved(p, x, x + [t]) {
      CoefSnoc(p, x, t); HasSnoc(p, x, t);
    }
    CoefSnoc(t.p, x, t); HasSnoc(t.p, x, t);
  }

  lemma GrewNone(key: Pauli, x: seq<Term>)
    ensures Grew(key, x, x)
  {
  }

  lemma GrewAgain(key: Pauli, x: seq<Term>, y: seq<Term>, z: seq<Term>)
    requires Grew(key, x, y) && Grew(key, y, z)
    ensures Grew(key, x, z)
  {
    hide Coef, HasKey;
    forall p: Pauli | p != key ensures Unmoved(p, x, z) {
      assert Unmoved(p, x, y) && Unmoved(p, y, z);
    }
  }

  /** `emit_if_kept`. */
  function Emitted(keep: Term -> bool, out: seq<Term>, t: Term): seq<Term> {
    if t.c != ZERO && keep(t) then out + [t] else out
  }

  /** All rows of a new key, summed and offered to the policy. */
  lemma EmitExact(keep: Term -> bool, out: seq<Term>, x: seq<Term>, y: seq<Term>, x': seq<Term>, y': seq<Term>, t: Term)
    requires Exact(keep, out, x, y) && !HasKey(x, t.p) && !HasKey(y, t.p)
    requires Grew(t.p, x, x') && Grew(t.p, y, y') && (HasKey(x', t.p) || HasKey(y', t.p)) && t.c == Both(t.p, x', y')
    ensures Exact(keep, Emitted(keep, out, t), x', y')
  {
    hide Coef, HasKey, Grew, Complex.Plus;
    forall u: Term ensures u in Emitted(keep, out, t) <==> Due(keep, u, x', y') {
      assert u in out <==> Due(keep, u, x, y);
      if u.p != t.p {
        GrewKeeps(t.p, x, x', u.p); GrewKeeps(t.p, y, y', u.p);
      }
    }
  }

  lemma GrewKeeps(key: Pauli, x: seq<Term>, x': seq<Term>, p: Pauli)
    requires Grew(key, x, x') && p != key
    ensures HasKey(x, p) == HasKey(x', p) && Coef(p, x) == Coef(p, x')
  {
    hide Coef, HasKey;
    assert Unmoved(p, x, x');
  }

  lemma EmitAscends(rank: Pauli -> nat, keep: Term -> bool, out: seq<Term>, t: Term, m: nat)
    requires Ascending(rank, out) && AllBelow(rank, out, m) && m <= rank(t.p)
    ensures Ascending(rank, Emitted(keep, out, t)) && AllBelow(rank, Emitted(keep, out, t), rank(t.p) + 1)
  {
  }

  lemma NotBelow(rank: Pauli -> nat, ts: seq<Term>, m: nat, p: Pauli)
    requires AllBelow(rank, ts, m) && rank(p) >= m
    ensures !HasKey(ts, p)
  {
  }

  // ---- The walk ----

  /** How far the walk has come: `i` rows of the ascending stream, `j` of the sorted one, all keys below `m` done. */
  ghost predicate Walked(rank: Pauli -> nat, keep: Term -> bool, a: seq<Term>, b: seq<Term>, out: seq<Term>, i: nat, j: nat, m: nat) {
    && i <= |a| && j <= |b|
    && Exact(keep, out, a[..i], b[..j]) && Ascending(rank, out) && AllBelow(rank, out, m)
    && AllBelow(rank, a[..i], m) && AllBelow(rank, b[..j], m) && AllFrom(rank, a[i..], m) && AllFrom(rank, b[j..], m)
  }

  lemma WalkStart(rank: Pauli -> nat, keep: Term -> bool, a: seq<Term>, b: seq<Term>)
    ensures Walked(rank, keep, a, b, [], 0, 0, 0)
  {
    assert a[..0] == [] && b[..0] == [];
    forall t: Term ensures t in [] <==> Due(keep, t, [], []) {
    }
  }

  /** The rest of a run of equal keys in the sorted stream. */
  method CollectRun(key: Pauli, b: seq<Term>, j0: nat, j1: nat, x: seq<Term>, first: Complex) returns (j: nat, sum: Complex)
    requires j0 <= j1 <= |b| && Grew(key, b[..j0], b[..j1]) && first == Both(key, x, b[..j1])
    ensures j1 <= j <= |b| && (forall k :: j1 <= k < j ==> b[k].p == key) && (j < |b| ==> b[j].p != key)
    ensures Grew(key, b[..j0], b[..j]) && sum == Both(key, x, b[..j])
    ensures HasKey(b[..j1], key) ==> HasKey(b[..j], key)
  {
    hide Grew, Coef, HasKey, Complex.Plus;
    j, sum := j1, first;
    while j < |b| && b[j].p == key
      invariant j1 <= j <= |b| && (forall k :: j1 <= k < j ==> b[k].p == key)
      invariant Grew(key, b[..j0], b[..j]) && sum == Both(key, x, b[..j])
      invariant HasKey(b[..j1], key) ==> HasKey(b[..j], key)
    {
      GrewOne(b[..j], b[j]);
      assert b[..j + 1] == b[..j] + [b[j]];
      GrewAgain(key, b[..j0], b[..j], b[..j + 1]);
      PlusAssoc(Coef(key, x), Coef(key, b[..j]), b[j].c);
      sum := sum.Plus(b[j].c);
      j := j + 1;
    }
  }

  /** One key done: the walk moves past all its rows. */
  lemma WalkStep(rank: Pauli -> nat, keep: Term -> bool, a: seq<Term>, b: seq<Term>, out: seq<Term>, i: nat, j: nat, m: nat, i': nat, j': nat, t: Term)
    requires Ascending(rank, a) && InOrder(rank, b) && Walked(rank, keep, a, b, out, i, j, m)
    requires i <= i' <= |a| && j <= j' <= |b| && rank(t.p) >= m
    requires (forall k :: i <= k < i' ==> a[k].p == t.p) && (forall k :: j <= k < j' ==> b[k].p == t.p)
    requires (i' < |a| ==> rank(a[i'].p) > rank(t.p)) && (j' < |b| ==> rank(b[j'].p) > rank(t.p))
    requires Grew(t.p, a[..i], a[..i']) && Grew(t.p, b[..j], b[..j'])
    requires (HasKey(a[..i'], t.p) || HasKey(b[..j'], t.p)) && t.c == Both(t.p, a[..i'], b[..j'])
    ensures Walked(rank, keep, a, b, Emitted(keep, out, t), i', j', rank(t.p) + 1)
  {
    hide Coef, HasKey, Grew, Complex.Plus, Exact, Emitted;
    NotBelow(rank, a[..i], m, t.p); NotBelow(rank, b[..j], m, t.p);
    EmitExact(keep, out, a[..i], b[..j], a[..i'], b[..j'], t);
    EmitAscends(rank, keep, out, t, m);
    Moved(rank, a, i, i', m, t.p);
    Moved(rank, b, j, j', m, t.p);
  }

  lemma Moved(rank: Pauli -> nat, s: seq<Term>, i: nat, i': nat, m: nat, p: Pauli)
    requires InOrder(rank, s) && i <= i' <= |s| && AllBelow(rank, s[..i], m) && rank(p) >= m
    requires (forall k :: i <= k < i' ==> s[k].p == p) && (i' < |s| ==> rank(s[i'].p) > rank(p))
    ensures AllBelow(rank, s[..i'], rank(p) + 1) && AllFrom(rank, s[i'..], rank(p) + 1)
  {
    forall k | 0 <= k < i' ensures rank(s[..i'][k].p) < rank(p) + 1 {
      if k < i {
        assert rank(s[..i][k].p) < m;
      }
    }
    forall k | 0 <= k < |s| - i' ensures rank(s[i'..][k].p) >= rank(p) + 1 {
      assert rank(s[i'].p) <= rank(s[i' + k].p);
    }
  }

  lemma TakeFirst(x: seq<Term>, y: seq<Term>, t: Term)
    requires !HasKey(x, t.p) && !HasKey(y, t.p)
    ensures Both(t.p, x + [t], y) == t.c && Both(t.p, x, y + [t]) == t.c
  {
    hide Coef, HasKey, Complex.Plus;
    CoefAbsent(t.p, x); CoefAbsent(t.p, y);
    CoefSnoc(t.p, x, t); CoefSnoc(t.p, y, t);
    PlusZero(t.c);
  }

  /** A row past a run of one key lies above it. */
  lemma PastRun(n: nat, rank: Pauli -> nat, b: seq<Term>, j: nat, j': nat, key: Pauli)
    requires Order(n, rank) && OnQubits(n, b) && key.On(n) && InOrder(rank, b) && j <= j' < |b| && rank(b[j].p) >= rank(key) && b[j'].p != key
    ensures rank(b[j'].p) > rank(key)
  {
  }

  /** The next row of the ascending stream starts a key. */
  lemma FromAscending(rank: Pauli -> nat, keep: Term -> bool, a: seq<Term>, b: seq<Term>, out: seq<Term>, i: nat, j: nat, m: nat)
    requires Walked(rank, keep, a, b, out, i, j, m) && i < |a|
    ensures rank(a[i].p) >= m && Both(a[i].p, a[..i + 1], b[..j]) == a[i].c
    ensures Grew(a[i].p, a[..i], a[..i + 1]) && HasKey(a[..i + 1], a[i].p) && Grew(a[i].p, b[..j], b[..j])
  {
    hide Coef, HasKey, Grew, Exact;
    assert a[i..][0] == a[i] && a[..i + 1] == a[..i] + [a[i]];
    NotBelow(rank, a[..i], m, a[i].p); NotBelow(rank, b[..j], m, a[i].p);
    TakeFirst(a[..i], b[..j], a[i]);
    GrewOne(a[..i], a[i]); GrewNone(a[i].p, b[..j]);
  }

  /** The next row of the sorted stream starts a key. */
  lemma FromSorted(rank: Pauli -> nat, keep: Term -> bool, a: seq<Term>, b: seq<Term>, out: seq<Term>, i: nat, j: nat, m: nat)
    requires Walked(rank, keep, a, b, out, i, j, m) && j < |b|
    ensures rank(b[j].p) >= m && Both(b[j].p, a[..i], b[..j + 1]) == b[j].c
    ensures Grew(b[j].p, b[..j], b[..j + 1]) && HasKey(b[..j + 1], b[j].p) && Grew(b[j].p, a[..i], a[..i])
  {
    hide Coef, HasKey, Grew, Exact;
    assert b[j..][0] == b[j] && b[..j + 1] == b[..j] + [b[j]];
    NotBelow(rank, a[..i], m, b[j].p); NotBelow(rank, b[..j], m, b[j].p);
    TakeFirst(a[..i], b[..j], b[j]);
    GrewOne(b[..j], b[j]); GrewNone(b[j].p, a[..i]);
  }

  /** One key that starts in the sorted stream, with the ascending stream above it. */
  method SortedKey(n: nat, rank: Pauli -> nat, keep: Term -> bool, a: seq<Term>, b: seq<Term>, out: seq<Term>, i: nat, j: nat, ghost m: nat)
    returns (out': seq<Term>, j': nat, ghost m': nat)
    requires Order(n, rank) && OnQubits(n, a) && OnQubits(n, b) && Ascending(rank, a) && InOrder(rank, b) && Walked(rank, keep, a, b, out, i, j, m)
    requires i <= |a| && j < |b| && (i < |a| ==> rank(a[i].p) > rank(b[j].p))
    ensures j < j' <= |b| && Walked(rank, keep, a, b, out', i, j', m')
  {
    hide Coef, HasKey, Grew, Exact, Walked, Order, Complex.Plus;
    FromSorted(rank, keep, a, b, out, i, j, m);
    var sum: Complex;
    j', sum := CollectRun(b[j].p, b, j, j + 1, a[..i], b[j].c);
    var t := Term(b[j].p, sum);
    if j' < |b| {
      PastRun(n, rank, b, j, j', t.p);
    }
    WalkStep(rank, keep, a, b, out, i, j, m, i, j', t);
    out', m' := Emitted(keep, out, t), rank(t.p) + 1;
  }

  /** One key that starts in the ascending stream, with the sorted stream not below it. */
  method AscendingKey(n: nat, rank: Pauli -> nat, keep: Term -> bool, a: seq<Term>, b: seq<Term>, out: seq<Term>, i: nat, j: nat, ghost m: nat)
    returns (out': seq<Term>, j': nat, ghost m': nat)
    requires Order(n, rank) && OnQubits(n, a) && OnQubits(n, b) && Ascending(rank, a) && InOrder(rank, b) && Walked(rank, keep, a, b, out, i, j, m)
    requires i < |a| && j <= |b| && (j < |b| ==> rank(a[i].p) <= rank(b[j].p))
    ensures j <= j' <= |b| && Walked(rank, keep, a, b, out', i + 1, j', m')
  {
    hide Coef, HasKey, Grew, Exact, Walked, Order, Complex.Plus;
    FromAscending(rank, keep, a, b, out, i, j, m);
    var sum: Complex;
    j', sum := CollectRun(a[i].p, b, j, j, a[..i + 1], a[i].c);
    var t := Term(a[i].p, sum);
    if j' < |b| {
      PastRun(n, rank, b, j, j', t.p);
    }
    WalkStep(rank, keep, a, b, out, i, j, m, i + 1, j', t);
    out', m' := Emitted(keep, out, t), rank(t.p) + 1;
  }

  /** `merge_identity_and_rest`: strictly ascending output holding exactly the due rows. */
  method MergeIdentityAndRest(n: nat, rank: Pauli -> nat, keep: Term -> bool, identity: seq<Term>, rest: seq<Term>) returns (out: seq<Term>)
    requires Order(n, rank) && OnQubits(n, identity) && OnQubits(n, rest) && Ascending(rank, identity) && InOrder(rank, rest)
    ensures Ascending(rank, out) && Exact(keep, out, identity, rest)
  {
    hide Exact, Walked, Order, Ascending, InOrder;
    out := [];
    var i, j := 0, 0;
    ghost var m := 0;
    WalkStart(rank, keep, identity, rest);
    while i < |identity| && j < |rest|
      invariant 0 <= i <= |identity| && 0 <= j <= |rest| && m >= 0 && Walked(rank, keep, identity, rest, out, i, j, m)
      decreases |identity| - i + |rest| - j
    {
      if rank(identity[i].p) <= rank(rest[j].p) {
        out, j, m := AscendingKey(n, rank, keep, identity, rest, out, i, j, m);
        i := i + 1;
      } else {
        out, j, m := SortedKey(n, rank, keep, identity, rest, out, i, j, m);
      }
    }
    while i < |identity|
      invariant 0 <= i <= |identity| && 0 <= j <= |rest| && m >= 0 && Walked(rank, keep, identity, rest, out, i, j, m)
      invariant i == |identity| || j == |rest|
    {
      out, j, m := AscendingKey(n, rank, keep, identity, rest, out, i, j, m);
      i := i + 1;
    }
    while j < |rest|
      invariant i == |identity| && 0 <= j <= |rest| && m >= 0 && Walked(rank, keep, identity, rest, out, i, j, m)
    {
      out, j, m := SortedKey(n, rank, keep, identity, rest, out, i, j, m);
    }
    WalkEnd(rank, keep, identity, rest, out, m);
  }

  lemma WalkEnd(rank: Pauli -> nat, keep: Term -> bool, a: seq<Term>, b: seq<Term>, out: seq<Term>, m: nat)
    requires Walked(rank, keep, a, b, out, |a|, |b|, m)
    ensures Ascending(rank, out) && Exact(keep, out, a, b)
  {
    hide Exact;
    assert a[..|a|] == a && b[..|b|] == b;
  }

  // ---- Against merging everything ----

  lemma {:induction false} CoefConcat(p: Pauli, x: seq<Term>, y: seq<Term>)
    ensures Coef(p, x + y) == Both(p, x, y)
  {
    hide Complex.Plus;
    if |x| == 0 {
      assert x + y == y;
      PlusZero(Coef(p, y));
    } else {
      assert (x + y)[1..] == x[1..] + y;
      CoefConcat(p, x[1..], y);
      PlusAssoc(if x[0].p == p then x[0].c else ZERO, Coef(p, x[1..]), Coef(p, y));
    }
  }

  lemma HasConcat(p: Pauli, x: seq<Term>, y: seq<Term>)
    ensures HasKey(x + y, p) <==> HasKey(x, p) || HasKey(y, p)
  {
    if HasKey(x, p) {
      var i :| 0 <= i < |x| && x[i].p == p;
      assert (x + y)[i].p == p;
    }
    if HasKey(y, p) {
      var i :| 0 <= i < |y| && y[i].p == p;
      assert (x + y)[|x| + i].p == p;
    }
  }

  lemma {:induction false} AddTermCoef(p: Pauli, ts: seq<Term>, t: Term)
    ensures Coef(p, AddTerm(ts, t)) == Coef(p, ts + [t])
    ensures HasKey(AddTerm(ts, t), p) <==> HasKey(ts + [t], p)
  {
    hide Complex.Plus, Coef, HasKey;
    CoefSnoc(p, ts, t); HasSnoc(p, ts, t);
    if |ts| == 0 {
      assert ts + [t] == [t];
    } else {
      var s, rest := ts[0], ts[1..];
      assert ts == [s] + rest;
      CoefConcat(p, [s], rest); HasConcat(p, [s], rest);
      if s.p == t.p {
        var u := Term(t.p, s.c.Plus(t.c));
        CoefConcat(p, [u], rest); HasConcat(p, [u], rest);
        OneCoef(p, s); OneCoef(p, u);
        Rotate(s.c, t.c, Coef(p, rest));
      } else {
        AddTermCoef(p, rest, t);
        CoefSnoc(p, rest, t); HasSnoc(p, rest, t);
        CoefConcat(p, [s], AddTerm(rest, t)); HasConcat(p, [s], AddTerm(rest, t));
        PlusAssoc(Coef(p, [s]), Coef(p, rest), t.c);
      }
    }
  }

  lemma OneCoef(p: Pauli, t: Term)
    ensures Coef(p, [t]) == (if t.p == p then t.c else ZERO) && (HasKey([t], p) <==> t.p == p)
  {
    hide Complex.Plus;
    assert [t][1..] == [];
    assert [t][0] == t;
    PlusZero(t.c); PlusZero(ZERO);
  }

  lemma Rotate(a: Complex, b: Complex, c: Complex)
    ensures a.Plus(b).Plus(c) == a.Plus(c).Plus(b)
  {
  }

  /** Merging keeps every key's total coefficient. */
  lemma {:induction false} MergeCoef(n: nat, p: Pauli, rows: seq<Term>)
    requires OnQubits(n, rows)
    ensures Coef(p, Merge(rows)) == Coef(p, rows) && (HasKey(Merge(rows), p) <==> HasKey(rows, p))
  {
    hide Complex.Plus, Coef, HasKey, AddTerm;
    if |rows| > 0 {
      var k := |rows| - 1;
      var fewer, t := rows[..k], rows[k];
      MergeCoef(n, p, fewer);
      AddTermCoef(p, Merge(fewer), t);
      assert rows == fewer + [t];
      CoefSnoc(p, Merge(fewer), t); CoefSnoc(p, fewer, t);
      HasSnoc(p, Merge(fewer), t); HasSnoc(p, fewer, t);
    }
  }

  /** In a sum with distinct keys a row is there exactly with its key's coefficient. */
  lemma InDistinct(ts: seq<Term>, t: Term)
    requires Distinct(ts)
    ensures t in ts <==> HasKey(ts, t.p) && t.c == Coef(t.p, ts)
  {
    hide Coef;
    if t in ts {
      var i :| 0 <= i < |ts| && ts[i] == t;
      CoefPresent(i, ts);
    }
    if HasKey(ts, t.p) && t.c == Coef(t.p, ts) {
      var i :| 0 <= i < |ts| && ts[i].p == t.p;
      CoefPresent(i, ts);
    }
  }

  /** The walk's output is the layer of the simple model: the same rows as merging all and then dropping. */
  lemma StreamsAreMerge(n: nat, keep: Term -> bool, x: seq<Term>, y: seq<Term>, out: seq<Term>, t: Term)
    requires OnQubits(n, x) && OnQubits(n, y) && Exact(keep, out, x, y)
    ensures t in out <==> t in Kept(keep, Merge(x + y))
  {
    hide Coef, HasKey, Merge, Kept, Complex.Plus, Distinct, SumMat;
    assert t in out <==> Due(keep, t, x, y);
    MergeMat(n, x + y);
    InKept(keep, Merge(x + y), t);
    InDistinct(Merge(x + y), t);
    MergeCoef(n, t.p, x + y);
    CoefConcat(t.p, x, y); HasConcat(t.p, x, y);
  }
}
