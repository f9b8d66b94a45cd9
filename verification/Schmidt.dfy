/**
 The operator Schmidt matrix of a Pauli sum: split every key at a cut, index the distinct factors, and
 scatter the coefficients.
 */
module Schmidt {
  import opened Complexes
  import opened Paulis
  import opened PauliSums
  import opened OleOverlap

  // ---- Masks and factor keys ----

  /** `_bit_mask`: the bits `[lo, hi)` of an `n`-bit row. */
  method BitMask(n: nat, lo: nat, hi: nat) returns (mask: Row)
    requires lo <= hi <= n
    ensures mask == Span(n, lo, hi)
  {
    var bits := new bool[n](_ => false);
    for bit := lo to hi
      invariant forall q :: 0 <= q < n ==> bits[q] == (lo <= q < bit)
    {
      bits[bit] := true;
    }
    return bits[..];
  }

  function Span(n: nat, lo: nat, hi: nat): (r: Row)
    ensures |r| == n && forall q :: 0 <= q < n ==> r[q] == (lo <= q < hi)
  {
    seq(n, q => lo <= q < hi)
  }

  /** The `(x, z)` bits under a mask. */
  function Factor(mask: Row, p: Pauli): (r: Row)
    requires p.On(|mask|)
    ensures |r| == 2 * |mask|
  {
    And(p.x, mask) + And(p.z, mask)
  }

  function LeftKey(n: nat, cut: nat, p: Pauli): (r: Row)
    requires p.On(n)
    ensures |r| == 2 * n
  {
    Factor(Span(n, 0, cut), p)
  }

  function RightKey(n: nat, cut: nat, p: Pauli): (r: Row)
    requires p.On(n)
    ensures |r| == 2 * n
  {
    Factor(Span(n, cut, n), p)
  }

  lemma FactorAt(mask: Row, p: Pauli, i: nat)
    requires p.On(|mask|) && i < |mask|
    ensures Factor(mask, p)[i] == (p.x[i] && mask[i]) && Factor(mask, p)[|mask| + i] == (p.z[i] && mask[i])
  {
  }

  /** The two factors determine the string. */
  lemma FactorsDetermine(n: nat, cut: nat, p: Pauli, q: Pauli)
    requires p.On(n) && q.On(n) && cut <= n
    requires LeftKey(n, cut, p) == LeftKey(n, cut, q) && RightKey(n, cut, p) == RightKey(n, cut, q)
    ensures p == q
  {
    hide Factor;
    forall i | 0 <= i < n ensures p.x[i] == q.x[i] && p.z[i] == q.z[i] {
      var mask := if i < cut then Span(n, 0, cut) else Span(n, cut, n);
      FactorAt(mask, p, i); FactorAt(mask, q, i);
    }
    assert p.x == q.x && p.z == q.z;
  }

  // ---- Distinct rows ----

  predicate Covers(keys: seq<Row>, unique: seq<Row>, index: seq<nat>) {
    && |index| == |keys|
    && (forall i :: 0 <= i < |keys| ==> index[i] < |unique| && unique[index[i]] == keys[i])
  }

  predicate Width(w: nat, rows: seq<Row>) {
    forall i :: 0 <= i < |rows| ==> |rows[i]| == w
  }

  function InsertRow(w: nat, row: Row, rows: seq<Row>): (r: seq<Row>)
    requires |row| == w && Width(w, rows)
    ensures Width(w, r)
    ensures forall x :: x in r <==> x == row || x in rows
  {
    if |rows| == 0 then [row]
    else if row == rows[0] then rows
    else if LexLeq(row, rows[0]) then [row] + rows
    else
      assert rows == [rows[0]] + rows[1..];
      [rows[0]] + InsertRow(w, row, rows[1..])
  }

  /** Strictly below in the lexicographic order. */
  predicate Below(a: Row, b: Row)
    requires |a| == |b|
  {
    a != b && LexLeq(a, b)
  }

  lemma BelowTransitive(a: Row, b: Row, c: Row)
    requires |a| == |b| == |c| && Below(a, b) && Below(b, c)
    ensures Below(a, c)
  {
    LexTransitive(a, b, c);
    if a == c {
      LexAntisymmetric(a, b);
    }
  }

  /** Rows in strictly increasing order. */
  predicate Rising(w: nat, rows: seq<Row>)
    requires Width(w, rows)
  {
    forall i, j :: 0 <= i < j < |rows| ==> Below(rows[i], rows[j])
  }

  lemma {:induction false} InsertRising(w: nat, row: Row, rows: seq<Row>)
    requires |row| == w && Width(w, rows) && Rising(w, rows)
    ensures Rising(w, InsertRow(w, row, rows))
  {
    hide LexLeq;
    if |rows| == 0 || row == rows[0] {
    } else if LexLeq(row, rows[0]) {
      forall j | 0 <= j < |rows| ensures Below(row, rows[j]) {
        if j > 0 {
          BelowTransitive(row, rows[0], rows[j]);
        }
      }
    } else {
      LexTotal(row, rows[0]);
      var rest := InsertRow(w, row, rows[1..]);
      InsertRising(w, row, rows[1..]);
      forall j | 0 <= j < |rest| ensures Below(rows[0], rest[j]) {
        assert rest[j] in rest;
        if rest[j] != row {
          var k :| 0 <= k < |rows| - 1 && rows[1..][k] == rest[j];
          assert Below(rows[0], rows[k + 1]);
        }
      }
    }
  }

  /** `np.unique(keys, axis=0, return_inverse=True)`: the distinct rows in increasing order, and where each key went. */
  method Unique(w: nat, keys: seq<Row>) returns (unique: seq<Row>, index: seq<nat>)
    requires Width(w, keys)
    ensures Width(w, unique) && Rising(w, unique) && Covers(keys, unique, index)
    ensures forall x :: x in unique <==> x in keys
  {
    hide LexLeq;
    unique := [];
    for k := 0 to |keys|
      invariant Width(w, unique) && Rising(w, unique)
      invariant forall x :: x in unique <==> x in keys[..k]
    {
      InsertRising(w, keys[k], unique);
      assert keys[..k + 1] == keys[..k] + [keys[k]];
      unique := InsertRow(w, keys[k], unique);
    }
    assert keys[..|keys|] == keys;
    index := [];
    for k := 0 to |keys|
      invariant |index| == k
      invariant forall i :: 0 <= i < k ==> index[i] < |unique| && unique[index[i]] == keys[i]
    {
      assert keys[k] in unique;
      var j := Position(unique, keys[k]);
      index := index + [j];
    }
  }

  function Position(rows: seq<Row>, row: Row): (j: nat)
    requires row in rows
    ensures j < |rows| && rows[j] == row
  {
    if rows[0] == row then 0 else 1 + Position(rows[1..], row)
  }

  // ---- The scatter ----

  type Grid = seq<seq<Complex>>

  predicate Shaped(m: Grid, rows: nat, cols: nat) {
    |m| == rows && forall a :: 0 <= a < rows ==> |m[a]| == cols
  }

  function ZeroRow(cols: nat): (r: seq<Complex>)
    ensures |r| == cols && forall b :: 0 <= b < cols ==> r[b] == ZERO
  {
    seq(cols, _ => ZERO)
  }

  function Zeros(rows: nat, cols: nat): (m: Grid)
    ensures Shaped(m, rows, cols) && forall a :: 0 <= a < rows ==> m[a] == ZeroRow(cols)
  {
    seq(rows, _ => ZeroRow(cols))
  }

  function AddAt(m: Grid, a: nat, b: nat, c: Complex): (r: Grid)
    requires a < |m| && b < |m[a]|
    ensures |r| == |m| && forall i :: 0 <= i < |m| ==> |r[i]| == |m[i]|
  {
    m[a := m[a][b := m[a][b].Plus(c)]]
  }

  predicate Indices(rows: nat, cols: nat, left: seq<nat>, right: seq<nat>) {
    |left| == |right| && forall i :: 0 <= i < |left| ==> left[i] < rows && right[i] < cols
  }

  /** `np.add.at` over all terms. */
  function Scatter(rows: nat, cols: nat, left: seq<nat>, right: seq<nat>, ts: seq<Term>): (m: Grid)
    requires Indices(rows, cols, left, right) && |left| == |ts|
    ensures Shaped(m, rows, cols)
  {
    if |ts| == 0 then Zeros(rows, cols)
    else
      var k := |ts| - 1;
      AddAt(Scatter(rows, cols, left[..k], right[..k], ts[..k]), left[k], right[k], ts[k].c)
  }

  /** The total coefficient sent to one cell. */
  function CellSum(left: seq<nat>, right: seq<nat>, ts: seq<Term>, a: nat, b: nat): Complex
    requires |left| == |right| == |ts|
  {
    if |ts| == 0 then ZERO
    else
      var k := |ts| - 1;
      var rest := CellSum(left[..k], right[..k], ts[..k], a, b);
      if left[k] == a && right[k] == b then rest.Plus(ts[k].c) else rest
  }

  /** Whatever the indices, each cell holds the sum of the coefficients sent to it. */
  lemma {:induction false} ScatterCells(rows: nat, cols: nat, left: seq<nat>, right: seq<nat>, ts: seq<Term>, a: nat, b: nat)
    requires Indices(rows, cols, left, right) && |left| == |ts| && a < rows && b < cols
    ensures Scatter(rows, cols, left, right, ts)[a][b] == CellSum(left, right, ts, a, b)
    decreases |ts|
  {
    hide Complex.Plus;
    if |ts| > 0 {
      var k := |ts| - 1;
      ScatterCells(rows, cols, left[..k], right[..k], ts[..k], a, b);
    }
  }

  /** No two terms share a cell. */
  predicate Injective(left: seq<nat>, right: seq<nat>)
    requires |left| == |right|
  {
    forall i, j :: 0 <= i < j < |left| ==> left[i] != left[j] || right[i] != right[j]
  }

  lemma {:induction false} CellUnused(left: seq<nat>, right: seq<nat>, ts: seq<Term>, a: nat, b: nat)
    requires |left| == |right| == |ts| && forall i :: 0 <= i < |left| ==> left[i] != a || right[i] != b
    ensures CellSum(left, right, ts, a, b) == ZERO
    decreases |ts|
  {
    if |ts| > 0 {
      var k := |ts| - 1;
      CellUnused(left[..k], right[..k], ts[..k], a, b);
    }
  }

  // ---- Weight ----

  function RowWeight(r: seq<Complex>): real {
    if |r| == 0 then 0.0 else r[0].Abs2() + RowWeight(r[1..])
  }

  /** The squared Frobenius norm. */
  function Frobenius(m: Grid): real {
    if |m| == 0 then 0.0 else RowWeight(m[0]) + Frobenius(m[1..])
  }

  lemma {:induction false} RowUpdate(r: seq<Complex>, b: nat, c: Complex)
    requires b < |r| && r[b] == ZERO
    ensures RowWeight(r[b := c]) == RowWeight(r) + c.Abs2()
  {
    hide Complex.Abs2;
    if b == 0 {
      ZeroWeightless();
      assert r[b := c][1..] == r[1..];
    } else {
      assert r[b := c][1..] == r[1..][b - 1 := c];
      RowUpdate(r[1..], b - 1, c);
    }
  }

  lemma ZeroWeightless()
    ensures ZERO.Abs2() == 0.0
  {
  }

  lemma {:induction false} GridUpdate(m: Grid, a: nat, b: nat, c: Complex)
    requires a < |m| && b < |m[a]| && m[a][b] == ZERO
    ensures Frobenius(AddAt(m, a, b, c)) == Frobenius(m) + c.Abs2()
  {
    hide Complex.Abs2, RowWeight, Complex.Plus;
    PlusZero(c);
    var r := AddAt(m, a, b, c);
    if a == 0 {
      assert r[1..] == m[1..];
      RowUpdate(m[0], b, c);
    } else {
      assert r[1..] == AddAt(m[1..], a - 1, b, c);
      GridUpdate(m[1..], a - 1, b, c);
    }
  }

  lemma {:induction false} ZeroRowWeight(r: seq<Complex>)
    requires forall b :: 0 <= b < |r| ==> r[b] == ZERO
    ensures RowWeight(r) == 0.0
  {
    hide Complex.Abs2;
    if |r| > 0 {
      ZeroWeightless();
      ZeroRowWeight(r[1..]);
    }
  }

  lemma {:induction false} ZeroGridWeight(m: Grid)
    requires forall a, b :: 0 <= a < |m| && 0 <= b < |m[a]| ==> m[a][b] == ZERO
    ensures Frobenius(m) == 0.0
  {
    if |m| > 0 {
      ZeroRowWeight(m[0]);
      ZeroGridWeight(m[1..]);
    }
  }

  /** `sum |c|^2` accumulated from the front, as the scatter does. */
  lemma Norm2Snoc(ts: seq<Term>)
    requires |ts| > 0
    ensures Norm2(ts) == Norm2(ts[..|ts| - 1]) + ts[|ts| - 1].c.Abs2()
    decreases |ts|
  {
    hide Complex.Abs2;
    if |ts| > 1 {
      Norm2Snoc(ts[1..]);
      assert ts[1..][..|ts| - 2] == ts[..|ts| - 1][1..];
    }
  }

  /** With distinct cells, the squared Frobenius norm is the Hilbert-Schmidt weight. */
  lemma {:induction false} ScatterWeight(rows: nat, cols: nat, left: seq<nat>, right: seq<nat>, ts: seq<Term>)
    requires Indices(rows, cols, left, right) && |left| == |ts| && Injective(left, right)
    ensures Frobenius(Scatter(rows, cols, left, right, ts)) == Norm2(ts)
    decreases |ts|
  {
    hide Complex.Abs2, Frobenius, Norm2, AddAt, CellSum;
    if |ts| == 0 {
      ZeroGridWeight(Zeros(rows, cols));
      NoTermsWeight();
    } else {
      var k := |ts| - 1;
      var m := Scatter(rows, cols, left[..k], right[..k], ts[..k]);
      ScatterWeight(rows, cols, left[..k], right[..k], ts[..k]);
      ScatterCells(rows, cols, left[..k], right[..k], ts[..k], left[k], right[k]);
      CellUnused(left[..k], right[..k], ts[..k], left[k], right[k]);
      GridUpdate(m, left[k], right[k], ts[k].c);
      Norm2Snoc(ts);
    }
  }

  lemma NoTermsWeight()
    ensures Norm2([]) == 0.0
  {
  }
}
