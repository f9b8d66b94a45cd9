/**
 `schmidt_matrix` end to end: its guards, its shape, and what every cell holds.
 */
module SchmidtMatrix {
  import opened Complexes
  import opened Paulis
  import opened PauliSums
  import opened Schmidt

  datatype SchmidtError = BadCut | EmptySum | TooLarge

  datatype Outcome<T> = Ok(value: T) | Err(error: SchmidtError)

  datatype Option<T> = None | Some(value: T)

  // ---- Meaning of a cell ----

  /** The total coefficient of the strings with the given left and right factors: `c_{a (x) b}`. */
  function CoefAt(n: nat, cut: nat, ts: seq<Term>, l: Row, r: Row): Complex
    requires OnQubits(n, ts)
  {
    if |ts| == 0 then ZERO
    else
      var k := |ts| - 1;
      var rest := CoefAt(n, cut, ts[..k], l, r);
      if LeftKey(n, cut, ts[k].p) == l && RightKey(n, cut, ts[k].p) == r then rest.Plus(ts[k].c) else rest
  }

  function LeftKeys(n: nat, cut: nat, ts: seq<Term>): (r: seq<Row>)
    requires OnQubits(n, ts)
    ensures |r| == |ts| && Width(2 * n, r) && forall i :: 0 <= i < |ts| ==> r[i] == LeftKey(n, cut, ts[i].p)
  {
    seq(|ts|, i requires 0 <= i < |ts| => LeftKey(n, cut, ts[i].p))
  }

  function RightKeys(n: nat, cut: nat, ts: seq<Term>): (r: seq<Row>)
    requires OnQubits(n, ts)
    ensures |r| == |ts| && Width(2 * n, r) && forall i :: 0 <= i < |ts| ==> r[i] == RightKey(n, cut, ts[i].p)
  {
    seq(|ts|, i requires 0 <= i < |ts| => RightKey(n, cut, ts[i].p))
  }

  /** Strictly increasing rows at different places differ. */
  lemma RisingDistinct(w: nat, rows: seq<Row>, i: nat, j: nat)
    requires Width(w, rows) && Rising(w, rows) && i < |rows| && j < |rows| && rows[i] == rows[j]
    ensures i == j
  {
    hide Rising;
    if i < j {
      RisingStep(w, rows, i, j);
    } else if j < i {
      RisingStep(w, rows, j, i);
    }
  }

  lemma RisingStep(w: nat, rows: seq<Row>, i: nat, j: nat)
    requires Width(w, rows) && Rising(w, rows) && i < j < |rows|
    ensures rows[i] != rows[j]
  {
    assert Below(rows[i], rows[j]);
  }

  /** A cell collects exactly the strings with its two factors. */
  lemma {:induction false} CellIsCoef(n: nat, cut: nat, ts: seq<Term>, ul: seq<Row>, ur: seq<Row>, left: seq<nat>, right: seq<nat>, a: nat, b: nat)
    requires OnQubits(n, ts) && Width(2 * n, ul) && Width(2 * n, ur) && Rising(2 * n, ul) && Rising(2 * n, ur)
    requires Covers(LeftKeys(n, cut, ts), ul, left) && Covers(RightKeys(n, cut, ts), ur, right)
    requires a < |ul| && b < |ur|
    ensures CellSum(left, right, ts, a, b) == CoefAt(n, cut, ts, ul[a], ur[b])
    decreases |ts|
  {
    hide Complex.Plus, LeftKey, RightKey, Rising;
    if |ts| > 0 {
      var k := |ts| - 1;
      assert LeftKeys(n, cut, ts[..k]) == LeftKeys(n, cut, ts)[..k];
      assert RightKeys(n, cut, ts[..k]) == RightKeys(n, cut, ts)[..k];
      CellIsCoef(n, cut, ts[..k], ul, ur, left[..k], right[..k], a, b);
      if ul[left[k]] == ul[a] {
        RisingDistinct(2 * n, ul, left[k], a);
      }
      if ur[right[k]] == ur[b] {
        RisingDistinct(2 * n, ur, right[k], b);
      }
    }
  }

  /** Distinct keys have distinct index pairs. */
  lemma DistinctCells(n: nat, cut: nat, ts: seq<Term>, ul: seq<Row>, ur: seq<Row>, left: seq<nat>, right: seq<nat>)
    requires OnQubits(n, ts) && Distinct(ts) && cut <= n
    requires Covers(LeftKeys(n, cut, ts), ul, left) && Covers(RightKeys(n, cut, ts), ur, right)
    ensures Injective(left, right)
  {
    hide LeftKey, RightKey;
    forall i, j | 0 <= i < j < |ts| ensures left[i] != left[j] || right[i] != right[j] {
      if left[i] == left[j] && right[i] == right[j] {
        assert ul[left[i]] == LeftKey(n, cut, ts[i].p) && ul[left[j]] == LeftKey(n, cut, ts[j].p);
        assert ur[right[i]] == RightKey(n, cut, ts[i].p) && ur[right[j]] == RightKey(n, cut, ts[j].p);
        FactorsDetermine(n, cut, ts[i].p, ts[j].p);
      }
    }
  }

  lemma {:induction false} CoefElsewhere(n: nat, cut: nat, ts: seq<Term>, p: Pauli)
    requires OnQubits(n, ts) && p.On(n) && cut <= n && forall i :: 0 <= i < |ts| ==> ts[i].p != p
    ensures CoefAt(n, cut, ts, LeftKey(n, cut, p), RightKey(n, cut, p)) == ZERO
  {
    hide LeftKey, RightKey;
    if |ts| > 0 {
      var k := |ts| - 1;
      CoefElsewhere(n, cut, ts[..k], p);
      if LeftKey(n, cut, ts[k].p) == LeftKey(n, cut, p) && RightKey(n, cut, ts[k].p) == RightKey(n, cut, p) {
        FactorsDetermine(n, cut, ts[k].p, p);
      }
    }
  }

  /** For distinct keys, every coefficient is read back from the cell of its factors. */
  lemma {:induction false} ReadBack(n: nat, cut: nat, ts: seq<Term>, i: nat)
    requires OnQubits(n, ts) && Distinct(ts) && cut <= n && i < |ts|
    ensures CoefAt(n, cut, ts, LeftKey(n, cut, ts[i].p), RightKey(n, cut, ts[i].p)) == ts[i].c
  {
    hide LeftKey, RightKey, Complex.Plus;
    var k := |ts| - 1;
    if i == k {
      CoefElsewhere(n, cut, ts[..k], ts[k].p);
      PlusZero(ts[k].c);
    } else {
      ReadBack(n, cut, ts[..k], i);
      if LeftKey(n, cut, ts[k].p) == LeftKey(n, cut, ts[i].p) && RightKey(n, cut, ts[k].p) == RightKey(n, cut, ts[i].p) {
        FactorsDetermine(n, cut, ts[k].p, ts[i].p);
      }
    }
  }

  // ---- The shape ----

  function Code(row: Row): (v: nat)
    ensures v < Pow2(|row|)
  {
    if |row| == 0 then 0 else Bit(row[0]) + 2 * Code(row[1..])
  }

  lemma {:induction false} CodeInjective(a: Row, b: Row)
    requires |a| == |b| && Code(a) == Code(b)
    ensures a == b
  {
    if |a| > 0 {
      CodeInjective(a[1..], b[1..]);
      assert a == [a[0]] + a[1..] && b == [b[0]] + b[1..];
    }
  }

  function UpTo(n: nat): (r: set<nat>)
    ensures |r| == n && forall v: int :: v in r <==> 0 <= v < n
  {
    if n == 0 then {}
    else
      assert n - 1 !in UpTo(n - 1);
      UpTo(n - 1) + {n - 1}
  }

  /** Pigeonhole: distinct values below `bound` are at most `bound` many. */
  lemma {:induction false} Pigeonhole(s: seq<nat>, bound: nat)
    requires forall i :: 0 <= i < |s| ==> s[i] < bound
    requires forall i, j :: 0 <= i < j < |s| ==> s[i] != s[j]
    ensures |s| <= bound
  {
    var seen: set<nat> := {};
    for k := 0 to |s|
      invariant |seen| == k && forall v :: v in seen <==> v in s[..k]
    {
      assert s[..k + 1] == s[..k] + [s[k]];
      seen := seen + {s[k]};
    }
    assert seen <= UpTo(bound);
    Subset(seen, UpTo(bound));
  }

  lemma {:induction false} Subset(a: set<nat>, b: set<nat>)
    requires a <= b
    ensures |a| <= |b|
  {
    if a != {} {
      var x :| x in a;
      Subset(a - {x}, b - {x});
    }
  }

  /** The `2 * (hi - lo)` bits a factor key can set. */
  function Reduced(n: nat, lo: nat, hi: nat, key: Row): (r: Row)
    requires lo <= hi <= n && |key| == 2 * n
    ensures |r| == 2 * (hi - lo)
  {
    key[lo..hi] + key[n + lo..n + hi]
  }

  predicate ClearAt(n: nat, key: Row, i: nat)
    requires |key| == 2 * n && i < n
  {
    !key[i] && !key[n + i]
  }

  predicate FactorKey(n: nat, lo: nat, hi: nat, key: Row) {
    |key| == 2 * n && lo <= hi <= n && forall i :: 0 <= i < n && !(lo <= i < hi) ==> ClearAt(n, key, i)
  }

  lemma ReducedAt(n: nat, lo: nat, hi: nat, key: Row, i: nat)
    requires lo <= i < hi <= n && |key| == 2 * n
    ensures Reduced(n, lo, hi, key)[i - lo] == key[i] && Reduced(n, lo, hi, key)[hi - lo + i - lo] == key[n + i]
  {
  }

  predicate SameAt(n: nat, a: Row, b: Row, i: nat)
    requires |a| == |b| == 2 * n && i < n
  {
    a[i] == b[i] && a[n + i] == b[n + i]
  }

  lemma ReducedInjective(n: nat, lo: nat, hi: nat, a: Row, b: Row)
    requires FactorKey(n, lo, hi, a) && FactorKey(n, lo, hi, b) && Reduced(n, lo, hi, a) == Reduced(n, lo, hi, b)
    ensures a == b
  {
    hide Reduced;
    forall i | 0 <= i < n ensures SameAt(n, a, b, i) {
      if lo <= i < hi {
        ReducedAt(n, lo, hi, a, i); ReducedAt(n, lo, hi, b, i);
      } else {
        assert ClearAt(n, a, i) && ClearAt(n, b, i);
      }
    }
    forall i | 0 <= i < 2 * n ensures a[i] == b[i] {
      assert SameAt(n, a, b, if i < n then i else i - n);
    }
  }

  function Codes(n: nat, lo: nat, hi: nat, unique: seq<Row>): (r: seq<nat>)
    requires lo <= hi <= n && Width(2 * n, unique)
    ensures |r| == |unique| && forall i :: 0 <= i < |r| ==> r[i] == Code(Reduced(n, lo, hi, unique[i]))
  {
    seq(|unique|, i requires 0 <= i < |unique| => Code(Reduced(n, lo, hi, unique[i])))
  }

  /** At most `4^(hi - lo)` distinct factors. */
  lemma FactorCount(n: nat, lo: nat, hi: nat, unique: seq<Row>)
    requires lo <= hi <= n && Width(2 * n, unique) && Rising(2 * n, unique)
    requires forall i :: 0 <= i < |unique| ==> FactorKey(n, lo, hi, unique[i])
    ensures |unique| <= Pow2(2 * (hi - lo))
  {
    hide Code, Reduced, Rising;
    var codes := Codes(n, lo, hi, unique);
    forall i, j | 0 <= i < j < |codes| ensures codes[i] != codes[j] {
      if codes[i] == codes[j] {
        CodeInjective(Reduced(n, lo, hi, unique[i]), Reduced(n, lo, hi, unique[j]));
        ReducedInjective(n, lo, hi, unique[i], unique[j]);
        RisingDistinct(2 * n, unique, i, j);
      }
    }
    Pigeonhole(codes, Pow2(2 * (hi - lo)));
  }

  lemma FactorIsKey(n: nat, lo: nat, hi: nat, p: Pauli)
    requires p.On(n) && lo <= hi <= n
    ensures FactorKey(n, lo, hi, Factor(Span(n, lo, hi), p))
  {
    hide Factor;
    forall i | 0 <= i < n && !(lo <= i < hi) ensures ClearAt(n, Factor(Span(n, lo, hi), p), i) {
      FactorAt(Span(n, lo, hi), p, i);
    }
  }

  /** No more distinct factors than terms. */
  lemma UniqueCount(w: nat, keys: seq<Row>, unique: seq<Row>, index: seq<nat>)
    requires Width(w, unique) && Rising(w, unique) && Covers(keys, unique, index) && forall x :: x in unique ==> x in keys
    ensures |unique| <= |keys|
  {
    hide Rising;
    var at: seq<nat> := [];
    for k := 0 to |unique|
      invariant |at| == k && forall i :: 0 <= i < k ==> at[i] < |keys| && keys[at[i]] == unique[i]
    {
      assert unique[k] in keys;
      at := at + [Position(keys, unique[k])];
    }
    forall i, j | 0 <= i < j < |at| ensures at[i] != at[j] {
      if at[i] == at[j] {
        RisingDistinct(w, unique, i, j);
      }
    }
    Pigeonhole(at, |keys|);
  }

  // ---- The operations ----

  /** `_normalize_cut`. */
  function NormalizeCut(n: nat, cut: Option<int>): (r: Outcome<int>)
    ensures r.Ok? ==> 1 <= r.value <= n - 1
    ensures r.Ok? <==> (cut == None && n >= 2) || (cut.Some? && 1 <= cut.value <= n - 1)
    ensures r.Ok? && cut.None? ==> r.value + r.value <= n <= r.value + r.value + 1
    ensures r.Ok? && cut.Some? ==> r.value == cut.value
    ensures r.Err? ==> r.error == BadCut
  {
    var c := if cut.None? then n / 2 else cut.value;
    if 1 <= c <= n - 1 then Ok(c) else Err(BadCut)
  }

  datatype Factors = Factors(left: seq<nat>, right: seq<nat>, ul: seq<Row>, ur: seq<Row>)

  /** What `_factor_indices` promises: sorted distinct factors of the terms, and each term's two indices. */
  ghost predicate FactorsOf(n: nat, cut: nat, ts: seq<Term>, f: Factors)
    requires OnQubits(n, ts)
  {
    && Width(2 * n, f.ul) && Width(2 * n, f.ur) && Rising(2 * n, f.ul) && Rising(2 * n, f.ur)
    && Covers(LeftKeys(n, cut, ts), f.ul, f.left) && Covers(RightKeys(n, cut, ts), f.ur, f.right)
    && (forall x :: x in f.ul <==> x in LeftKeys(n, cut, ts)) && (forall x :: x in f.ur <==> x in RightKeys(n, cut, ts))
  }

  /** The distinct left factors of a sum. */
  function LeftFactors(n: nat, cut: nat, ts: seq<Term>): set<Row>
    requires OnQubits(n, ts)
  {
    set x | x in LeftKeys(n, cut, ts)
  }

  function RightFactors(n: nat, cut: nat, ts: seq<Term>): set<Row>
    requires OnQubits(n, ts)
  {
    set x | x in RightKeys(n, cut, ts)
  }

  /** Strictly increasing rows are as many as the set they list. */
  lemma RisingCount(w: nat, rows: seq<Row>, s: set<Row>)
    requires Width(w, rows) && Rising(w, rows) && forall x :: x in rows <==> x in s
    ensures |rows| == |s|
  {
    hide Rising;
    var seen: set<Row> := {};
    for k := 0 to |rows|
      invariant |seen| == k && forall x :: x in seen <==> x in rows[..k]
    {
      if rows[k] in seen {
        var j :| 0 <= j < k && rows[..k][j] == rows[k];
        RisingDistinct(w, rows, j, k);
      }
      assert rows[..k + 1] == rows[..k] + [rows[k]];
      seen := seen + {rows[k]};
    }
    assert rows[..|rows|] == rows;
    assert seen == s;
  }

  lemma FactorCounts(n: nat, cut: nat, ts: seq<Term>, f: Factors)
    requires OnQubits(n, ts) && FactorsOf(n, cut, ts, f)
    ensures |f.ul| == |LeftFactors(n, cut, ts)| && |f.ur| == |RightFactors(n, cut, ts)|
  {
    hide Rising;
    RisingCount(2 * n, f.ul, LeftFactors(n, cut, ts));
    RisingCount(2 * n, f.ur, RightFactors(n, cut, ts));
  }

  method FactorIndices(n: nat, ts: seq<Term>, cut: nat) returns (r: Outcome<Factors>)
    requires OnQubits(n, ts) && 1 <= cut < n
    ensures r == Err(EmptySum) <==> |ts| == 0
    ensures r.Ok? <==> |ts| > 0
    ensures r.Ok? ==> FactorsOf(n, cut, ts, r.value)
    ensures r.Ok? ==> |r.value.ul| <= |ts| && |r.value.ul| <= Pow2(2 * cut)
    ensures r.Ok? ==> |r.value.ur| <= |ts| && |r.value.ur| <= Pow2(2 * (n - cut))
  {
    hide Rising, Factor, FactorKey;
    if |ts| == 0 {
      return Err(EmptySum);
    }
    var lo := BitMask(n, 0, cut);
    var hi := BitMask(n, cut, n);
    var leftKeys := seq(|ts|, i requires 0 <= i < |ts| => Factor(lo, ts[i].p));
    var rightKeys := seq(|ts|, i requires 0 <= i < |ts| => Factor(hi, ts[i].p));
    assert leftKeys == LeftKeys(n, cut, ts) && rightKeys == RightKeys(n, cut, ts);
    var ul, left := Unique(2 * n, leftKeys);
    var ur, right := Unique(2 * n, rightKeys);
    UniqueCount(2 * n, leftKeys, ul, left);
    UniqueCount(2 * n, rightKeys, ur, right);
    KeysAreFactors(n, 0, cut, ts, leftKeys, ul);
    KeysAreFactors(n, cut, n, ts, rightKeys, ur);
    FactorCount(n, 0, cut, ul);
    FactorCount(n, cut, n, ur);
    return Ok(Factors(left, right, ul, ur));
  }

  lemma KeysAreFactors(n: nat, lo: nat, hi: nat, ts: seq<Term>, keys: seq<Row>, unique: seq<Row>)
    requires OnQubits(n, ts) && lo <= hi <= n && |keys| == |ts|
    requires forall i :: 0 <= i < |ts| ==> keys[i] == Factor(Span(n, lo, hi), ts[i].p)
    requires forall x :: x in unique ==> x in keys
    ensures forall i :: 0 <= i < |unique| ==> FactorKey(n, lo, hi, unique[i])
  {
    hide Factor, FactorKey;
    forall i | 0 <= i < |unique| ensures FactorKey(n, lo, hi, unique[i]) {
      assert unique[i] in keys;
      var k :| 0 <= k < |keys| && keys[k] == unique[i];
      FactorIsKey(n, lo, hi, ts[k].p);
    }
  }

  /** `schmidt_matrix_shape`: a cut error comes before the empty-sum error. */
  method SchmidtShape(n: nat, ts: seq<Term>, cut: Option<int>) returns (r: Outcome<(nat, nat)>)
    requires OnQubits(n, ts)
    ensures r == Err(BadCut) <==> NormalizeCut(n, cut).Err?
    ensures r == Err(EmptySum) <==> NormalizeCut(n, cut).Ok? && |ts| == 0
    ensures r.Ok? ==>
              var c := NormalizeCut(n, cut).value;
              && r.value == (|LeftFactors(n, c, ts)|, |RightFactors(n, c, ts)|)
              && r.value.0 <= |ts| && r.value.0 <= Pow2(2 * c)
              && r.value.1 <= |ts| && r.value.1 <= Pow2(2 * (n - c))
  {
    hide FactorsOf;
    var c := NormalizeCut(n, cut);
    if c.Err? {
      return Err(BadCut);
    }
    var f := FactorIndices(n, ts, c.value);
    if f.Err? {
      return Err(EmptySum);
    }
    FactorCounts(n, c.value, ts, f.value);
    return Ok((|f.value.ul|, |f.value.ur|));
  }

  /** The scatter, in place. */
  method ScatterInPlace(rows: nat, cols: nat, left: seq<nat>, right: seq<nat>, ts: seq<Term>) returns (m: array2<Complex>)
    requires Indices(rows, cols, left, right) && |left| == |ts|
    ensures fresh(m) && m.Length0 == rows && m.Length1 == cols
    ensures forall a, b :: 0 <= a < rows && 0 <= b < cols ==> m[a, b] == Scatter(rows, cols, left, right, ts)[a][b]
  {
    hide Complex.Plus, Scatter, AddAt;
    m := new Complex[rows, cols]((a, b) => ZERO);
    ScatterNone(rows, cols, left[..0], right[..0], ts[..0]);
    for k := 0 to |ts|
      invariant forall a, b :: 0 <= a < rows && 0 <= b < cols ==>
                  m[a, b] == Scatter(rows, cols, left[..k], right[..k], ts[..k])[a][b]
    {
      ScatterStep(rows, cols, left, right, ts, k);
      m[left[k], right[k]] := m[left[k], right[k]].Plus(ts[k].c);
    }
    assert left[..|ts|] == left && right[..|ts|] == right && ts[..|ts|] == ts;
  }

  lemma ScatterNone(rows: nat, cols: nat, left: seq<nat>, right: seq<nat>, ts: seq<Term>)
    requires |left| == |right| == |ts| == 0
    ensures Scatter(rows, cols, left, right, ts) == Zeros(rows, cols)
  {
  }

  lemma ScatterStep(rows: nat, cols: nat, left: seq<nat>, right: seq<nat>, ts: seq<Term>, k: nat)
    requires Indices(rows, cols, left, right) && |left| == |ts| && k < |ts|
    ensures
      var before, after := Scatter(rows, cols, left[..k], right[..k], ts[..k]), Scatter(rows, cols, left[..k + 1], right[..k + 1], ts[..k + 1]);
      forall a, b :: 0 <= a < rows && 0 <= b < cols ==>
        after[a][b] == if a == left[k] && b == right[k] then before[a][b].Plus(ts[k].c) else before[a][b]
  {
    hide Complex.Plus;
    assert left[..k + 1][..k] == left[..k] && right[..k + 1][..k] == right[..k] && ts[..k + 1][..k] == ts[..k];
  }

  /** `M[a, b] == c_{a (x) b}` for the distinct left and right factors of the sum. */
  ghost predicate SchmidtGrid(n: nat, cut: nat, ts: seq<Term>, ul: seq<Row>, ur: seq<Row>, m: Grid)
    requires OnQubits(n, ts)
  {
    Shaped(m, |ul|, |ur|)
    && forall a, b :: 0 <= a < |ul| && 0 <= b < |ur| ==> m[a][b] == CoefAt(n, cut, ts, ul[a], ur[b])
  }

  lemma FactorsMean(n: nat, cut: nat, ts: seq<Term>, f: Factors)
    requires OnQubits(n, ts) && FactorsOf(n, cut, ts, f)
    ensures Width(2 * n, f.ul) && Width(2 * n, f.ur) && Rising(2 * n, f.ul) && Rising(2 * n, f.ur)
    ensures Covers(LeftKeys(n, cut, ts), f.ul, f.left) && Covers(RightKeys(n, cut, ts), f.ur, f.right)
    ensures Indices(|f.ul|, |f.ur|, f.left, f.right) && |f.left| == |f.right| == |ts|
  {
    hide Rising;
  }

  /** What the scatter of a sum is: the Schmidt matrix, and for distinct keys it conserves the weight. */
  lemma ScatterIsSchmidt(n: nat, cut: nat, ts: seq<Term>, f: Factors)
    requires OnQubits(n, ts) && cut <= n && FactorsOf(n, cut, ts, f)
    ensures Indices(|f.ul|, |f.ur|, f.left, f.right) && |f.left| == |ts|
    ensures
      var m := Scatter(|f.ul|, |f.ur|, f.left, f.right, ts);
      SchmidtGrid(n, cut, ts, f.ul, f.ur, m) && (Distinct(ts) ==> Frobenius(m) == Norm2(ts))
  {
    hide Scatter, CoefAt, Rising, Frobenius, Norm2, CellSum, Distinct, FactorsOf, Covers, Width, Indices, Injective;
    FactorsMean(n, cut, ts, f);
    var rows, cols := |f.ul|, |f.ur|;
    var m := Scatter(rows, cols, f.left, f.right, ts);
    forall a, b | 0 <= a < rows && 0 <= b < cols ensures m[a][b] == CoefAt(n, cut, ts, f.ul[a], f.ur[b]) {
      ScatterCells(rows, cols, f.left, f.right, ts, a, b);
      CellIsCoef(n, cut, ts, f.ul, f.ur, f.left, f.right, a, b);
    }
    if Distinct(ts) {
      DistinctCells(n, cut, ts, f.ul, f.ur, f.left, f.right);
      ScatterWeight(rows, cols, f.left, f.right, ts);
    }
  }

  /** Rows and columns are exactly the factors of the terms, each once, in increasing order. */
  ghost predicate ListsFactors(n: nat, cut: nat, ts: seq<Term>, ul: seq<Row>, ur: seq<Row>)
    requires OnQubits(n, ts)
  {
    && Width(2 * n, ul) && Width(2 * n, ur) && Rising(2 * n, ul) && Rising(2 * n, ur)
    && (forall x :: x in ul <==> x in LeftFactors(n, cut, ts)) && (forall x :: x in ur <==> x in RightFactors(n, cut, ts))
  }

  lemma FactorsListed(n: nat, cut: nat, ts: seq<Term>, f: Factors)
    requires OnQubits(n, ts) && FactorsOf(n, cut, ts, f)
    ensures ListsFactors(n, cut, ts, f.ul, f.ur)
  {
    hide Rising;
  }

  /** The rows of a two-dimensional array. */
  ghost predicate Holds(m: array2<Complex>, g: Grid)
    reads m
  {
    Shaped(g, m.Length0, m.Length1) && forall a, b :: 0 <= a < m.Length0 && 0 <= b < m.Length1 ==> m[a, b] == g[a][b]
  }

  lemma HeldCells(n: nat, cut: nat, ts: seq<Term>, ul: seq<Row>, ur: seq<Row>, m: array2<Complex>, g: Grid)
    requires OnQubits(n, ts) && Holds(m, g) && SchmidtGrid(n, cut, ts, ul, ur, g) && m.Length0 == |ul| && m.Length1 == |ur|
    ensures forall a, b :: 0 <= a < |ul| && 0 <= b < |ur| ==> m[a, b] == CoefAt(n, cut, ts, ul[a], ur[b])
  {
    hide CoefAt;
  }

  /**
   `schmidt_matrix`: refuses a trivial cut, then an empty sum, then a matrix over the entry guard; otherwise
   the Schmidt matrix, whose squared entries sum to the Hilbert-Schmidt weight.
   */
  method SchmidtMatrixOf(n: nat, ts: seq<Term>, cut: Option<int>, maxEntries: int)
    returns (r: Outcome<array2<Complex>>, ghost ul: seq<Row>, ghost ur: seq<Row>, ghost grid: Grid)
    requires OnQubits(n, ts)
    ensures r == Err(BadCut) <==> NormalizeCut(n, cut).Err?
    ensures r == Err(EmptySum) <==> NormalizeCut(n, cut).Ok? && |ts| == 0
    ensures NormalizeCut(n, cut).Ok? && |ts| > 0 ==>
              var c := NormalizeCut(n, cut).value;
              && ListsFactors(n, c, ts, ul, ur)
              && |ul| == |LeftFactors(n, c, ts)| && |ur| == |RightFactors(n, c, ts)|
              && |ul| <= |ts| && |ul| <= Pow2(2 * c) && |ur| <= |ts| && |ur| <= Pow2(2 * (n - c))
              && (r == Err(TooLarge) <==> |LeftFactors(n, c, ts)| * |RightFactors(n, c, ts)| > maxEntries)
              && (r.Ok? <==> |LeftFactors(n, c, ts)| * |RightFactors(n, c, ts)| <= maxEntries)
    ensures r.Ok? ==> fresh(r.value) && Holds(r.value, grid) && SchmidtGrid(n, NormalizeCut(n, cut).value, ts, ul, ur, grid)
    ensures r.Ok? ==> r.value.Length0 == |ul| && r.value.Length1 == |ur|
    ensures r.Ok? ==> forall a, b :: 0 <= a < |ul| && 0 <= b < |ur| ==> r.value[a, b] == CoefAt(n, NormalizeCut(n, cut).value, ts, ul[a], ur[b])
    ensures r.Ok? && Distinct(ts) ==> Frobenius(grid) == Norm2(ts)
  {
    hide Scatter, CoefAt, Rising, Frobenius, Norm2, Distinct, SchmidtGrid, ListsFactors, FactorsOf, LeftFactors, RightFactors;
    ul, ur, grid := [], [], [];
    var c := NormalizeCut(n, cut);
    if c.Err? {
      return Err(BadCut), ul, ur, grid;
    }
    var f := FactorIndices(n, ts, c.value);
    if f.Err? {
      return Err(EmptySum), ul, ur, grid;
    }
    ul, ur := f.value.ul, f.value.ur;
    FactorsListed(n, c.value, ts, f.value);
    FactorCounts(n, c.value, ts, f.value);
    var entries := |f.value.ul| * |f.value.ur|;
    if entries > maxEntries {
      return Err(TooLarge), ul, ur, grid;
    }
    ScatterIsSchmidt(n, c.value, ts, f.value);
    var m := ScatterInPlace(|f.value.ul|, |f.value.ur|, f.value.left, f.value.right, ts);
    grid := Scatter(|f.value.ul|, |f.value.ur|, f.value.left, f.value.right, ts);
    HeldCells(n, c.value, ts, ul, ur, m, grid);
    return Ok(m), ul, ur, grid;
  }
}
